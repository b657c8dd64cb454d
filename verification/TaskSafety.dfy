/**
  What every interleaving keeps: each issued task has exactly one holder, its
  record agrees with where it is, it is handled no more often than its limit,
  and its payload is the one it was issued with.
 */
module TaskSafety {
  import opened Options
  import opened TaskQueue
  import opened TaskMachine

  /** The limit, counting the first attempt that always happens. */
  function Cap(config: Config, task: Envelope): int {
    if Limit(config, task) < 1 then 1 else Limit(config, task)
  }

  /** How many handlings a task may have had, by where it is. */
  predicate CountFits(config: Config, task: Envelope, handled: nat, place: Place) {
    match place
    case AtMain => task.attempts < Cap(config, task) && handled <= task.attempts
    case AtDelayed => task.attempts < Cap(config, task) && handled <= task.attempts
    case AtDone => task.attempts < Cap(config, task) && handled <= task.attempts + 1
    case AtDead => task.attempts <= Cap(config, task) && handled <= task.attempts
    case InHand(_, Burying(_)) => task.attempts <= Cap(config, task) && handled <= task.attempts
    case InHand(_, proc) =>
      && task.attempts < Cap(config, task)
      && handled <= task.attempts + (if proc.Handling? || proc.Handled? || proc.Marked? || proc.Failing? then 1 else 0)
  }

  predicate IsPending(status: Status) {
    status == Queued || status == Delayed || status == Retrying
  }

  /** What the record says of a task, by where the task is. */
  predicate StatusFits(status: Status, place: Place) {
    match place
    case AtMain => IsPending(status)
    case AtDelayed => status == Delayed || status == Retrying
    case AtDead => status == Dead
    case AtDone => status == Succeeded
    case InHand(_, proc) =>
      match proc
      case Enqueuing(_, delay) => status == if delay > 0 then Delayed else Queued
      case Carrying(_, _) => IsPending(status)
      case Popped(_) => IsPending(status)
      case Started(_) => status == Running
      case Handling(_) => status == Running
      case Handled(_) => status == Running
      case Marked(_) => status == Succeeded
      case Failing(_, _) => status != Dead
      case Requeuing(_) => status == Retrying
      case Burying(_) => status == Dead
      case _ => true
  }

  predicate Ok(config: Config, b: Books, h: Holding) {
    var task := h.task;
    && task.id in b.original && task.id in b.handled
    && task.attempts >= 0
    && task.kind == b.original[task.id].kind && task.maxAttempts == b.original[task.id].maxAttempts
    && task.payload == (if h.place.AtDead? then Redacted(b.original[task.id]).payload else b.original[task.id].payload)
    && CountFits(config, task, b.handled[task.id], h.place)
    && (task.id in b.rows ==>
          && StatusFits(b.rows[task.id].status, h.place)
          && b.rows[task.id].attempts == task.attempts
          && b.rows[task.id].maxAttempts == task.maxAttempts
          && b.rows[task.id].payload == StoredPayload(b.original[task.id].payload))
  }

  ghost predicate OneHolderEach(held: multiset<Holding>) {
    && (forall h, k | h in held && k in held && h.task.id == k.task.id :: h == k)
    && (forall h | h in held :: held[h] == 1)
  }

  ghost predicate IsHeld(held: multiset<Holding>, id: Id) {
    exists h :: h in held && h.task.id == id
  }

  ghost predicate Good(config: Config, b: Books, held: multiset<Holding>) {
    && OneHolderEach(held)
    && (forall h | h in held :: Ok(config, b, h))
    && (forall id | id in b.original :: IsHeld(held, id))
    && b.rows.Keys <= b.original.Keys
  }

  ghost predicate Inv(config: Config, s: State) {
    Good(config, s.books, Holdings(s))
  }

  // ---- Progress ----

  /** How many more operations a task can need within its current attempt. */
  function Stage(place: Place): int {
    match place
    case AtDelayed => 8
    case AtMain => 6
    case AtDone => 0
    case AtDead => 8
    case InHand(_, proc) =>
      match proc
      case Enqueuing(_, _) => 9
      case Requeuing(_) => 9
      case Burying(_) => 9
      case Carrying(_, _) => 7
      case Popped(_) => 5
      case Started(_) => 4
      case Handling(_) => 3
      case Handled(_) => 2
      case Marked(_) => 1
      case _ => 0
  }

  /** Attempts left, then operations left in this attempt. */
  function Rank(config: Config, h: Holding): int {
    10 * (Cap(config, h.task) - h.task.attempts) + Stage(h.place)
  }

  predicate Falls(config: Config, h: Holding, k: Holding) {
    k.task.maxAttempts == h.task.maxAttempts && Rank(config, k) < Rank(config, h)
  }

  /** A task that changes its holder comes closer to its end. */
  ghost predicate RankFalls(config: Config, held: multiset<Holding>, later: multiset<Holding>) {
    forall x, y | x in held && y in later && x.task.id == y.task.id :: x == y || Falls(config, x, y)
  }

  ghost predicate Kept(config: Config, s: State, t: State) {
    && Inv(config, t)
    && RankFalls(config, Holdings(s), Holdings(t))
    && forall id | id in s.books.original :: id in t.books.original && t.books.original[id] == s.books.original[id]
  }

  lemma OneHolder(held: multiset<Holding>, h: Holding, k: Holding)
    requires OneHolderEach(held) && h in held && k in held && h.task.id == k.task.id
    ensures h == k
  {
  }

  lemma MoveFalls(config: Config, rest: multiset<Holding>, h: Holding, k: Holding)
    requires OneHolderEach(rest + multiset{h}) && Falls(config, h, k) && k.task.id == h.task.id
    ensures RankFalls(config, rest + multiset{h}, rest + multiset{k})
  {
    var held, later := rest + multiset{h}, rest + multiset{k};
    hide OneHolderEach, Falls;
    forall x, y | x in held && y in later && x.task.id == y.task.id
      ensures x == y || Falls(config, x, y)
    {
      assert h in held;
      if y == k {
        OneHolder(held, x, h);
      } else {
        assert y in held;
        OneHolder(held, x, y);
      }
    }
  }

  lemma NothingFalls(config: Config, held: multiset<Holding>)
    requires OneHolderEach(held)
    ensures RankFalls(config, held, held)
  {
    hide Falls;
  }

  lemma AppearFalls(config: Config, b: Books, held: multiset<Holding>, k: Holding)
    requires Good(config, b, held) && k.task.id !in b.original
    ensures RankFalls(config, held, held + multiset{k})
  {
    KnownHolders(config, b, held);
    hide Falls, Ok, IsHeld;
  }

  predicate SameAbout(b: Books, c: Books, i: Id) {
    && (i in b.original <==> i in c.original) && (i in b.original ==> b.original[i] == c.original[i])
    && (i in b.handled <==> i in c.handled) && (i in b.handled ==> b.handled[i] == c.handled[i])
    && (i in b.rows <==> i in c.rows) && (i in b.rows ==> b.rows[i] == c.rows[i])
  }

  /** Nothing is written about any other task. */
  ghost predicate OnlyAbout(b: Books, c: Books, id: Id) {
    forall i | i != id :: SameAbout(b, c, i)
  }

  lemma OkFrame(config: Config, b: Books, c: Books, h: Holding)
    requires Ok(config, b, h) && SameAbout(b, c, h.task.id)
    ensures Ok(config, c, h)
  {
    hide CountFits, StatusFits, StoredPayload, Redacted;
  }

  lemma HeldAfter(held: multiset<Holding>, more: multiset<Holding>, id: Id)
    requires IsHeld(held, id) && forall x | x in held && x.task.id == id :: x in more
    ensures IsHeld(more, id)
  {
    var x :| x in held && x.task.id == id;
    assert x in more;
  }

  lemma KnownHolders(config: Config, b: Books, held: multiset<Holding>)
    requires Good(config, b, held)
    ensures forall h | h in held :: h.task.id in b.original && h.task.id in b.handled
  {
    forall h | h in held
      ensures h.task.id in b.original && h.task.id in b.handled
    {
      assert Ok(config, b, h);
    }
  }

  /** One task changes holder. */
  lemma Move(config: Config, b: Books, c: Books, rest: multiset<Holding>, h: Holding, k: Holding)
    requires Good(config, b, rest + multiset{h})
    requires OnlyAbout(b, c, h.task.id) && k.task.id == h.task.id && Ok(config, c, k)
    requires c.rows.Keys <= c.original.Keys
    ensures Good(config, c, rest + multiset{k})
  {
    var held, moved := rest + multiset{h}, rest + multiset{k};
    hide Ok, SameAbout, IsHeld;
    assert h in held && held[h] == 1 && h !in rest;
    forall x | x in rest
      ensures x in held && x.task.id != h.task.id && held[x] == 1 && Ok(config, c, x)
    {
      assert x in held && x != h;
      OkFrame(config, b, c, x);
    }
    assert OneHolderEach(moved);
    assert k in moved && IsHeld(moved, k.task.id) by { HeldBySomeone(moved, k); }
    forall id | id in c.original && id != h.task.id
      ensures IsHeld(moved, id)
    {
      assert SameAbout(b, c, id);
      SameOriginal(b, c, id);
      HeldAfter(held, moved, id);
    }
  }

  lemma HeldBySomeone(held: multiset<Holding>, k: Holding)
    requires k in held
    ensures IsHeld(held, k.task.id)
  {
  }

  lemma SameOriginal(b: Books, c: Books, i: Id)
    requires SameAbout(b, c, i)
    ensures i in b.original <==> i in c.original
  {
  }

  /** A task is issued. */
  lemma Appear(config: Config, b: Books, c: Books, held: multiset<Holding>, k: Holding)
    requires Good(config, b, held) && k.task.id !in b.original
    requires OnlyAbout(b, c, k.task.id) && Ok(config, c, k)
    requires c.rows.Keys <= c.original.Keys
    ensures Good(config, c, held + multiset{k})
  {
    var more := held + multiset{k};
    KnownHolders(config, b, held);
    hide Ok, SameAbout, IsHeld;
    forall x | x in held
      ensures x.task.id != k.task.id && held[x] == 1 && Ok(config, c, x)
    {
      OkFrame(config, b, c, x);
    }
    assert k !in held;
    assert OneHolderEach(more);
    HeldBySomeone(more, k);
    forall id | id in c.original && id != k.task.id
      ensures IsHeld(more, id)
    {
      SameOriginal(b, c, id);
      HeldAfter(held, more, id);
    }
  }

  // ---- How each step changes the holdings ----

  /** Everything held by others than process p. */
  function Rest(s: State, p: nat): multiset<Holding>
    requires p < |s.procs|
  {
    Tagged(s.main, AtMain) + TaggedEntries(s.delayed) + Tagged(s.dead, AtDead) + Tagged(s.done, AtDone)
    + OthersHold(s.procs, p)
  }

  lemma HandsSplit(s: State, p: nat, proc: Process)
    requires p < |s.procs|
    ensures Holdings(s) == Rest(s, p) + HeldBy(p, s.procs[p])
    ensures Holdings(At(s, p, proc)) == Rest(s, p) + HeldBy(p, proc)
  {
    hide Tagged, TaggedEntries, InHands, OthersHold, HeldBy;
    InHandsSplit(s.procs, p, proc);
  }

  lemma Grows(s: State, task: Envelope)
    ensures Holdings(s.(main := s.main + [task])) == Holdings(s) + multiset{Holding(task, AtMain)}
    ensures Holdings(s.(dead := s.dead + [task])) == Holdings(s) + multiset{Holding(task, AtDead)}
    ensures Holdings(s.(done := s.done + [task])) == Holdings(s) + multiset{Holding(task, AtDone)}
  {
    hide Tagged, TaggedEntries, InHands;
    TaggedAppend(s.main, task, AtMain);
    TaggedAppend(s.dead, task, AtDead);
    TaggedAppend(s.done, task, AtDone);
  }

  lemma DelayedGrows(s: State, task: Envelope, score: int)
    requires Holding(task, AtDelayed) !in Holdings(s)
    ensures Holdings(s.(delayed := ZAdd(s.delayed, task, score))) == Holdings(s) + multiset{Holding(task, AtDelayed)}
  {
    hide Tagged, TaggedEntries, InHands, Insert, Without;
    var h := Holding(task, AtDelayed);
    assert h !in TaggedEntries(s.delayed);
    TaggedInsert(Without(s.delayed, task), Entry(score, task));
    TaggedWithout(s.delayed, task);
    assert TaggedEntries(s.delayed)[h := 0] == TaggedEntries(s.delayed);
  }

  lemma MainShrinks(s: State)
    requires s.main != []
    ensures Holdings(s) == Holdings(s.(main := s.main[1..])) + multiset{Holding(s.main[0], AtMain)}
  {
    assert Tagged(s.main, AtMain) == multiset{Holding(s.main[0], AtMain)} + Tagged(s.main[1..], AtMain);
    hide Tagged, TaggedEntries, InHands;
  }

  lemma DelayedShrinks(s: State, task: Envelope)
    requires IsMember(s.delayed, task) && Holdings(s)[Holding(task, AtDelayed)] == 1
    ensures Holdings(s) == Holdings(s.(delayed := Without(s.delayed, task))) + multiset{Holding(task, AtDelayed)}
  {
    hide Tagged, TaggedEntries, InHands, Without, IsMember;
    var h, held := Holding(task, AtDelayed), TaggedEntries(s.delayed);
    TaggedMember(s.delayed, task);
    TaggedWithout(s.delayed, task);
    assert held[h] == 1 by {
      assert 1 <= held[h] <= Holdings(s)[h];
    }
    assert held == held[h := 0] + multiset{h};
  }

  ghost function InHandOf(s: State, p: nat): Holding
    requires p < |s.procs| && s.procs[p].Holds()
  {
    Holding(s.procs[p].task, InHand(p, s.procs[p]))
  }

  lemma HeldIsOk(config: Config, s: State, p: nat)
    requires Inv(config, s) && p < |s.procs| && s.procs[p].Holds()
    ensures Ok(config, s.books, InHandOf(s, p))
    ensures Holdings(s) == Rest(s, p) + multiset{InHandOf(s, p)}
  {
    HandsSplit(s, p, s.procs[p]);
    hide Holdings, Rest, Ok;
    assert InHandOf(s, p) in Holdings(s);
  }

  lemma OnlyAboutItself(b: Books, id: Id)
    ensures OnlyAbout(b, b, id)
  {
  }

  lemma KnownRows(config: Config, s: State)
    requires Inv(config, s)
    ensures s.books.rows.Keys <= s.books.original.Keys
  {
    hide Ok, Holdings, IsHeld;
  }

  lemma BooksHoldNothing(s: State, b: Books)
    ensures Holdings(s.(books := b)) == Holdings(s)
  {
    hide Tagged, TaggedEntries, InHands;
  }

  /** A process keeps its task and goes on to its next operation. */
  lemma HandMoves(config: Config, s: State, p: nat, proc: Process, c: Books)
    requires Inv(config, s) && p < |s.procs| && s.procs[p].Holds() && proc.Holds()
    requires proc.task.id == s.procs[p].task.id && OnlyAbout(s.books, c, proc.task.id)
    requires Ok(config, c, Holding(proc.task, InHand(p, proc)))
    requires c.original == s.books.original && c.rows.Keys <= c.original.Keys
    requires Falls(config, InHandOf(s, p), Holding(proc.task, InHand(p, proc)))
    ensures Kept(config, s, At(s, p, proc).(books := c))
  {
    HandsSplit(s, p, proc);
    OnlyTheHandMoves(s, p, proc);
    hide Rest, Holdings, Ok, OnlyAbout, OneHolderEach, Falls, RankFalls, IsHeld, At;
    HeldIsOk(config, s, p);
    BooksHoldNothing(At(s, p, proc), c);
    Move(config, s.books, c, Rest(s, p), InHandOf(s, p), Holding(proc.task, InHand(p, proc)));
    MoveFalls(config, Rest(s, p), InHandOf(s, p), Holding(proc.task, InHand(p, proc)));
  }

  lemma HandEmpties(s: State, p: nat, next: Process)
    requires p < |s.procs| && !next.Holds()
    ensures Holdings(At(s, p, next)) == Rest(s, p)
  {
    HandsSplit(s, p, next);
    hide Rest, Holdings;
  }

  /** A process gives its task to a collection. */
  lemma HandGives(config: Config, s: State, p: nat, next: Process, k: Holding, t: State)
    requires Inv(config, s) && p < |s.procs| && s.procs[p].Holds() && !next.Holds()
    requires k.task.id == s.procs[p].task.id && t.books == s.books && Ok(config, s.books, k)
    requires Holdings(t) == Holdings(At(s, p, next)) + multiset{k} && Falls(config, InHandOf(s, p), k)
    ensures Kept(config, s, t)
  {
    hide Rest, Holdings, Ok, OneHolderEach, Falls, RankFalls, IsHeld, OnlyAbout, At;
    HeldIsOk(config, s, p);
    HandEmpties(s, p, next);
    assert Holdings(t) == Rest(s, p) + multiset{k};
    OnlyAboutItself(s.books, k.task.id);
    Move(config, s.books, s.books, Rest(s, p), InHandOf(s, p), k);
    MoveFalls(config, Rest(s, p), InHandOf(s, p), k);
  }

  /** A process takes a task from a collection; u is the state without it. */
  lemma HandTakes(config: Config, s: State, p: nat, h: Holding, u: State, proc: Process)
    requires Inv(config, s) && p < |s.procs| && !s.procs[p].Holds() && proc.Holds()
    requires u.procs == s.procs && u.books == s.books && Holdings(s) == Holdings(u) + multiset{h}
    requires proc.task == h.task && Ok(config, s.books, Holding(proc.task, InHand(p, proc)))
    requires Falls(config, h, Holding(proc.task, InHand(p, proc)))
    ensures Kept(config, s, At(u, p, proc))
  {
    hide Rest, Holdings, Ok, OneHolderEach, Falls, RankFalls, IsHeld, OnlyAbout, At;
    HandFills(u, p, proc);
    OnlyTheHandMoves(u, p, proc);
    OnlyAboutItself(s.books, h.task.id);
    Move(config, s.books, s.books, Holdings(u), h, Holding(proc.task, InHand(p, proc)));
    MoveFalls(config, Holdings(u), h, Holding(proc.task, InHand(p, proc)));
  }

  lemma EmptyHandMoves(config: Config, s: State, p: nat, proc: Process)
    requires Inv(config, s) && p < |s.procs| && !s.procs[p].Holds() && !proc.Holds()
    ensures Kept(config, s, At(s, p, proc))
  {
    HandsSplit(s, p, proc);
    NothingFalls(config, Holdings(s));
    hide Rest, Holdings, Ok, OneHolderEach, IsHeld, RankFalls;
  }

  // ---- What each step does to the facts about its task ----

  lemma OkIssued(config: Config, b: Books, p: nat, task: Envelope, delay: int, tracked: bool)
    requires task.attempts == 0 && task.id !in b.original && task.id !in b.rows
    ensures var c := Issued(config, b, task, delay, tracked);
            Ok(config, c, Holding(task, InHand(p, Enqueuing(task, delay)))) && OnlyAbout(b, c, task.id)
    ensures forall id | id in b.original ::
              id in Issued(config, b, task, delay, tracked).original &&
              Issued(config, b, task, delay, tracked).original[id] == b.original[id]
    ensures b.rows.Keys <= b.original.Keys ==>
              Issued(config, b, task, delay, tracked).rows.Keys <= Issued(config, b, task, delay, tracked).original.Keys
  {
    hide Limit;
  }

  lemma OkPushed(config: Config, b: Books, p: nat, proc: Process, delay: int)
    requires (proc.Enqueuing? && proc.delay == delay) || proc.Requeuing? || (proc.Carrying? && delay <= 0)
    requires Ok(config, b, Holding(proc.task, InHand(p, proc)))
    ensures Ok(config, b, Holding(proc.task, if delay > 0 then AtDelayed else AtMain))
  {
    hide Limit, StoredPayload, Redacted;
  }

  lemma OkTaken(config: Config, b: Books, task: Envelope, p: nat, pending: seq<Envelope>)
    requires Ok(config, b, Holding(task, AtDelayed)) || Ok(config, b, Holding(task, AtMain))
    ensures Ok(config, b, Holding(task, InHand(p, Carrying(task, pending))))
    ensures Ok(config, b, Holding(task, InHand(p, Popped(task))))
  {
    hide Limit, StoredPayload, Redacted;
  }

  predicate IsWorking(proc: Process) {
    proc.Popped? || proc.Started? || proc.Handling? || proc.Handled? || proc.Marked?
  }

  lemma OkFailing(config: Config, b: Books, p: nat, proc: Process, error: Failure)
    requires IsWorking(proc) && Ok(config, b, Holding(proc.task, InHand(p, proc)))
    ensures Ok(config, b, Holding(proc.task, InHand(p, Failing(proc.task, error))))
  {
    hide Limit, StoredPayload, Redacted;
  }

  lemma OkStarted(config: Config, b: Books, p: nat, task: Envelope)
    requires Ok(config, b, Holding(task, InHand(p, Popped(task))))
    ensures Ok(config, Mark(b, task.id, Running, task.attempts, None), Holding(task, InHand(p, Started(task))))
  {
    hide Limit, StoredPayload, Redacted;
  }

  function CountHandling(b: Books, id: Id): Books {
    if id in b.handled then b.(handled := b.handled[id := b.handled[id] + 1]) else b
  }

  lemma OkHandling(config: Config, b: Books, p: nat, task: Envelope)
    requires Ok(config, b, Holding(task, InHand(p, Started(task))))
    ensures Ok(config, CountHandling(b, task.id), Holding(task, InHand(p, Handling(task))))
    ensures OnlyAbout(b, CountHandling(b, task.id), task.id)
  {
    hide Limit, StoredPayload, Redacted;
  }

  lemma OkHandled(config: Config, b: Books, p: nat, task: Envelope)
    requires Ok(config, b, Holding(task, InHand(p, Handling(task))))
    ensures Ok(config, b, Holding(task, InHand(p, Handled(task))))
  {
    hide Limit, StoredPayload, Redacted;
  }

  function MarkSuccess(b: Books, id: Id): Books {
    b.(rows := if id in b.rows then b.rows[id := b.rows[id].(status := Succeeded)] else b.rows)
  }

  lemma OkSucceeded(config: Config, b: Books, p: nat, task: Envelope)
    requires Ok(config, b, Holding(task, InHand(p, Handled(task))))
    ensures Ok(config, MarkSuccess(b, task.id), Holding(task, InHand(p, Marked(task))))
    ensures OnlyAbout(b, MarkSuccess(b, task.id), task.id)
  {
    hide Limit, StoredPayload, Redacted;
  }

  lemma OkDone(config: Config, b: Books, p: nat, task: Envelope)
    requires Ok(config, b, Holding(task, InHand(p, Marked(task))))
    ensures Ok(config, b, Holding(task, AtDone))
  {
    hide Limit, StoredPayload, Redacted;
  }

  lemma OkRequeued(config: Config, b: Books, p: nat, task: Envelope, error: Failure)
    requires Ok(config, b, Holding(task, InHand(p, Failing(task, error))))
    ensures var failed := Failed(task, error);
            if Retries(config, task, error)
            then Ok(config, Mark(b, task.id, Retrying, failed.attempts, failed.lastError),
                    Holding(failed, InHand(p, Requeuing(failed))))
            else Ok(config, Mark(b, task.id, Dead, failed.attempts, failed.lastError),
                    Holding(failed, InHand(p, Burying(failed))))
  {
    assert Limit(config, Failed(task, error)) == Limit(config, task);
    hide Limit, StoredPayload, Redacted;
  }

  lemma OkBuried(config: Config, b: Books, p: nat, task: Envelope)
    requires Ok(config, b, Holding(task, InHand(p, Burying(task))))
    ensures Ok(config, b, Holding(Redacted(task), AtDead))
  {
    assert Redacted(task).payload == Redacted(b.original[task.id]).payload;
    assert Limit(config, Redacted(task)) == Limit(config, task);
    hide Limit, StoredPayload, Redacted;
  }

  lemma MarkIsOnlyAbout(b: Books, id: Id, status: Status, attempts: int, error: Option<string>)
    ensures OnlyAbout(b, Mark(b, id, status, attempts, error), id)
    ensures Mark(b, id, status, attempts, error).rows.Keys == b.rows.Keys
    ensures Mark(b, id, status, attempts, error).original == b.original
  {
  }

  // ---- Every step keeps the invariant ----

  lemma HandFills(s: State, p: nat, proc: Process)
    requires p < |s.procs| && !s.procs[p].Holds() && proc.Holds()
    ensures Holdings(At(s, p, proc)) == Holdings(s) + multiset{Holding(proc.task, InHand(p, proc))}
  {
    HandsSplit(s, p, proc);
    hide Rest, Holdings;
  }

  lemma EnqueueKeeps(config: Config, s: State, p: nat, task: Envelope, delay: int, tracked: bool)
    requires Inv(config, s) && p < |s.procs| && s.procs[p].Free?
    requires task.attempts == 0 && task.id !in s.books.original && task.id !in s.books.rows
    ensures Kept(config, s, At(s, p, Enqueuing(task, delay)).(books := Issued(config, s.books, task, delay, tracked)))
  {
    hide Holdings, Ok, OnlyAbout, Issued, Good, At, RankFalls;
    var c, proc := Issued(config, s.books, task, delay, tracked), Enqueuing(task, delay);
    HandFills(s, p, proc);
    BooksHoldNothing(At(s, p, proc), c);
    KnownRows(config, s);
    OkIssued(config, s.books, p, task, delay, tracked);
    Appear(config, s.books, c, Holdings(s), Holding(task, InHand(p, proc)));
    AppearFalls(config, s.books, Holdings(s), Holding(task, InHand(p, proc)));
  }

  lemma NotDelayedYet(config: Config, s: State, p: nat)
    requires Inv(config, s) && p < |s.procs| && s.procs[p].Holds()
    ensures Holding(s.procs[p].task, AtDelayed) !in Holdings(At(s, p, Free))
  {
    var h := Holding(s.procs[p].task, AtDelayed);
    HandsSplit(s, p, Free);
    HeldIsOk(config, s, p);
    hide Rest, Holdings, Ok, IsHeld, OneHolderEach;
    var k := InHandOf(s, p);
    assert k in Holdings(s);
    if h in Rest(s, p) {
      OneHolder(Holdings(s), h, k);
    }
  }

  lemma PushKeeps(config: Config, s: State, p: nat, delay: int, now: int)
    requires Inv(config, s) && p < |s.procs|
    requires (s.procs[p].Enqueuing? && s.procs[p].delay == delay) || s.procs[p].Requeuing?
    ensures Kept(config, s, PushTo(At(s, p, Free), s.procs[p].task, delay, now))
  {
    hide Inv, Kept, Holdings, Rest, Ok, ZAdd, At;
    var task, u := s.procs[p].task, At(s, p, Free);
    HeldIsOk(config, s, p);
    OkPushed(config, s.books, p, s.procs[p], delay);
    NotDelayedYet(config, s, p);
    PushAdds(u, task, delay, now);
    OnlyTheHandMoves(s, p, Free);
    HandGives(config, s, p, Free, Holding(task, if delay > 0 then AtDelayed else AtMain), PushTo(u, task, delay, now));
  }

  lemma OnlyTheHandMoves(s: State, p: nat, proc: Process)
    ensures At(s, p, proc) == s.(procs := At(s, p, proc).procs)
  {
  }

  lemma PushAdds(u: State, task: Envelope, delay: int, now: int)
    requires Holding(task, AtDelayed) !in Holdings(u)
    ensures Holdings(PushTo(u, task, delay, now)) ==
              Holdings(u) + multiset{Holding(task, if delay > 0 then AtDelayed else AtMain)}
  {
    hide Holdings, ZAdd;
    if delay > 0 {
      DelayedGrows(u, task, now + delay);
    } else {
      Grows(u, task);
    }
  }

  lemma InCollectionIsOk(config: Config, s: State, h: Holding)
    requires Inv(config, s) && h in Holdings(s)
    ensures Ok(config, s.books, h) && Holdings(s)[h] == 1
  {
    hide Ok, Holdings, IsHeld;
  }

  lemma StageFalls(config: Config, task: Envelope, from: Place, to: Place)
    requires Stage(to) < Stage(from)
    ensures Falls(config, Holding(task, from), Holding(task, to))
  {
    hide Cap, Stage;
  }

  lemma TakeDelayedKeeps(config: Config, s: State, p: nat, task: Envelope, rest: seq<Envelope>)
    requires Inv(config, s) && p < |s.procs| && s.procs[p].Promoting? && IsMember(s.delayed, task)
    ensures Kept(config, s, At(s, p, Carrying(task, rest)).(delayed := Without(s.delayed, task)))
  {
    var h := Holding(task, AtDelayed);
    TaggedMember(s.delayed, task);
    assert h in Holdings(s);
    StageFalls(config, task, AtDelayed, InHand(p, Carrying(task, rest)));
    hide Inv, Kept, Holdings, IsMember, Without, Ok, Falls, At;
    InCollectionIsOk(config, s, h);
    DelayedShrinks(s, task);
    OkTaken(config, s.books, task, p, rest);
    HandTakes(config, s, p, h, s.(delayed := Without(s.delayed, task)), Carrying(task, rest));
  }

  lemma PopKeeps(config: Config, s: State, p: nat)
    requires Inv(config, s) && p < |s.procs| && s.procs[p].Waiting? && s.main != []
    ensures Kept(config, s, At(s, p, Popped(s.main[0])).(main := s.main[1..]))
  {
    var h := Holding(s.main[0], AtMain);
    MainShrinks(s);
    StageFalls(config, s.main[0], AtMain, InHand(p, Popped(s.main[0])));
    hide Inv, Kept, Holdings, Ok, Falls, At;
    OnlyTheHandMoves(s.(main := s.main[1..]), p, Popped(s.main[0]));
    OnlyTheHandMoves(s, p, Popped(s.main[0]));
    InCollectionIsOk(config, s, h);
    OkTaken(config, s.books, s.main[0], p, []);
    HandTakes(config, s, p, h, s.(main := s.main[1..]), Popped(s.main[0]));
  }

  lemma CarryKeeps(config: Config, s: State, p: nat)
    requires Inv(config, s) && p < |s.procs| && s.procs[p].Carrying?
    ensures Kept(config, s, At(s, p, Promoting(s.procs[p].pending)).(main := s.main + [s.procs[p].task]))
  {
    hide Inv, Kept, Holdings, Ok, Rest, At, Cap;
    var task, next := s.procs[p].task, Promoting(s.procs[p].pending);
    HeldIsOk(config, s, p);
    OkPushed(config, s.books, p, s.procs[p], 0);
    OnlyTheHandMoves(s, p, next);
    Grows(At(s, p, next), task);
    HandGives(config, s, p, next, Holding(task, AtMain), At(s, p, next).(main := s.main + [task]));
  }

  /** A failure anywhere between popping and the last heartbeat reaches the except clause. */
  lemma FailKeeps(config: Config, s: State, p: nat, error: Failure)
    requires Inv(config, s) && p < |s.procs| && IsWorking(s.procs[p])
    ensures Kept(config, s, At(s, p, Failing(s.procs[p].task, error)))
  {
    hide Inv, Kept, Holdings, Ok, Rest, OnlyAbout;
    HeldIsOk(config, s, p);
    OkFailing(config, s.books, p, s.procs[p], error);
    OnlyAboutItself(s.books, s.procs[p].task.id);
    KnownRows(config, s);
    HandMoves(config, s, p, Failing(s.procs[p].task, error), s.books);
  }

  lemma StartKeeps(config: Config, s: State, p: nat)
    requires Inv(config, s) && p < |s.procs| && s.procs[p].Popped?
    ensures var task := s.procs[p].task;
            Kept(config, s, At(s, p, Started(task)).(books := Mark(s.books, task.id, Running, task.attempts, None)))
  {
    hide Inv, Kept, Holdings, Ok, Rest, OnlyAbout, Mark;
    var task := s.procs[p].task;
    HeldIsOk(config, s, p);
    KnownRows(config, s);
    OkStarted(config, s.books, p, task);
    MarkIsOnlyAbout(s.books, task.id, Running, task.attempts, None);
    HandMoves(config, s, p, Started(task), Mark(s.books, task.id, Running, task.attempts, None));
  }

  lemma CountingKeepsRows(b: Books, id: Id)
    ensures CountHandling(b, id).rows == b.rows && CountHandling(b, id).original == b.original
  {
  }

  lemma HandleKeeps(config: Config, s: State, p: nat)
    requires Inv(config, s) && p < |s.procs| && s.procs[p].Started?
    ensures Kept(config, s, At(s, p, Handling(s.procs[p].task)).(books := CountHandling(s.books, s.procs[p].task.id)))
  {
    hide Inv, Kept, Holdings, Ok, Rest, OnlyAbout, CountHandling, At;
    var task, b := s.procs[p].task, s.books;
    HeldIsOk(config, s, p);
    KnownRows(config, s);
    CountingKeepsRows(b, task.id);
    OkHandling(config, b, p, task);
    HandMoves(config, s, p, Handling(task), CountHandling(b, task.id));
  }

  lemma ReturnKeeps(config: Config, s: State, p: nat)
    requires Inv(config, s) && p < |s.procs| && s.procs[p].Handling?
    ensures Kept(config, s, At(s, p, Handled(s.procs[p].task)))
  {
    var task := s.procs[p].task;
    hide Inv, Kept, Holdings, Ok, Rest, OnlyAbout;
    HeldIsOk(config, s, p);
    KnownRows(config, s);
    OkHandled(config, s.books, p, task);
    OnlyAboutItself(s.books, task.id);
    HandMoves(config, s, p, Handled(task), s.books);
  }

  lemma SucceedKeeps(config: Config, s: State, p: nat)
    requires Inv(config, s) && p < |s.procs| && s.procs[p].Handled?
    ensures Kept(config, s, At(s, p, Marked(s.procs[p].task)).(books := MarkSuccess(s.books, s.procs[p].task.id)))
  {
    var task, b := s.procs[p].task, s.books;
    assert MarkSuccess(b, task.id).rows.Keys == b.rows.Keys && MarkSuccess(b, task.id).original == b.original;
    StageFalls(config, task, InHand(p, Handled(task)), InHand(p, Marked(task)));
    hide Inv, Kept, Holdings, Ok, Rest, OnlyAbout, MarkSuccess, At, Falls;
    HeldIsOk(config, s, p);
    KnownRows(config, s);
    OkSucceeded(config, b, p, task);
    HandMoves(config, s, p, Marked(task), MarkSuccess(b, task.id));
  }

  lemma LastFalls(config: Config, p: nat, task: Envelope)
    ensures Redacted(task).id == task.id
    ensures Falls(config, Holding(task, InHand(p, Burying(task))), Holding(Redacted(task), AtDead))
    ensures Falls(config, Holding(task, InHand(p, Marked(task))), Holding(task, AtDone))
  {
    hide Limit;
    assert Limit(config, Redacted(task)) == Limit(config, task) by { LimitOfRedacted(config, task); }
  }

  lemma LimitOfRedacted(config: Config, task: Envelope)
    ensures Limit(config, Redacted(task)) == Limit(config, task)
  {
  }

  lemma FinishKeeps(config: Config, s: State, p: nat)
    requires Inv(config, s) && p < |s.procs| && s.procs[p].Marked?
    ensures Kept(config, s, At(s, p, Free).(done := s.done + [s.procs[p].task]))
  {
    hide Inv, Kept, Holdings, Ok, Rest, At, Falls;
    var task := s.procs[p].task;
    HeldIsOk(config, s, p);
    OkDone(config, s.books, p, task);
    assert s.procs[p] == Marked(task);
    LastFalls(config, p, task);
    OnlyTheHandMoves(s, p, Free);
    Grows(At(s, p, Free), task);
    HandGives(config, s, p, Free, Holding(task, AtDone), At(s, p, Free).(done := s.done + [task]));
  }

  lemma RequeueKeeps(config: Config, s: State, p: nat)
    requires Inv(config, s) && p < |s.procs| && s.procs[p].Failing?
    ensures var failed := Failed(s.procs[p].task, s.procs[p].error);
            var retries := Retries(config, s.procs[p].task, s.procs[p].error);
            Kept(config, s, At(s, p, if retries then Requeuing(failed) else Burying(failed))
              .(books := Mark(s.books, failed.id, if retries then Retrying else Dead,
                              failed.attempts, failed.lastError)))
  {
    hide Inv, Kept, Holdings, Ok, Rest, OnlyAbout, Mark, Retries, Failed, At, Falls;
    var task, error := s.procs[p].task, s.procs[p].error;
    var failed, retries := Failed(task, error), Retries(config, task, error);
    var status, proc := if retries then Retrying else Dead, if retries then Requeuing(failed) else Burying(failed);
    FailedKeepsId(task, error);
    FailingFalls(config, p, task, error);
    HeldIsOk(config, s, p);
    KnownRows(config, s);
    OkRequeued(config, s.books, p, task, error);
    MarkIsOnlyAbout(s.books, task.id, status, failed.attempts, failed.lastError);
    HandMoves(config, s, p, proc, Mark(s.books, task.id, status, failed.attempts, failed.lastError));
  }

  lemma FailingFalls(config: Config, p: nat, task: Envelope, error: Failure)
    ensures var h, failed := Holding(task, InHand(p, Failing(task, error))), Failed(task, error);
            && Falls(config, h, Holding(failed, InHand(p, Requeuing(failed))))
            && Falls(config, h, Holding(failed, InHand(p, Burying(failed))))
  {
    assert Limit(config, Failed(task, error)) == Limit(config, task);
    hide Limit;
  }

  lemma BuryKeeps(config: Config, s: State, p: nat)
    requires Inv(config, s) && p < |s.procs| && s.procs[p].Burying?
    ensures Kept(config, s, At(s, p, Free).(dead := s.dead + [Redacted(s.procs[p].task)]))
  {
    hide Inv, Kept, Holdings, Ok, Rest, Redacted, At, Falls;
    var task := s.procs[p].task;
    HeldIsOk(config, s, p);
    OkBuried(config, s.books, p, task);
    assert s.procs[p] == Burying(task);
    LastFalls(config, p, task);
    OnlyTheHandMoves(s, p, Free);
    Grows(At(s, p, Free), Redacted(task));
    HandGives(config, s, p, Free, Holding(Redacted(task), AtDead), At(s, p, Free).(dead := s.dead + [Redacted(task)]));
  }

  lemma PromoteNextKeeps(config: Config, s: State, p: nat)
    requires Inv(config, s) && p < |s.procs| && s.procs[p].Promoting?
    ensures Kept(config, s, Next(config, s, PromoteNext(p)))
  {
    hide Kept, Inv, Holdings, At, Without, IsMember;
    var pending := s.procs[p].pending;
    if pending == [] {
      EmptyHandMoves(config, s, p, Waiting);
    } else if IsMember(s.delayed, pending[0]) {
      TakeDelayedKeeps(config, s, p, pending[0], pending[1..]);
    } else {
      EmptyHandMoves(config, s, p, Promoting(pending[1..]));
    }
  }

  lemma PopOrWaitKeeps(config: Config, s: State, p: nat)
    requires Inv(config, s) && p < |s.procs| && s.procs[p].Waiting?
    ensures Kept(config, s, Next(config, s, Pop(p)))
  {
    hide Kept, Inv, Holdings, At;
    if s.main == [] {
      EmptyHandMoves(config, s, p, Free);
    } else {
      PopKeeps(config, s, p);
    }
  }

  lemma GiveKeeps(config: Config, s: State, p: nat, now: int)
    requires Inv(config, s) && p < |s.procs| && (s.procs[p].Requeuing? || s.procs[p].Burying?)
    ensures Kept(config, s, Next(config, s, Give(p, now)))
  {
    hide Kept, Inv, Holdings, At, PushTo, Redacted;
    if s.procs[p].Requeuing? {
      PushKeeps(config, s, p, config.retryDelay, now);
    } else {
      BuryKeeps(config, s, p);
    }
  }

  lemma NothingKeeps(config: Config, s: State)
    requires Inv(config, s)
    ensures Kept(config, s, s)
  {
    NothingFalls(config, Holdings(s));
  }

  /** Every operation of every process keeps the invariant, and no task moves backwards. */
  lemma StepKeeps(config: Config, s: State, a: Action)
    requires Inv(config, s)
    ensures Kept(config, s, Next(config, s, a))
  {
    hide Kept, Inv, Holdings, Mark, Failed, Retries, PushTo, Issued, At, Without, IsMember, Due, Redacted;
    if Next(config, s, a) == s {
      NothingKeeps(config, s);
    } else {
      match a
      case Enqueue(p, id, kind, payload, delay, tracked) =>
        EnqueueKeeps(config, s, p, CreateEnvelope(config, id, kind, payload), delay, tracked);
      case Push(p, now) => PushKeeps(config, s, p, s.procs[p].delay, now);
      case BeginPromote(p, now) => EmptyHandMoves(config, s, p, Promoting(Due(s.delayed, now, PROMOTE_LIMIT)));
      case PromoteNext(p) => PromoteNextKeeps(config, s, p);
      case PromotePush(p) => CarryKeeps(config, s, p);
      case Pop(p) => PopOrWaitKeeps(config, s, p);
      case Requeue(p) =>
        FailedKeepsId(s.procs[p].task, s.procs[p].error);
        RequeueKeeps(config, s, p);
      case Give(p, now) => GiveKeeps(config, s, p, now);
      case _ => WorkKeeps(config, s, a);
    }
  }

  lemma FailedKeepsId(task: Envelope, error: Failure)
    ensures Failed(task, error).id == task.id
  {
  }

  lemma WorkKeeps(config: Config, s: State, a: Action)
    requires Inv(config, s) && Next(config, s, a) != s
    requires a.MarkRunning? || a.Heartbeat? || a.Handle? || a.MarkSucceeded? || a.LastHeartbeat?
    ensures Kept(config, s, Next(config, s, a))
  {
    hide Inv, Kept, Holdings, Ok, Mark, At;
    var p := a.p;
    if a.failure.Some? {
      FailKeeps(config, s, p, a.failure.value);
    } else {
      match a
      case MarkRunning(_, _) => StartKeeps(config, s, p);
      case LastHeartbeat(_, _) => FinishKeeps(config, s, p);
      case Heartbeat(_, _) => HandleKeeps(config, s, p);
      case Handle(_, _) => ReturnKeeps(config, s, p);
      case _ => SucceedKeeps(config, s, p);
    }
  }

  lemma {:induction false} NobodyHoldsAtStart(workers: nat)
    ensures InHands(seq(workers, _ => Free)) == multiset{}
  {
    if workers > 0 {
      var n := workers - 1;
      var procs: seq<Process> := seq(workers, _ => Free);
      assert procs[..n] == seq(n, _ => Free);
      NobodyHoldsAtStart(n);
    }
  }

  /** The invariant holds after any interleaving. */
  lemma {:induction false} RunKeeps(config: Config, workers: nat, actions: seq<Action>)
    ensures Inv(config, Run(config, workers, actions))
    decreases |actions|
  {
    if actions == [] {
      NobodyHoldsAtStart(workers);
      assert Holdings(Start(workers)) == multiset{};
    } else {
      hide Inv, Kept, Next;
      RunKeeps(config, workers, actions[..|actions| - 1]);
      StepKeeps(config, Run(config, workers, actions[..|actions| - 1]), actions[|actions| - 1]);
    }
  }
}

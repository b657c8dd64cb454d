/**
  What the interleaved queue guarantees to a caller who enqueues a task, for
  every number of processes and every sequence of operations.
 */
module TaskResults {
  import opened Options
  import opened TaskQueue
  import opened TaskMachine
  import opened TaskSafety

  /** Every issued task is in exactly one place, exactly once; nothing else is anywhere. */
  lemma EveryTaskHasOneHolder(config: Config, workers: nat, actions: seq<Action>)
    ensures var s := Run(config, workers, actions);
            && (forall h | h in Holdings(s) :: h.task.id in s.books.original && Holdings(s)[h] == 1)
            && (forall h, k | h in Holdings(s) && k in Holdings(s) && h.task.id == k.task.id :: h == k)
            && (forall id | id in s.books.original :: exists h :: h in Holdings(s) && h.task.id == id)
  {
    RunKeeps(config, workers, actions);
    var s := Run(config, workers, actions);
    KnownHolders(config, s.books, Holdings(s));
    hide Ok, Holdings, Run;
    forall id | id in s.books.original
      ensures exists h :: h in Holdings(s) && h.task.id == id
    {
      assert IsHeld(Holdings(s), id);
    }
  }

  lemma {:induction false} TaggedHolds(tasks: seq<Envelope>, place: Place, h: Holding)
    ensures h in Tagged(tasks, place) <==> h.place == place && h.task in tasks
  {
    if tasks != [] {
      TaggedHolds(tasks[1..], place, h);
      assert tasks == [tasks[0]] + tasks[1..];
    }
  }

  lemma {:induction false} EntriesHold(z: seq<Entry>, h: Holding)
    ensures h in TaggedEntries(z) ==> h.place.AtDelayed?
  {
    if z != [] {
      EntriesHold(z[1..], h);
    }
  }

  lemma {:induction false} HandsHold(procs: seq<Process>, h: Holding)
    ensures h in InHands(procs) <==>
              h.place.InHand? && h.place.p < |procs| && procs[h.place.p] == h.place.proc && h.place.proc.Holds()
                  && h.place.proc.task == h.task
    decreases |procs|
  {
    if procs != [] {
      HandsHold(procs[..|procs| - 1], h);
    }
  }

  /** Where a holding says it is, the task is. */
  lemma HoldingIsInItsPlace(s: State, h: Holding)
    ensures h in Holdings(s) <==>
              match h.place
              case AtMain => h.task in s.main
              case AtDelayed => IsMember(s.delayed, h.task)
              case AtDead => h.task in s.dead
              case AtDone => h.task in s.done
              case InHand(p, proc) => p < |s.procs| && s.procs[p] == proc && proc.Holds() && proc.task == h.task
  {
    TaggedHolds(s.main, AtMain, h);
    TaggedHolds(s.dead, AtDead, h);
    TaggedHolds(s.done, AtDone, h);
    EntriesHold(s.delayed, h);
    TaggedMember(s.delayed, h.task);
    HandsHold(s.procs, h);
    hide Tagged, TaggedEntries, InHands, IsMember;
  }

  lemma RunIsOk(config: Config, workers: nat, actions: seq<Action>, h: Holding)
    requires h in Holdings(Run(config, workers, actions))
    ensures Ok(config, Run(config, workers, actions).books, h)
  {
    RunKeeps(config, workers, actions);
    hide Ok, Holdings, Run;
  }

  lemma {:induction false} OriginalsAreConfigured(config: Config, workers: nat, actions: seq<Action>, id: Id)
    requires id in Run(config, workers, actions).books.original
    ensures var allowed := if config.runtimeMax != 0 then config.runtimeMax else config.settingsMax;
            Run(config, workers, actions).books.original[id].maxAttempts == allowed
    decreases |actions|
  {
    if actions != [] {
      var before := actions[..|actions| - 1];
      OnlyEnqueueIssues(config, Run(config, workers, before), actions[|actions| - 1], id);
      hide Run, Next;
      if id in Run(config, workers, before).books.original {
        OriginalsAreConfigured(config, workers, before, id);
      }
    }
  }

  lemma OnlyEnqueueIssues(config: Config, s: State, a: Action, id: Id)
    requires id in Next(config, s, a).books.original
    ensures var allowed := if config.runtimeMax != 0 then config.runtimeMax else config.settingsMax;
            var original := Next(config, s, a).books.original;
            if id in s.books.original then original[id] == s.books.original[id] else original[id].maxAttempts == allowed
  {
    hide ZAdd, Redacted, Retries, WithMark, Failed, IsMember, Without, Due, StoredPayload;
  }

  /** Every task, wherever it is, has the configured limit. */
  lemma LimitIsConfigured(config: Config, workers: nat, actions: seq<Action>, h: Holding)
    requires h in Holdings(Run(config, workers, actions))
    ensures var allowed := if config.runtimeMax != 0 then config.runtimeMax else config.settingsMax;
            h.task.maxAttempts == allowed && Limit(config, h.task) == allowed
  {
    RunIsOk(config, workers, actions, h);
    hide Run, Holdings, StatusFits, CountFits;
    OriginalsAreConfigured(config, workers, actions, h.task.id);
  }

  /**
    However the processes interleave, a task is handled at most as often as
    configured, and at most once where that is no positive number: the runtime
    setting counts, or the static one where that is zero.
   */
  lemma HandledAtMostItsLimit(config: Config, workers: nat, actions: seq<Action>, id: Id)
    requires id in Run(config, workers, actions).books.original
    ensures var allowed := if config.runtimeMax != 0 then config.runtimeMax else config.settingsMax;
            var b := Run(config, workers, actions).books;
            id in b.handled && b.handled[id] <= if allowed < 1 then 1 else allowed
  {
    var s := Run(config, workers, actions);
    EveryTaskHasOneHolder(config, workers, actions);
    hide Run, Holdings;
    var h :| h in Holdings(s) && h.task.id == id;
    RunIsOk(config, workers, actions, h);
    LimitIsConfigured(config, workers, actions, h);
  }

  /** The holder, if it is a worker, is not between two operations but waits on the handler itself. */
  predicate IsSettled(place: Place) {
    place.InHand? ==> place.proc.Started? || place.proc.Handling?
  }

  lemma RecordOfHolder(config: Config, b: Books, h: Holding)
    requires Ok(config, b, h) && h.task.id in b.rows
    requires IsSettled(h.place)
    ensures var row := b.rows[h.task.id];
            && (row.status == Dead <==> h.place.AtDead?)
            && (row.status == Succeeded <==> h.place.AtDone?)
            && (row.status == Running <==> h.place.InHand?)
            && (row.status == Queued ==> h.place.AtMain?)
            && row.attempts == h.task.attempts && row.maxAttempts == h.task.maxAttempts
  {
    hide Limit, StoredPayload, Redacted, CountFits;
  }

  /** While its holder is settled, the database record of a task says where the task is and how often it failed. */
  lemma RecordsAgreeWithPlaces(config: Config, workers: nat, actions: seq<Action>, h: Holding)
    requires var s := Run(config, workers, actions);
             IsSettled(h.place) && h in Holdings(s) && h.task.id in s.books.rows
    ensures var row := Run(config, workers, actions).books.rows[h.task.id];
            && (row.status == Dead <==> h.place.AtDead?)
            && (row.status == Succeeded <==> h.place.AtDone?)
            && (row.status == Running <==> h.place.InHand?)
            && (row.status == Queued ==> h.place.AtMain?)
            && row.attempts == h.task.attempts && row.maxAttempts == h.task.maxAttempts
  {
    hide Run, Holdings, Ok;
    RunIsOk(config, workers, actions, h);
    RecordOfHolder(config, Run(config, workers, actions).books, h);
  }

  /** Every retry carries the payload as issued; the dead list and the records never show the token. */
  lemma PayloadsAreKept(config: Config, workers: nat, actions: seq<Action>, h: Holding)
    requires h in Holdings(Run(config, workers, actions))
    ensures var s := Run(config, workers, actions);
            && h.task.id in s.books.original
            && (h.place.AtDead? ==> TOKEN !in h.task.payload)
            && (h.place.AtDead? ==> h.task.payload == Redacted(s.books.original[h.task.id]).payload)
            && (!h.place.AtDead? ==> h.task.payload == s.books.original[h.task.id].payload)
            && (h.task.id in s.books.rows ==> TOKEN !in s.books.rows[h.task.id].payload)
  {
    var s := Run(config, workers, actions);
    RunIsOk(config, workers, actions, h);
    RedactionRemovesOnlyTheToken(s.books.original[h.task.id]);
    hide Run, Holdings, Redacted, StoredPayload;
  }

  // ---- No task circulates for ever ----

  ghost predicate ChangedHolder(s: State, t: State, id: Id) {
    exists h :: h in Holdings(t) && h.task.id == id && h !in Holdings(s)
  }

  /** How often the task changed its holder in a run; being issued is the first time. */
  ghost function Moves(config: Config, workers: nat, actions: seq<Action>, id: Id): nat {
    if actions == [] then 0
    else
      var before := actions[..|actions| - 1];
      Moves(config, workers, before, id)
      + if ChangedHolder(Run(config, workers, before), Run(config, workers, actions), id) then 1 else 0
  }

  lemma RanksAreBounded(config: Config, s: State, h: Holding)
    requires Inv(config, s) && h in Holdings(s)
    ensures 0 <= Rank(config, h) <= 10 * Cap(config, h.task) + 9
    ensures Rank(config, h) >= 8
  {
    assert Ok(config, s.books, h);
    hide Holdings, Limit;
  }

  lemma LastStepKeeps(config: Config, workers: nat, actions: seq<Action>)
    requires actions != []
    ensures Inv(config, Run(config, workers, actions[..|actions| - 1]))
    ensures Inv(config, Run(config, workers, actions))
    ensures Kept(config, Run(config, workers, actions[..|actions| - 1]), Run(config, workers, actions))
  {
    RunKeeps(config, workers, actions[..|actions| - 1]);
    RunKeeps(config, workers, actions);
    hide Inv, Kept, Next;
    StepKeeps(config, Run(config, workers, actions[..|actions| - 1]), actions[|actions| - 1]);
  }

  lemma NoMovesBeforeIssue(config: Config, workers: nat, actions: seq<Action>, id: Id)
    requires id !in Run(config, workers, actions).books.original
    ensures Moves(config, workers, actions, id) == 0
  {
    if actions != [] {
      var before := actions[..|actions| - 1];
      LastStepKeeps(config, workers, actions);
      EveryTaskHasOneHolder(config, workers, actions);
      hide Run, Inv, Holdings, RankFalls;
      NoMovesBeforeIssue(config, workers, before, id);
      assert !ChangedHolder(Run(config, workers, before), Run(config, workers, actions), id);
    }
  }

  lemma FirstMove(config: Config, workers: nat, actions: seq<Action>, h: Holding)
    requires h in Holdings(Run(config, workers, actions))
    requires actions != [] && h.task.id !in Run(config, workers, actions[..|actions| - 1]).books.original
    ensures Moves(config, workers, actions, h.task.id) + Rank(config, h) <= 10 * Cap(config, h.task) + 10
  {
    LastStepKeeps(config, workers, actions);
    RanksAreBounded(config, Run(config, workers, actions), h);
    hide Run, Inv, Kept, Holdings, Rank, Cap;
    NoMovesBeforeIssue(config, workers, actions[..|actions| - 1], h.task.id);
  }

  /** Moves made and rank left never add up to more than the rank at the start. */
  lemma {:induction false} MovesUseUpRank(config: Config, workers: nat, actions: seq<Action>, h: Holding)
    requires h in Holdings(Run(config, workers, actions))
    ensures Moves(config, workers, actions, h.task.id) + Rank(config, h) <= 10 * Cap(config, h.task) + 10
    decreases |actions|
  {
    if actions == [] {
      RunKeeps(config, workers, actions);
      RanksAreBounded(config, Run(config, workers, actions), h);
    } else {
      var before := actions[..|actions| - 1];
      if h.task.id !in Run(config, workers, before).books.original {
        FirstMove(config, workers, actions, h);
      } else {
        LaterMove(config, workers, actions, h);
      }
    }
  }

  lemma SameCap(config: Config, x: Holding, y: Holding)
    requires x == y || Falls(config, x, y)
    ensures Cap(config, x.task) == Cap(config, y.task) && (x == y || Rank(config, y) < Rank(config, x))
  {
  }

  lemma {:induction false} LaterMove(config: Config, workers: nat, actions: seq<Action>, h: Holding)
    requires h in Holdings(Run(config, workers, actions))
    requires actions != [] && h.task.id in Run(config, workers, actions[..|actions| - 1]).books.original
    ensures Moves(config, workers, actions, h.task.id) + Rank(config, h) <= 10 * Cap(config, h.task) + 10
    decreases |actions|, 0
  {
    var before := actions[..|actions| - 1];
    var s, t := Run(config, workers, before), Run(config, workers, actions);
    LastStepKeeps(config, workers, actions);
    EveryTaskHasOneHolder(config, workers, before);
    EveryTaskHasOneHolder(config, workers, actions);
    hide Run, Inv, Holdings, Rank;
    var x :| x in Holdings(s) && x.task.id == h.task.id;
    MovesUseUpRank(config, workers, before, x);
    SameCap(config, x, h);
    if h in Holdings(s) {
      assert x == h;
      assert !ChangedHolder(s, t, h.task.id);
    }
  }

  /**
    Whatever the interleaving, a task changes its holder at most ten times per
    allowed attempt and twice more, so it cannot be retried, moved or picked up
    for ever. That it gets to an end is EveryTaskEnds in TaskEnds.
   */
  lemma MovesAreBounded(config: Config, workers: nat, actions: seq<Action>, id: Id)
    requires id in Run(config, workers, actions).books.original
    ensures var allowed := if config.runtimeMax != 0 then config.runtimeMax else config.settingsMax;
            Moves(config, workers, actions, id) <= 10 * (if allowed < 1 then 1 else allowed) + 2
  {
    var s := Run(config, workers, actions);
    EveryTaskHasOneHolder(config, workers, actions);
    RunKeeps(config, workers, actions);
    hide Run, Inv, Holdings, Rank;
    var h :| h in Holdings(s) && h.task.id == id;
    MovesUseUpRank(config, workers, actions, h);
    RanksAreBounded(config, s, h);
    LimitIsConfigured(config, workers, actions, h);
  }

  /** The operation a process holding a task does next; the failure is for the operations that can have one. */
  function NextOperation(p: nat, proc: Process, now: int, failure: Option<Failure>): Action
    requires proc.Holds()
  {
    match proc
    case Enqueuing(_, _) => Push(p, now)
    case Carrying(_, _) => PromotePush(p)
    case Popped(_) => MarkRunning(p, failure)
    case Started(_) => Heartbeat(p, failure)
    case Handling(_) => Handle(p, failure)
    case Handled(_) => MarkSucceeded(p, failure)
    case Marked(_) => LastHeartbeat(p, failure)
    case Failing(_, _) => Requeue(p)
    case _ => Give(p, now)
  }

  lemma HandMovesOn(config: Config, s: State, p: nat, now: int, failure: Option<Failure>)
    requires p < |s.procs| && s.procs[p].Holds() && s.procs[p].task.id in s.books.handled
    ensures var t := Next(config, s, NextOperation(p, s.procs[p], now, failure));
            p < |t.procs| && t.procs[p] != s.procs[p]
  {
    hide ZAdd, Redacted, Retries, Mark, Failed, IsMember, Due, Issued;
  }

  lemma HandLetsGo(config: Config, s: State, p: nat, now: int, failure: Option<Failure>)
    requires Inv(config, s) && p < |s.procs| && s.procs[p].Holds()
    ensures InHandOf(s, p) in Holdings(s)
    ensures InHandOf(s, p) !in Holdings(Next(config, s, NextOperation(p, s.procs[p], now, failure)))
  {
    hide Holdings, Next, NextOperation, Limit, Redacted, StoredPayload;
    HoldingIsInItsPlace(s, InHandOf(s, p));
    HeldIsOk(config, s, p);
    HandMovesOn(config, s, p, now, failure);
    HoldingIsInItsPlace(Next(config, s, NextOperation(p, s.procs[p], now, failure)), InHandOf(s, p));
  }

  /** A process never gets stuck with a task in hand: its next operation moves the task on, failing or not. */
  lemma HandsAreNeverStuck(config: Config, workers: nat, actions: seq<Action>, p: nat, now: int,
                           failure: Option<Failure>)
    requires var s := Run(config, workers, actions); p < |s.procs| && s.procs[p].Holds()
    ensures var s := Run(config, workers, actions);
            var t := Next(config, s, NextOperation(p, s.procs[p], now, failure));
            InHandOf(s, p) in Holdings(s) && InHandOf(s, p) !in Holdings(t)
  {
    RunKeeps(config, workers, actions);
    hide Run, Holdings, Next, NextOperation, Inv;
    HandLetsGo(config, Run(config, workers, actions), p, now, failure);
  }

  /** The three operations that take a finished task back. */
  function TakeBack(config: Config, s: State, p: nat, error: Failure, now: int): State {
    Next(config, Next(config, Next(config, s, LastHeartbeat(p, Some(error))), Requeue(p)), Give(p, now))
  }

  lemma TakenBack(config: Config, s: State, p: nat, error: Failure, now: int)
    requires p < |s.procs| && s.procs[p].Marked? && Retries(config, s.procs[p].task, error)
    ensures var task, failed := s.procs[p].task, Failed(s.procs[p].task, error);
            TakeBack(config, s, p, error, now) ==
              PushTo(At(s, p, Free).(books := Mark(s.books, task.id, Retrying, failed.attempts, failed.lastError)),
                     failed, config.retryDelay, now)
  {
    hide Retries, Failed, Mark, ZAdd;
    var task, failed := s.procs[p].task, Failed(s.procs[p].task, error);
    var s1 := Next(config, s, LastHeartbeat(p, Some(error)));
    assert s1 == At(s, p, Failing(task, error));
    var s2 := Next(config, s1, Requeue(p));
    assert s2 == At(s, p, Requeuing(failed))
             .(books := Mark(s.books, task.id, Retrying, failed.attempts, failed.lastError));
    assert At(s2, p, Free).procs == At(s, p, Free).procs;
  }

  lemma NotDone(config: Config, workers: nat, actions: seq<Action>, h: Holding, d: Envelope)
    requires var s := Run(config, workers, actions); h in Holdings(s) && !h.place.AtDone? && d in s.done
    ensures d.id != h.task.id
  {
    EveryTaskHasOneHolder(config, workers, actions);
    HoldingIsInItsPlace(Run(config, workers, actions), Holding(d, AtDone));
    hide Run, Holdings;
  }

  lemma PushedIsThere(s: State, task: Envelope, delay: int, now: int)
    ensures var place := if delay > 0 then AtDelayed else AtMain;
            Holding(task, place) in Holdings(PushTo(s, task, delay, now))
  {
    var t := PushTo(s, task, delay, now);
    if delay > 0 {
      hide Holdings;
      InsertHolds(Without(s.delayed, task), Entry(now + delay, task));
      HoldingIsInItsPlace(t, Holding(task, AtDelayed));
      TaggedMember(t.delayed, task);
    } else {
      hide Holdings;
      HoldingIsInItsPlace(t, Holding(task, AtMain));
    }
  }

  lemma InsertHolds(z: seq<Entry>, e: Entry)
    ensures Holding(e.task, AtDelayed) in TaggedEntries(Insert(z, e))
  {
    TaggedInsert(z, e);
  }

  /**
    Success is not final: when the heartbeat after it fails, a task with attempts
    left goes back to the queue although its handler finished, and its record
    says retrying again.
   */
  lemma SuccessCanBeUndone(config: Config, workers: nat, actions: seq<Action>, p: nat, error: Failure, now: int)
    requires var s := Run(config, workers, actions);
             p < |s.procs| && s.procs[p].Marked? && Retries(config, s.procs[p].task, error)
    ensures var s := Run(config, workers, actions);
            var task := s.procs[p].task;
            var t := Run(config, workers, actions + [LastHeartbeat(p, Some(error)), Requeue(p), Give(p, now)]);
            var place := if config.retryDelay > 0 then AtDelayed else AtMain;
            && (task.id in s.books.rows ==> s.books.rows[task.id].status == Succeeded)
            && (task.id in s.books.rows ==> task.id in t.books.rows && t.books.rows[task.id].status == Retrying)
            && Holding(Failed(task, error), place) in Holdings(t)
            && forall d | d in t.done :: d.id != task.id
  {
    hide Holdings, Run, Next, Retries, Failed, ZAdd;
    var s := Run(config, workers, actions);
    var h, failed := InHandOf(s, p), Failed(s.procs[p].task, error);
    RunThree(config, workers, actions, LastHeartbeat(p, Some(error)), Requeue(p), Give(p, now));
    TakenBack(config, s, p, error, now);
    HoldingIsInItsPlace(s, h);
    assert StatusOf(s.books, h.task.id, Succeeded) by { MarkedSucceeded(config, workers, actions, h); }
    PushedIsThere(At(s, p, Free).(books := Mark(s.books, h.task.id, Retrying, failed.attempts, failed.lastError)),
                  failed, config.retryDelay, now);
    forall d | d in s.done
      ensures d.id != h.task.id
    {
      NotDone(config, workers, actions, h, d);
    }
  }

  predicate StatusOf(b: Books, id: Id, status: Status) {
    id in b.rows ==> b.rows[id].status == status
  }

  lemma MarkedSucceeded(config: Config, workers: nat, actions: seq<Action>, h: Holding)
    requires h in Holdings(Run(config, workers, actions)) && h.place.InHand? && h.place.proc.Marked?
    ensures StatusOf(Run(config, workers, actions).books, h.task.id, Succeeded)
  {
    hide Run, Holdings, Limit, StoredPayload, Redacted;
    RunIsOk(config, workers, actions, h);
  }

  lemma RunMore(config: Config, workers: nat, actions: seq<Action>, a: Action)
    ensures Run(config, workers, actions + [a]) == Next(config, Run(config, workers, actions), a)
  {
    hide Next;
    assert (actions + [a])[..|actions|] == actions;
  }

  lemma RunThree(config: Config, workers: nat, actions: seq<Action>, a: Action, b: Action, c: Action)
    ensures Run(config, workers, actions + [a, b, c]) ==
              Next(config, Next(config, Next(config, Run(config, workers, actions), a), b), c)
  {
    hide Next, Run;
    RunMore(config, workers, actions, a);
    RunMore(config, workers, actions + [a], b);
    RunMore(config, workers, actions + [a] + [b], c);
    assert actions + [a] + [b] + [c] == actions + [a, b, c];
  }
}

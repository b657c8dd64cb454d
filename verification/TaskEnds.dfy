/**
  Every task ends: from any reachable state, a scheduler that looks at the state
  alone brings every issued task to the done or the dead tasks, whatever failures
  its operations meet.
 */
module TaskEnds {
  import opened Options
  import opened TaskQueue
  import opened TaskMachine
  import opened TaskSafety
  import opened TaskResults
  import opened TaskTurn

  // ---- The scheduler ----

  function First(procs: seq<Process>, wanted: Process -> bool): (i: nat)
    ensures i <= |procs| && (i < |procs| ==> wanted(procs[i])) && forall j | 0 <= j < i :: !wanted(procs[j])
  {
    if procs == [] || wanted(procs[0]) then 0 else 1 + First(procs[1..], wanted)
  }

  /** Who goes next: a process with a task, else one that promotes, else one that waits, else any. */
  function Pick(s: State): (p: nat)
    ensures |s.procs| > 0 ==> p < |s.procs|
  {
    var holding := First(s.procs, (proc: Process) => proc.Holds());
    var promoting := First(s.procs, (proc: Process) => proc.Promoting?);
    var waiting := First(s.procs, (proc: Process) => proc.Waiting?);
    if holding < |s.procs| then holding
    else if promoting < |s.procs| then promoting
    else if waiting < |s.procs| then waiting
    else 0
  }

  /** What a process does next; a free one turns to the queue. */
  function Operation(p: nat, proc: Process, now: int, failure: Option<Failure>): Action {
    match proc
    case Free => BeginPromote(p, now)
    case Promoting(_) => PromoteNext(p)
    case Waiting => Pop(p)
    case _ => NextOperation(p, proc, now, failure)
  }

  function Latest(z: seq<Entry>, clock: int): (time: int)
    ensures time >= clock && forall e | e in z :: e.score <= time
  {
    if z == [] then clock else Latest(z[1..], if z[0].score > clock then z[0].score else clock)
  }

  /** The next operation, at a time when all that is delayed is due. */
  function NextMove(s: State, clock: int, failure: Option<Failure>): Action
    requires |s.procs| > 0
  {
    Operation(Pick(s), s.procs[Pick(s)], Latest(s.delayed, clock), failure)
  }

  lemma CountStays(config: Config, s: State, a: Action)
    ensures |Next(config, s, a).procs| == |s.procs|
    ensures !a.Enqueue? ==> Next(config, s, a).books.original == s.books.original
  {
    hide ZAdd, Redacted, Retries, WithMark, Failed, IsMember, Due, Without, CreateEnvelope;
  }

  /** n operations; the failure the k-th one meets, if it can fail, is failures(from + k). */
  function Scheduled(config: Config, s: State, clock: int, failures: nat -> Option<Failure>, from: nat,
                     n: nat): seq<Action>
    requires |s.procs| > 0
    decreases n
  {
    if n == 0 then []
    else
      var a := NextMove(s, clock, failures(from));
      CountStays(config, s, a);
      [a] + Scheduled(config, Next(config, s, a), Latest(s.delayed, clock), failures, from + 1, n - 1)
  }

  /** The operations that report to the database, beat or run the handler. */
  predicate CanFail(a: Action) {
    a.MarkRunning? || a.Heartbeat? || a.Handle? || a.MarkSucceeded? || a.LastHeartbeat?
  }

  /** Nothing new is enqueued, failures are as given, and time does not run backwards. */
  predicate Obeys(actions: seq<Action>, clock: int, failures: nat -> Option<Failure>, from: nat)
    decreases |actions|
  {
    actions == [] ||
    (var a := actions[0];
     && !a.Enqueue?
     && (CanFail(a) ==> a.failure == failures(from))
     && (a.Push? || a.BeginPromote? || a.Give? ==> a.now >= clock)
     && Obeys(actions[1..], if a.Push? || a.BeginPromote? || a.Give? then a.now else clock, failures, from + 1))
  }

  lemma {:induction false} ObeysEarlier(actions: seq<Action>, clock: int, earlier: int,
                                        failures: nat -> Option<Failure>, from: nat)
    requires Obeys(actions, clock, failures, from) && earlier <= clock
    ensures Obeys(actions, earlier, failures, from)
    decreases |actions|
  {
    if actions != [] && !(actions[0].Push? || actions[0].BeginPromote? || actions[0].Give?) {
      ObeysEarlier(actions[1..], clock, earlier, failures, from + 1);
    }
  }

  lemma MoveObeys(s: State, clock: int, failures: nat -> Option<Failure>, from: nat, rest: seq<Action>)
    requires |s.procs| > 0 && Obeys(rest, Latest(s.delayed, clock), failures, from + 1)
    ensures Obeys([NextMove(s, clock, failures(from))] + rest, clock, failures, from)
  {
    hide Pick, Latest;
    var a := NextMove(s, clock, failures(from));
    assert ([a] + rest)[1..] == rest;
    ObeysEarlier(rest, Latest(s.delayed, clock), clock, failures, from + 1);
  }

  lemma ScheduledUnfolds(config: Config, s: State, clock: int, failures: nat -> Option<Failure>, from: nat, n: nat)
    requires |s.procs| > 0 && n > 0
    ensures var a := NextMove(s, clock, failures(from));
            && |Next(config, s, a).procs| > 0
            && Scheduled(config, s, clock, failures, from, n) ==
                 [a] + Scheduled(config, Next(config, s, a), Latest(s.delayed, clock), failures, from + 1, n - 1)
  {
    hide Next, NextMove, Latest;
    CountStays(config, s, NextMove(s, clock, failures(from)));
  }

  lemma NothingObeys(config: Config, s: State, clock: int, failures: nat -> Option<Failure>, from: nat)
    requires |s.procs| > 0
    ensures Obeys(Scheduled(config, s, clock, failures, from, 0), clock, failures, from)
  {
    hide Next;
    assert Scheduled(config, s, clock, failures, from, 0) == [];
  }

  lemma {:induction false} ScheduledObeys(config: Config, s: State, clock: int, failures: nat -> Option<Failure>,
                                          from: nat, n: nat)
    requires |s.procs| > 0
    ensures Obeys(Scheduled(config, s, clock, failures, from, n), clock, failures, from)
    decreases n
  {
    hide *;
    if n == 0 {
      NothingObeys(config, s, clock, failures, from);
    } else {
      ScheduledUnfolds(config, s, clock, failures, from, n);
      var a, later := NextMove(s, clock, failures(from)), Latest(s.delayed, clock);
      ScheduledObeys(config, Next(config, s, a), later, failures, from + 1, n - 1);
      MoveObeys(s, clock, failures, from, Scheduled(config, Next(config, s, a), later, failures, from + 1, n - 1));
    }
  }

  // ---- What is left to do ----

  ghost function HolderOf(held: multiset<Holding>, id: Id): (h: Holding)
    requires IsHeld(held, id)
    ensures h in held && h.task.id == id
  {
    var h :| h in held && h.task.id == id;
    h
  }

  ghost function RankOf(config: Config, held: multiset<Holding>, id: Id): int {
    if IsHeld(held, id) then Rank(config, HolderOf(held, id)) else 0
  }

  ghost function Total(config: Config, held: multiset<Holding>, ids: seq<Id>): int {
    if ids == [] then 0 else RankOf(config, held, ids[0]) + Total(config, held, ids[1..])
  }

  lemma {:induction false} TotalIsBounded(config: Config, held: multiset<Holding>, later: multiset<Holding>,
                                          ids: seq<Id>)
    requires forall id | id in ids :: 0 <= RankOf(config, later, id) <= RankOf(config, held, id)
    ensures 0 <= Total(config, later, ids) <= Total(config, held, ids)
    ensures (exists id | id in ids :: RankOf(config, later, id) < RankOf(config, held, id)) ==>
              Total(config, later, ids) < Total(config, held, ids)
  {
    hide RankOf;
    if ids != [] {
      assert ids == [ids[0]] + ids[1..];
      TotalIsBounded(config, held, later, ids[1..]);
    }
  }

  lemma RankIsOf(config: Config, s: State, h: Holding)
    requires Inv(config, s) && h in Holdings(s)
    ensures RankOf(config, Holdings(s), h.task.id) == Rank(config, h) >= 0
  {
    RanksAreBounded(config, s, h);
    hide Holdings, Ok, Rank;
    assert IsHeld(Holdings(s), h.task.id);
    OneHolder(Holdings(s), h, HolderOf(Holdings(s), h.task.id));
  }

  lemma HolderExists(config: Config, s: State, id: Id) returns (h: Holding)
    requires Inv(config, s) && id in s.books.original
    ensures h in Holdings(s) && h.task.id == id
  {
    hide Ok, Holdings;
    assert IsHeld(Holdings(s), id);
    h := HolderOf(Holdings(s), id);
  }

  lemma FallsIsLess(config: Config, h: Holding, k: Holding)
    requires Falls(config, h, k)
    ensures Rank(config, k) < Rank(config, h) && h != k
  {
  }

  /** A task's rank falls exactly when it changes its holder. */
  lemma RankNeverGrows(config: Config, s: State, t: State, id: Id)
    requires Inv(config, s) && Kept(config, s, t) && id in s.books.original
    ensures 0 <= RankOf(config, Holdings(t), id) <= RankOf(config, Holdings(s), id)
    ensures (exists k :: k in Holdings(t) && k.task.id == id && k !in Holdings(s)) ==>
              RankOf(config, Holdings(t), id) < RankOf(config, Holdings(s), id)
  {
    hide Inv, Holdings, RankOf, Rank, Falls;
    var h := HolderExists(config, s, id);
    var k := HolderExists(config, t, id);
    RankIsOf(config, s, h);
    RankIsOf(config, t, k);
    if h != k {
      FallsIsLess(config, h, k);
    } else if j :| j in Holdings(t) && j.task.id == id && j !in Holdings(s) {
      FallsIsLess(config, h, j);
      RankIsOf(config, t, j);
    }
  }

  lemma Known(config: Config, s: State, h: Holding)
    requires Inv(config, s) && h in Holdings(s)
    ensures h.task.id in s.books.original
  {
    KnownHolders(config, s.books, Holdings(s));
  }

  lemma KeptKeeps(config: Config, s: State, t: State)
    requires Kept(config, s, t)
    ensures Inv(config, t)
  {
  }

  /** A step that issues nothing never adds to what is left, and takes from it when some task changes its holder. */
  lemma StepTakesRank(config: Config, s: State, a: Action, ids: seq<Id>)
    requires Inv(config, s) && !a.Enqueue? && forall id :: id in ids <==> id in s.books.original
    ensures var t := Next(config, s, a);
            && Inv(config, t) && t.books.original == s.books.original
            && 0 <= Total(config, Holdings(t), ids) <= Total(config, Holdings(s), ids)
            && ((exists k :: k in Holdings(t) && k !in Holdings(s)) ==>
                  Total(config, Holdings(t), ids) < Total(config, Holdings(s), ids))
  {
    hide Next, Inv, Holdings, RankOf, Kept, Total;
    var t := Next(config, s, a);
    StepKeeps(config, s, a);
    KeptKeeps(config, s, t);
    CountStays(config, s, a);
    forall id | id in ids
      ensures 0 <= RankOf(config, Holdings(t), id) <= RankOf(config, Holdings(s), id)
    {
      RankNeverGrows(config, s, t, id);
    }
    TotalIsBounded(config, Holdings(s), Holdings(t), ids);
    if k :| k in Holdings(t) && k !in Holdings(s) {
      Known(config, t, k);
      RankNeverGrows(config, s, t, k.task.id);
      assert k.task.id in ids;
    }
  }

  // ---- Steps that only turn to the queue ----

  function Weight(proc: Process): nat {
    match proc
    case Waiting => 1
    case Promoting(pending) => 2 + |pending|
    case _ => 0
  }

  function WeightOf(procs: seq<Process>): nat {
    if procs == [] then 0 else Weight(procs[0]) + WeightOf(procs[1..])
  }

  lemma {:induction false} WeightUpdate(procs: seq<Process>, p: nat, proc: Process)
    requires p < |procs|
    ensures WeightOf(procs[p := proc]) + Weight(procs[p]) == WeightOf(procs) + Weight(proc)
  {
    hide Weight;
    if p == 0 {
      assert procs[p := proc][1..] == procs[1..];
    } else {
      assert procs[p := proc][1..] == procs[1..][p - 1 := proc];
      WeightUpdate(procs[1..], p - 1, proc);
    }
  }

  /** Some process is on its way to a task that is there. */
  ghost predicate Productive(s: State) {
    || (s.main != [] && exists p :: 0 <= p < |s.procs| && !s.procs[p].Free?)
    || (exists p :: 0 <= p < |s.procs| && s.procs[p].Promoting? && s.procs[p].pending != []
                    && IsMember(s.delayed, s.procs[p].pending[0]))
  }

  lemma EmptyHandsHoldTheSame(s: State, p: nat, proc: Process)
    requires p < |s.procs| && !s.procs[p].Holds() && !proc.Holds()
    ensures Holdings(At(s, p, proc)) == Holdings(s)
  {
    HandsSplit(s, p, proc);
    hide Rest, Holdings;
  }

  ghost predicate Closer(config: Config, s: State, t: State, ids: seq<Id>) {
    || Total(config, Holdings(t), ids) < Total(config, Holdings(s), ids)
    || (Total(config, Holdings(t), ids) == Total(config, Holdings(s), ids)
        && (if Productive(t) then 0 else 1) <= (if Productive(s) then 0 else 1)
        && (Productive(s) == Productive(t) ==> WeightOf(t.procs) < WeightOf(s.procs)))
  }

  ghost predicate AllEnded(s: State) {
    forall h | h in Holdings(s) :: h.place.AtDone? || h.place.AtDead?
  }

  lemma HoldingMoveIsCloser(config: Config, s: State, p: nat, now: int, failure: Option<Failure>, ids: seq<Id>)
    requires Inv(config, s) && p < |s.procs| && s.procs[p].Holds() && forall id :: id in ids <==> id in s.books.original
    ensures Closer(config, s, Next(config, s, NextOperation(p, s.procs[p], now, failure)), ids)
  {
    hide Next, Inv, Holdings, Total, Productive, WeightOf;
    var a := NextOperation(p, s.procs[p], now, failure);
    var t, h := Next(config, s, a), InHandOf(s, p);
    HandLetsGo(config, s, p, now, failure);
    StepTakesRank(config, s, a, ids);
    Known(config, s, h);
    var k := HolderExists(config, t, h.task.id);
    assert k !in Holdings(s) by {
      if k in Holdings(s) {
        SameHolder(config, s, h, k);
      }
    }
  }

  lemma SameHolder(config: Config, s: State, h: Holding, k: Holding)
    requires Inv(config, s) && h in Holdings(s) && k in Holdings(s) && h.task.id == k.task.id
    ensures h == k
  {
    hide Holdings, Ok, IsHeld;
  }

  /** A process that picks up a task brings the end closer. */
  lemma PickUpIsCloser(config: Config, s: State, a: Action, p: nat, ids: seq<Id>)
    requires Inv(config, s) && !a.Enqueue? && forall id :: id in ids <==> id in s.books.original
    requires var t := Next(config, s, a); p < |s.procs| == |t.procs| && !s.procs[p].Holds() && t.procs[p].Holds()
    ensures Closer(config, s, Next(config, s, a), ids)
  {
    hide Next, Inv, Holdings, Total, Productive, WeightOf;
    var t := Next(config, s, a);
    StepTakesRank(config, s, a, ids);
    HoldingIsInItsPlace(t, InHandOf(t, p));
    HoldingIsInItsPlace(s, InHandOf(t, p));
  }

  lemma TurningIsCloser(config: Config, s: State, p: nat, proc: Process, ids: seq<Id>)
    requires p < |s.procs| && !s.procs[p].Holds() && !proc.Holds()
    requires (Productive(s) ==> Productive(At(s, p, proc)))
    requires Productive(s) == Productive(At(s, p, proc)) ==> Weight(proc) < Weight(s.procs[p])
    ensures Closer(config, s, At(s, p, proc), ids)
  {
    EmptyHandsHoldTheSame(s, p, proc);
    WeightUpdate(s.procs, p, proc);
    HandAt(s, p, proc);
    hide Holdings, WeightOf, Weight, Total, Productive, At;
  }

  /** A process that gives up on a task which is gone takes no task away from the others. */
  lemma StaysProductive(s: State, p: nat, proc: Process)
    requires p < |s.procs| && (proc.Waiting? || proc.Promoting?) && Productive(s)
    requires s.procs[p].Promoting? && (s.procs[p].pending == [] || !IsMember(s.delayed, s.procs[p].pending[0]))
    ensures Productive(At(s, p, proc))
  {
    hide IsMember;
    var t := At(s, p, proc);
    if s.main != [] && exists q :: 0 <= q < |s.procs| && !s.procs[q].Free? {
      assert !t.procs[p].Free?;
    } else {
      var q :| 0 <= q < |s.procs| && s.procs[q].Promoting? && s.procs[q].pending != []
               && IsMember(s.delayed, s.procs[q].pending[0]);
      assert t.procs[q] == s.procs[q];
    }
  }

  lemma PromotingIsCloser(config: Config, s: State, p: nat, ids: seq<Id>)
    requires Inv(config, s) && p < |s.procs| && s.procs[p].Promoting?
             && forall id :: id in ids <==> id in s.books.original
    ensures Closer(config, s, Next(config, s, PromoteNext(p)), ids)
  {
    hide Inv, Closer, IsMember, Without, Productive;
    var pending := s.procs[p].pending;
    if pending != [] && IsMember(s.delayed, pending[0]) {
      PickUpIsCloser(config, s, PromoteNext(p), p, ids);
    } else {
      var proc := if pending == [] then Waiting else Promoting(pending[1..]);
      if Productive(s) {
        StaysProductive(s, p, proc);
      }
      TurningIsCloser(config, s, p, proc, ids);
    }
  }

  lemma WaitingIsCloser(config: Config, s: State, p: nat, ids: seq<Id>)
    requires Inv(config, s) && p < |s.procs| && s.procs[p].Waiting?
             && forall id :: id in ids <==> id in s.books.original
    requires forall q | 0 <= q < |s.procs| :: !s.procs[q].Promoting?
    ensures Closer(config, s, Next(config, s, Pop(p)), ids)
  {
    hide Inv, Closer, IsMember;
    if s.main != [] {
      PickUpIsCloser(config, s, Pop(p), p, ids);
    } else {
      assert !Productive(s);
      hide Productive;
      TurningIsCloser(config, s, p, Free, ids);
    }
  }

  lemma SomethingIsQueued(config: Config, s: State)
    requires !AllEnded(s) && forall q | 0 <= q < |s.procs| :: s.procs[q].Free?
    ensures s.main != [] || s.delayed != []
  {
    hide Holdings;
    var h :| h in Holdings(s) && !h.place.AtDone? && !h.place.AtDead?;
    HoldingIsInItsPlace(s, h);
  }

  lemma FreeIsCloser(config: Config, s: State, now: int, ids: seq<Id>)
    requires Inv(config, s) && InOrder(s.delayed) && !AllEnded(s) && |s.procs| > 0
    requires forall q | 0 <= q < |s.procs| :: s.procs[q].Free?
    requires forall e | e in s.delayed :: e.score <= now
    ensures Closer(config, s, Next(config, s, BeginPromote(0, now)), ids)
  {
    hide Inv, AllEnded, Closer, InOrder;
    var due := Due(s.delayed, now, PROMOTE_LIMIT);
    var t := At(s, 0, Promoting(due));
    SomethingIsQueued(config, s);
    assert !Productive(s);
    assert t.procs[0] == Promoting(due);
    if s.main == [] {
      assert s.delayed[0] in s.delayed && due != [] && due[0] == s.delayed[0].task;
      assert IsMember(s.delayed, due[0]);
    }
    assert Productive(t);
    hide Productive;
    TurningIsCloser(config, s, 0, Promoting(due), ids);
  }

  /** Every operation of the scheduler brings the end closer. */
  lemma MoveIsCloser(config: Config, s: State, clock: int, failure: Option<Failure>, ids: seq<Id>)
    requires Inv(config, s) && InOrder(s.delayed) && !AllEnded(s) && |s.procs| > 0
    requires forall id :: id in ids <==> id in s.books.original
    ensures Closer(config, s, Next(config, s, NextMove(s, clock, failure)), ids)
  {
    hide Inv, InOrder, AllEnded, Closer, Next, NextOperation, Latest;
    var p := Pick(s);
    if s.procs[p].Holds() {
      HoldingMoveIsCloser(config, s, p, Latest(s.delayed, clock), failure, ids);
    } else if s.procs[p].Promoting? {
      PromotingIsCloser(config, s, p, ids);
    } else if s.procs[p].Waiting? {
      WaitingIsCloser(config, s, p, ids);
    } else {
      FreeIsCloser(config, s, Latest(s.delayed, clock), ids);
    }
  }

  lemma RunOn(config: Config, s: State, clock: int, failures: nat -> Option<Failure>, from: nat, n: nat)
    requires |s.procs| > 0 && n > 0
    ensures var a := NextMove(s, clock, failures(from));
            var t := Next(config, s, a);
            && |t.procs| > 0
            && RunFrom(config, s, Scheduled(config, s, clock, failures, from, n)) ==
                 RunFrom(config, t, Scheduled(config, t, Latest(s.delayed, clock), failures, from + 1, n - 1))
  {
    hide *;
    ScheduledUnfolds(config, s, clock, failures, from, n);
    var a := NextMove(s, clock, failures(from));
    RunOne(config, s, a, Scheduled(config, Next(config, s, a), Latest(s.delayed, clock), failures, from + 1, n - 1));
  }

  lemma MoveIssuesNothing(s: State, clock: int, failure: Option<Failure>)
    requires |s.procs| > 0
    ensures !NextMove(s, clock, failure).Enqueue?
  {
    hide Latest, Pick;
  }

  /** The scheduler, met by any failures, brings every task to its end. */
  lemma {:induction false} SchedulerEnds(config: Config, s: State, clock: int, failures: nat -> Option<Failure>,
                                         from: nat, ids: seq<Id>)
    returns (n: nat)
    requires Inv(config, s) && InOrder(s.delayed) && |s.procs| > 0
    requires forall id :: id in ids <==> id in s.books.original
    ensures var t := RunFrom(config, s, Scheduled(config, s, clock, failures, from, n));
            Inv(config, t) && AllEnded(t) && t.books.original == s.books.original
    decreases Total(config, Holdings(s), ids), if Productive(s) then 0 else 1, WeightOf(s.procs)
  {
    hide Inv, InOrder, AllEnded, Next, NextMove, Latest, Holdings, Total, Productive, WeightOf, RunFrom, Scheduled;
    if AllEnded(s) {
      n := 0;
      NothingScheduled(config, s, clock, failures, from);
    } else {
      var a := NextMove(s, clock, failures(from));
      var t := Next(config, s, a);
      MoveIsCloser(config, s, clock, failures(from), ids);
      MoveIssuesNothing(s, clock, failures(from));
      StepTakesRank(config, s, a, ids);
      StepKeepsOrder(config, s, a);
      CountStays(config, s, a);
      var m := SchedulerEnds(config, t, Latest(s.delayed, clock), failures, from + 1, ids);
      n := m + 1;
      RunOn(config, s, clock, failures, from, n);
    }
  }

  lemma NothingScheduled(config: Config, s: State, clock: int, failures: nat -> Option<Failure>, from: nat)
    requires |s.procs| > 0
    ensures RunFrom(config, s, Scheduled(config, s, clock, failures, from, 0)) == s
  {
  }

  lemma {:induction false} Listed(ids: set<Id>) returns (listed: seq<Id>)
    ensures forall id :: id in listed <==> id in ids
    decreases ids
  {
    if ids == {} {
      listed := [];
    } else {
      var id :| id in ids;
      var rest := Listed(ids - {id});
      listed := [id] + rest;
    }
  }

  lemma {:induction false} RunKeepsCount(config: Config, workers: nat, actions: seq<Action>)
    ensures |Run(config, workers, actions).procs| == workers
    decreases |actions|
  {
    if actions != [] {
      hide Next;
      RunKeepsCount(config, workers, actions[..|actions| - 1]);
      CountStays(config, Run(config, workers, actions[..|actions| - 1]), actions[|actions| - 1]);
    }
  }

  lemma {:induction false} RunThen(config: Config, workers: nat, actions: seq<Action>, more: seq<Action>)
    ensures Run(config, workers, actions + more) == RunFrom(config, Run(config, workers, actions), more)
    decreases |more|
  {
    hide Next, Run;
    if more == [] {
      assert actions + more == actions;
    } else {
      RunMore(config, workers, actions, more[0]);
      assert actions + more == actions + [more[0]] + more[1..];
      RunThen(config, workers, actions + [more[0]], more[1..]);
    }
  }

  /** A task has ended when it is done or dead; its record, if it has one, says which. */
  ghost predicate Ended(s: State, id: Id) {
    && (exists h :: h in Holdings(s) && h.task.id == id && (h.place.AtDone? || h.place.AtDead?))
    && (id in s.books.rows ==> s.books.rows[id].status == Succeeded || s.books.rows[id].status == Dead)
  }

  lemma EndedRecord(config: Config, s: State, id: Id)
    requires Inv(config, s) && AllEnded(s) && id in s.books.original
    ensures Ended(s, id)
  {
    hide Holdings;
    var h := HolderExists(config, s, id);
    assert Ok(config, s.books, h);
  }

  /**
    From every reachable state with a process, at any time, the scheduler alone,
    enqueuing nothing, brings every issued task to the done or the dead tasks,
    whichever failures its operations meet.
   */
  lemma EveryTaskEnds(config: Config, workers: nat, actions: seq<Action>, clock: int, failures: nat -> Option<Failure>)
    requires workers > 0
    ensures |Run(config, workers, actions).procs| > 0
    ensures exists n: nat ::
              var s := Run(config, workers, actions);
              var more := Scheduled(config, s, clock, failures, 0, n);
              var t := Run(config, workers, actions + more);
              && Obeys(more, clock, failures, 0) && t.books.original == s.books.original
              && AllEnded(t) && forall id | id in t.books.original :: Ended(t, id)
  {
    hide Run, Inv, InOrder, Holdings, AllEnded, Ended, Obeys, Scheduled, RunFrom;
    var s := Run(config, workers, actions);
    RunKeeps(config, workers, actions);
    RunKeepsOrder(config, workers, actions);
    RunKeepsCount(config, workers, actions);
    var ids := Listed(s.books.original.Keys);
    var n := SchedulerEnds(config, s, clock, failures, 0, ids);
    var more := Scheduled(config, s, clock, failures, 0, n);
    ScheduledObeys(config, s, clock, failures, 0, n);
    RunThen(config, workers, actions, more);
    var t := Run(config, workers, actions + more);
    forall id | id in t.books.original
      ensures Ended(t, id)
    {
      EndedRecord(config, t, id);
    }
  }

  /** In particular every task that has not ended changes its holder, wherever it is. */
  lemma EveryTaskMoves(config: Config, workers: nat, actions: seq<Action>, clock: int,
                       failures: nat -> Option<Failure>, h: Holding)
    requires workers > 0 && h in Holdings(Run(config, workers, actions)) && !h.place.AtDone? && !h.place.AtDead?
    ensures |Run(config, workers, actions).procs| > 0
    ensures exists n: nat ::
              var more := Scheduled(config, Run(config, workers, actions), clock, failures, 0, n);
              Obeys(more, clock, failures, 0) && h !in Holdings(Run(config, workers, actions + more))
  {
    hide Run, Holdings, Ended, Obeys, Scheduled;
    EveryTaskEnds(config, workers, actions, clock, failures);
  }
}

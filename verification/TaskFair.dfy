/**
  No particular scheduler is needed: every fair run ends. As long as each process
  keeps getting its turn and the clock does not stop, every issued task ends up
  done or dead, in whatever order the processes act and whatever fails.
 */
module TaskFair {
  import opened Options
  import opened TaskQueue
  import opened TaskMachine
  import opened TaskSafety
  import opened TaskResults
  import opened TaskTurn
  import opened TaskEnds

  /** Who acts at each step, the failure its operation meets if it can fail, and the time. */
  datatype Schedule = Schedule(pick: nat -> nat, failures: nat -> Option<Failure>, times: nat -> int)

  ghost predicate Comes(schedule: Schedule, p: nat, from: nat) {
    exists k: nat :: k >= from && schedule.pick(k) == p
  }

  ghost predicate Strikes(schedule: Schedule, time: int) {
    exists k: nat :: schedule.times(k) >= time
  }

  /** Every process acts again and again; time never runs backwards and passes every bound. */
  ghost predicate IsFair(schedule: Schedule, workers: nat) {
    && (forall k: nat :: schedule.pick(k) < workers)
    && (forall p: nat, from: nat | p < workers :: Comes(schedule, p, from))
    && (forall j: nat, k: nat | j <= k :: schedule.times(j) <= schedule.times(k))
    && (forall time :: Strikes(schedule, time))
  }

  /** The process whose turn it is takes its own next operation; nobody enqueues. */
  function ActionAt(s: State, schedule: Schedule, k: nat): Action {
    var p := schedule.pick(k);
    if p < |s.procs| then Operation(p, s.procs[p], schedule.times(k), schedule.failures(k)) else Pop(p)
  }

  /** The state after n steps of the schedule, from its step k on. */
  function After(config: Config, s: State, schedule: Schedule, k: nat, n: nat): State
    decreases n
  {
    if n == 0 then s else After(config, Next(config, s, ActionAt(s, schedule, k)), schedule, k + 1, n - 1)
  }

  // ---- What a step does when it does not bring the end closer ----

  /** A turn without a task: the process only goes on in its loop. */
  function Turned(s: State, p: nat, now: int): Process
    requires p < |s.procs|
  {
    match s.procs[p]
    case Free => Promoting(Due(s.delayed, now, PROMOTE_LIMIT))
    case Promoting(pending) => if pending == [] then Waiting else Promoting(pending[1..])
    case _ => Free
  }

  /** The process will not pick up a task with its next operation. */
  predicate TurnsIdly(s: State, p: nat)
    requires p < |s.procs|
  {
    match s.procs[p]
    case Free => true
    case Promoting(pending) => pending == [] || !IsMember(s.delayed, pending[0])
    case Waiting => s.main == []
    case _ => false
  }

  ghost predicate Less(config: Config, s: State, t: State, ids: seq<Id>) {
    Total(config, Holdings(t), ids) < Total(config, Holdings(s), ids)
  }

  lemma OperationIsNoEnqueue(p: nat, proc: Process, now: int, failure: Option<Failure>)
    ensures !Operation(p, proc, now, failure).Enqueue?
  {
  }

  lemma CloserHandIsLess(config: Config, s: State, p: nat, now: int, failure: Option<Failure>, ids: seq<Id>)
    requires Inv(config, s) && p < |s.procs| && s.procs[p].Holds() && forall id :: id in ids <==> id in s.books.original
    ensures Less(config, s, Next(config, s, NextOperation(p, s.procs[p], now, failure)), ids)
  {
    hide Next, Inv, Holdings, Total, NextOperation;
    var a := NextOperation(p, s.procs[p], now, failure);
    var t, h := Next(config, s, a), InHandOf(s, p);
    HandLetsGo(config, s, p, now, failure);
    OperationIsNoEnqueue(p, s.procs[p], now, failure);
    StepTakesRank(config, s, a, ids);
    Known(config, s, h);
    var k := HolderExists(config, t, h.task.id);
    if k in Holdings(s) {
      SameHolder(config, s, h, k);
    }
  }

  lemma PickUpIsLess(config: Config, s: State, a: Action, p: nat, ids: seq<Id>)
    requires Inv(config, s) && !a.Enqueue? && forall id :: id in ids <==> id in s.books.original
    requires var t := Next(config, s, a); p < |s.procs| == |t.procs| && !s.procs[p].Holds() && t.procs[p].Holds()
    ensures Less(config, s, Next(config, s, a), ids)
  {
    hide Next, Inv, Holdings, Total;
    var t := Next(config, s, a);
    StepTakesRank(config, s, a, ids);
    HoldingIsInItsPlace(t, InHandOf(t, p));
    HoldingIsInItsPlace(s, InHandOf(t, p));
  }

  /** Each operation either leaves less to do or is an idle turn of its process. */
  lemma LessOrIdle(config: Config, s: State, p: nat, now: int, failure: Option<Failure>, ids: seq<Id>)
    requires Inv(config, s) && p < |s.procs| && forall id :: id in ids <==> id in s.books.original
    ensures var t := Next(config, s, Operation(p, s.procs[p], now, failure));
            if TurnsIdly(s, p) then t == At(s, p, Turned(s, p, now)) else Less(config, s, t, ids)
  {
    hide Inv, Less, IsMember, Without, Due;
    if s.procs[p].Holds() {
      hide Next, NextOperation;
      CloserHandIsLess(config, s, p, now, failure, ids);
    } else if !TurnsIdly(s, p) {
      PickUpIsLess(config, s, Operation(p, s.procs[p], now, failure), p, ids);
    }
  }

  // ---- How far one process is from a task ----

  function Distance(s: State, q: nat): nat
    requires q < |s.procs|
  {
    match s.procs[q]
    case Free => 2
    case Promoting(pending) =>
      if pending != [] && IsMember(s.delayed, pending[0]) then 0 else |pending| + if s.main != [] then 1 else 4
    case Waiting => if s.main != [] then 0 else 3
    case _ => 0
  }

  /** q has a task in hand, or nobody has. */
  predicate Leads(s: State, q: nat) {
    q < |s.procs| && (s.procs[q].Holds() || forall p | 0 <= p < |s.procs| :: !s.procs[p].Holds())
  }

  lemma LeaderExists(s: State) returns (q: nat)
    requires |s.procs| > 0
    ensures Leads(s, q)
  {
    if p: nat :| p < |s.procs| && s.procs[p].Holds() {
      q := p;
    } else {
      q := 0;
    }
  }

  lemma OthersStay(s: State, p: nat, q: nat, now: int)
    requires p < |s.procs| && TurnsIdly(s, p) && Leads(s, q)
    ensures Leads(At(s, p, Turned(s, p, now)), q)
    ensures p != q ==> Distance(At(s, p, Turned(s, p, now)), q) == Distance(s, q)
  {
    hide IsMember, Due;
  }

  lemma AllFreeMeansQueued(config: Config, s: State, q: nat)
    requires !AllEnded(s) && Leads(s, q) && !s.procs[q].Holds()
    ensures s.main != [] || s.delayed != []
  {
    hide Holdings;
    var h :| h in Holdings(s) && !h.place.AtDone? && !h.place.AtDead?;
    HoldingIsInItsPlace(s, h);
  }

  lemma FirstIsDue(z: seq<Entry>, now: int)
    requires z != [] && forall e | e in z :: e.score <= now
    ensures Due(z, now, PROMOTE_LIMIT) != [] && IsMember(z, Due(z, now, PROMOTE_LIMIT)[0])
  {
    assert z[0] in z;
    assert Due(z, now, PROMOTE_LIMIT)[0] == z[0].task;
  }

  /** When all that is delayed is due, an idle turn brings its process closer to a task. */
  lemma IdleTurnIsCloser(config: Config, s: State, q: nat, now: int)
    requires !AllEnded(s) && Leads(s, q) && TurnsIdly(s, q) && forall e | e in s.delayed :: e.score <= now
    ensures Distance(At(s, q, Turned(s, q, now)), q) < Distance(s, q)
  {
    AllFreeMeansQueued(config, s, q);
    if s.procs[q].Free? && s.delayed != [] {
      FirstIsDue(s.delayed, now);
    }
    hide AllEnded, IsMember, Due;
    if s.procs[q].Free? && s.delayed == [] {
      NothingIsDue(now);
    }
  }

  lemma NothingIsDue(now: int)
    ensures Due([], now, PROMOTE_LIMIT) == []
  {
  }

  // ---- Every fair run ends ----

  lemma StepInRun(config: Config, s: State, schedule: Schedule, k: nat, n: nat)
    requires n > 0
    ensures After(config, s, schedule, k, n) ==
              After(config, Next(config, s, ActionAt(s, schedule, k)), schedule, k + 1, n - 1)
  {
    hide Next, ActionAt;
  }

  /** The step at which all that is delayed is due. */
  lemma DueFrom(schedule: Schedule, workers: nat, time: int) returns (k: nat)
    requires IsFair(schedule, workers)
    ensures forall j: nat | j >= k :: schedule.times(j) >= time
  {
    assert Strikes(schedule, time);
    k :| schedule.times(k) >= time;
  }

  lemma NextTurn(schedule: Schedule, workers: nat, p: nat, from: nat) returns (k: nat)
    requires IsFair(schedule, workers) && p < workers
    ensures k >= from && schedule.pick(k) == p
  {
    assert Comes(schedule, p, from);
    k :| k >= from && schedule.pick(k) == p;
  }

  ghost predicate Ready(config: Config, s: State, schedule: Schedule, ids: seq<Id>) {
    && Inv(config, s) && InOrder(s.delayed) && |s.procs| > 0 && IsFair(schedule, |s.procs|)
    && forall id :: id in ids <==> id in s.books.original
  }

  lemma StaysReady(config: Config, s: State, schedule: Schedule, ids: seq<Id>, k: nat)
    requires Ready(config, s, schedule, ids)
    ensures var t := Next(config, s, ActionAt(s, schedule, k));
            && Ready(config, t, schedule, ids) && t.books.original == s.books.original && |t.procs| == |s.procs|
            && schedule.pick(k) < |s.procs|
            && 0 <= Total(config, Holdings(t), ids) <= Total(config, Holdings(s), ids)
  {
    hide Inv, InOrder, IsFair, Next, Total, Holdings, Operation;
    PicksExist(schedule, |s.procs|, k);
    var p := schedule.pick(k);
    OperationIsNoEnqueue(p, s.procs[p], schedule.times(k), schedule.failures(k));
    var a := ActionAt(s, schedule, k);
    StepTakesRank(config, s, a, ids);
    StepKeepsOrder(config, s, a);
    CountStays(config, s, a);
  }

  lemma PicksExist(schedule: Schedule, workers: nat, k: nat)
    requires IsFair(schedule, workers)
    ensures schedule.pick(k) < workers
  {
  }

  /**
    q is a process that leads, next its next turn, and dueFrom the step from which
    all that is delayed now is due.
   */
  lemma {:induction false} FairRunEnds(config: Config, s: State, schedule: Schedule, k: nat, ids: seq<Id>, q: nat,
                                       dueFrom: nat, next: nat)
    returns (n: nat)
    requires Ready(config, s, schedule, ids) && Leads(s, q) && next >= k && schedule.pick(next) == q
    requires forall j: nat | j >= dueFrom :: schedule.times(j) >= Latest(s.delayed, 0)
    ensures var t := After(config, s, schedule, k, n);
            Inv(config, t) && AllEnded(t) && t.books.original == s.books.original
    decreases Total(config, Holdings(s), ids), if k < dueFrom then dueFrom - k else 0, Distance(s, q), next - k
  {
    hide Inv, AllEnded, InOrder, IsFair, Next, Total, Holdings, Operation, Latest, After;
    hide Distance, Leads, TurnsIdly, Turned;
    if AllEnded(s) {
      n := 0;
      NoSteps(config, s, schedule, k);
    } else {
      var a := ActionAt(s, schedule, k);
      var t, p := Next(config, s, a), schedule.pick(k);
      StaysReady(config, s, schedule, ids, k);
      LessOrIdle(config, s, p, schedule.times(k), schedule.failures(k), ids);
      var m: nat;
      if Less(config, s, t, ids) {
        var q' := LeaderExists(t);
        var due' := DueFrom(schedule, |t.procs|, Latest(t.delayed, 0));
        var next' := NextTurn(schedule, |t.procs|, q', k + 1);
        m := FairRunEnds(config, t, schedule, k + 1, ids, q', due', next');
      } else {
        OthersStay(s, p, q, schedule.times(k));
        OnlyTheHandMoves(s, p, Turned(s, p, schedule.times(k)));
        EmptyTurn(config, s, p, schedule.times(k));
        if p == q && k >= dueFrom {
          LatestIsDue(s.delayed, schedule.times(k));
          IdleTurnIsCloser(config, s, q, schedule.times(k));
        }
        var next' := next;
        if p == q {
          next' := NextTurn(schedule, |t.procs|, q, k + 1);
        }
        m := FairRunEnds(config, t, schedule, k + 1, ids, q, dueFrom, next');
      }
      n := m + 1;
      StepInRun(config, s, schedule, k, n);
    }
  }

  lemma NoSteps(config: Config, s: State, schedule: Schedule, k: nat)
    ensures After(config, s, schedule, k, 0) == s
  {
  }

  lemma LatestIsDue(z: seq<Entry>, now: int)
    requires now >= Latest(z, 0)
    ensures forall e | e in z :: e.score <= now
  {
  }

  lemma EmptyTurn(config: Config, s: State, p: nat, now: int)
    requires p < |s.procs| && TurnsIdly(s, p)
    ensures Holdings(At(s, p, Turned(s, p, now))) == Holdings(s)
  {
    hide Due, IsMember;
    EmptyHandsHoldTheSame(s, p, Turned(s, p, now));
  }

  /** Whose turn it is when the processes take turns in a circle. */
  function InTurn(workers: nat, k: nat): nat {
    if k == 0 then 0
    else
      var before := InTurn(workers, k - 1);
      if before + 1 < workers then before + 1 else 0
  }

  lemma {:induction false} TurnsAreProcesses(workers: nat, k: nat)
    requires workers > 0
    ensures InTurn(workers, k) < workers
  {
    if k > 0 {
      TurnsAreProcesses(workers, k - 1);
    }
  }

  lemma {:induction false} TurnComes(workers: nat, p: nat, from: nat) returns (k: nat)
    requires p < workers
    ensures k >= from && InTurn(workers, k) == p
    decreases var now := InTurn(workers, from); if p >= now then p - now else workers - now + p
  {
    TurnsAreProcesses(workers, from);
    k := from;
    if InTurn(workers, from) != p {
      k := TurnComes(workers, p, from + 1);
    }
  }

  /** Taking turns in a circle, with a clock that counts, is fair. */
  lemma RoundRobinIsFair(workers: nat, failures: nat -> Option<Failure>)
    requires workers > 0
    ensures IsFair(Schedule(k => InTurn(workers, k), failures, k => k), workers)
  {
    var schedule := Schedule(k => InTurn(workers, k), failures, k => k);
    forall k: nat
      ensures schedule.pick(k) < workers
    {
      TurnsAreProcesses(workers, k);
    }
    forall p: nat, from: nat | p < workers
      ensures Comes(schedule, p, from)
    {
      var k := TurnComes(workers, p, from);
      assert schedule.pick(k) == p;
    }
    forall time
      ensures Strikes(schedule, time)
    {
      assert schedule.times(if time > 0 then time else 0) >= time;
    }
  }

  /** From every reachable state, every fair run brings every issued task to the done or the dead tasks. */
  lemma EveryFairRunEnds(config: Config, workers: nat, actions: seq<Action>, schedule: Schedule)
    requires workers > 0 && IsFair(schedule, workers)
    ensures exists n: nat ::
              var s := Run(config, workers, actions);
              var t := After(config, s, schedule, 0, n);
              t.books.original == s.books.original && AllEnded(t) && forall id | id in t.books.original :: Ended(t, id)
  {
    hide Run, Inv, InOrder, IsFair, AllEnded, Ended, Leads, After, Latest;
    var s := Run(config, workers, actions);
    RunKeeps(config, workers, actions);
    RunKeepsOrder(config, workers, actions);
    RunKeepsCount(config, workers, actions);
    var ids := Listed(s.books.original.Keys);
    var q := LeaderExists(s);
    assert q < workers by { LeaderIsAProcess(s, q); }
    var dueFrom := DueFrom(schedule, workers, Latest(s.delayed, 0));
    var next := NextTurn(schedule, workers, q, 0);
    var n := FairRunEnds(config, s, schedule, 0, ids, q, dueFrom, next);
    var t := After(config, s, schedule, 0, n);
    forall id | id in t.books.original
      ensures Ended(t, id)
    {
      EndedRecord(config, t, id);
    }
  }

  lemma LeaderIsAProcess(s: State, q: nat)
    requires Leads(s, q)
    ensures q < |s.procs|
  {
  }
}

/**
  The service functions and the interleaved machine agree: when nobody
  interferes, the single operations of one process add up to one turn of the
  worker.
 */
module TaskTurn {
  import opened Options
  import opened TaskQueue
  import opened TaskMachine
  import TaskResults

  /** The operation that fails, when one does. */
  datatype Point = OnMark | OnHeartbeat | OnHandle | OnSuccess | OnLastHeartbeat

  function RunFrom(config: Config, s: State, actions: seq<Action>): State
    decreases |actions|
  {
    if actions == [] then s else RunFrom(config, Next(config, s, actions[0]), actions[1..])
  }

  function Stored(s: State): Store {
    Store(s.main, s.delayed, s.dead, s.books.rows)
  }

  function PromoteActions(p: nat, n: nat): seq<Action> {
    if n == 0 then [PromoteNext(p)] else [PromoteNext(p), PromotePush(p)] + PromoteActions(p, n - 1)
  }

  lemma {:induction false} RunFromConcat(config: Config, s: State, a: seq<Action>, b: seq<Action>)
    ensures RunFrom(config, s, a + b) == RunFrom(config, RunFrom(config, s, a), b)
    decreases |a|
  {
    hide Next;
    if a == [] {
      assert a + b == b;
    } else {
      assert (a + b)[1..] == a[1..] + b;
      RunFromConcat(config, Next(config, s, a[0]), a[1..], b);
    }
  }

  lemma RunTwo(config: Config, s: State, a: Action, b: Action, rest: seq<Action>)
    ensures RunFrom(config, s, [a, b] + rest) == RunFrom(config, Next(config, Next(config, s, a), b), rest)
  {
    hide Next;
    assert ([a, b] + rest)[1..] == [b] + rest;
    assert ([b] + rest)[1..] == rest;
  }

  lemma HeadIsRemoved(z: seq<Entry>)
    requires InOrder(z) && z != []
    ensures IsMember(z, z[0].task) && Without(z, z[0].task) == z[1..]
  {
    HeadIsLeast(z);
    WithoutKeepsOrder(z[1..], z[0].task);
    assert forall i | 0 <= i < |z[1..]| :: z[1..][i] in z[1..];
    assert [] + z[1..] == z[1..];
  }

  /** One member of the due prefix moves. */
  lemma PromoteOne(config: Config, s: State, p: nat, pending: seq<Envelope>)
    requires p < |s.procs| && s.procs[p] == Promoting(pending) && pending != []
    requires InOrder(s.delayed) && s.delayed != [] && s.delayed[0].task == pending[0]
    ensures Next(config, Next(config, s, PromoteNext(p)), PromotePush(p)) ==
              At(s, p, Promoting(pending[1..])).(main := s.main + [pending[0]], delayed := s.delayed[1..])
  {
    HeadIsRemoved(s.delayed);
    hide IsMember, Without;
    var u := Next(config, s, PromoteNext(p));
    assert u == At(s, p, Carrying(pending[0], pending[1..])).(delayed := s.delayed[1..]);
    assert s.procs[p := Carrying(pending[0], pending[1..])][p := Promoting(pending[1..])]
           == s.procs[p := Promoting(pending[1..])];
  }

  lemma NothingLeft(config: Config, s: State, p: nat)
    requires p < |s.procs| && s.procs[p] == Promoting([])
    ensures RunFrom(config, s, PromoteActions(p, 0)) == At(s, p, Waiting)
  {
    assert PromoteActions(p, 0)[1..] == [];
  }

  lemma HandAt(s: State, p: nat, proc: Process)
    requires p < |s.procs|
    ensures At(s, p, proc) == s.(procs := s.procs[p := proc])
  {
  }

  /** Without interference all due tasks move to the main queue, in order. */
  lemma {:induction false} PromoteAll(config: Config, s: State, p: nat, pending: seq<Envelope>)
    requires p < |s.procs| && s.procs[p] == Promoting(pending) && InOrder(s.delayed)
    requires |pending| <= |s.delayed| && forall i | 0 <= i < |pending| :: s.delayed[i].task == pending[i]
    ensures RunFrom(config, s, PromoteActions(p, |pending|)) ==
              At(s, p, Waiting).(main := s.main + pending, delayed := s.delayed[|pending|..])
    decreases |pending|
  {
    hide Next, InOrder, At;
    if pending == [] {
      NothingLeft(config, s, p);
      HandAt(s, p, Waiting);
      assert s.main + pending == s.main && s.delayed[0..] == s.delayed;
    } else {
      var t := At(s, p, Promoting(pending[1..])).(main := s.main + [pending[0]], delayed := s.delayed[1..]);
      PromoteOne(config, s, p, pending);
      HeadIsLeast(s.delayed);
      HandAt(s, p, Promoting(pending[1..]));
      HandAt(s, p, Waiting);
      HandAt(t, p, Waiting);
      RunTwo(config, s, PromoteNext(p), PromotePush(p), PromoteActions(p, |pending| - 1));
      PromoteAll(config, t, p, pending[1..]);
      assert t.main + pending[1..] == s.main + pending;
      assert t.delayed[|pending| - 1..] == s.delayed[|pending|..];
      assert t.procs[p := Waiting] == s.procs[p := Waiting];
    }
  }

  lemma RunOne(config: Config, s: State, a: Action, rest: seq<Action>)
    ensures RunFrom(config, s, [a] + rest) == RunFrom(config, Next(config, s, a), rest)
  {
    hide Next;
    assert ([a] + rest)[1..] == rest;
  }

  /** Two rows of one task that differ only in what a mark overwrites. */
  predicate SameButMarks(rows: map<Id, Row>, other: map<Id, Row>, id: Id) {
    && rows.Keys == other.Keys
    && (forall i | i in rows && i != id :: rows[i] == other[i])
    && (id in rows ==> rows[id].payload == other[id].payload && rows[id].maxAttempts == other[id].maxAttempts)
  }

  lemma MarksOverwrite(rows: map<Id, Row>, other: map<Id, Row>, id: Id, status: Status, attempts: int,
                       error: Option<string>)
    requires SameButMarks(rows, other, id)
    ensures WithMark(rows, id, status, attempts, error) == WithMark(other, id, status, attempts, error)
    ensures SameButMarks(WithMark(rows, id, status, attempts, error), other, id)
    ensures SameButMarks(Succeeding(rows, id), other, id)
  {
  }

  lemma RequeueOverwrites(config: Config, st: Store, rows: map<Id, Row>, task: Envelope, error: Failure, now: int)
    requires SameButMarks(st.rows, rows, task.id)
    ensures Requeued(config, st, task, error, now) == Requeued(config, st.(rows := rows), task, error, now)
  {
    hide SameButMarks, WithMark, Retries, ZAdd, Redacted;
    var failed := Failed(task, error);
    MarksOverwrite(st.rows, rows, task.id, Retrying, failed.attempts, failed.lastError);
    MarksOverwrite(st.rows, rows, task.id, Dead, failed.attempts, failed.lastError);
  }

  /** A failing process requeues or buries its task, as requeue_task does. */
  lemma FailAlone(config: Config, s: State, p: nat, now: int)
    requires p < |s.procs| && s.procs[p].Failing?
    ensures var t := RunFrom(config, s, [Requeue(p), Give(p, now)]);
            Stored(t) == Requeued(config, Stored(s), s.procs[p].task, s.procs[p].error, now)
                && t.procs == s.procs[p := Free]
  {
    var task, error := s.procs[p].task, s.procs[p].error;
    hide WithMark, Retries, ZAdd, Redacted, Failed;
    var u := Next(config, s, Requeue(p));
    var t := Next(config, u, Give(p, now));
    RunTwo(config, s, Requeue(p), Give(p, now), []);
    assert [Requeue(p), Give(p, now)] + [] == [Requeue(p), Give(p, now)];
  }

  function FailingActions(p: nat, failure: Option<Failure>, point: Point): seq<Action> {
    match point
    case OnMark => [MarkRunning(p, failure)]
    case OnHeartbeat => [MarkRunning(p, None)] + [Heartbeat(p, failure)]
    case OnHandle => [MarkRunning(p, None)] + ([Heartbeat(p, None)] + [Handle(p, failure)])
    case OnSuccess =>
      [MarkRunning(p, None)] + ([Heartbeat(p, None)] + ([Handle(p, None)] + [MarkSucceeded(p, failure)]))
    case OnLastHeartbeat =>
      [MarkRunning(p, None)]
      + ([Heartbeat(p, None)] + ([Handle(p, None)] + ([MarkSucceeded(p, None)] + [LastHeartbeat(p, failure)])))
  }

  /** Whichever operation fails or ends the work. */
  ghost predicate Fails(config: Config, s: State, actions: seq<Action>, p: nat, task: Envelope, error: Failure)
    requires p < |s.procs|
  {
    var t := RunFrom(config, s, actions);
    && t.procs == s.procs[p := Failing(task, error)] && t.main == s.main && t.delayed == s.delayed && t.dead == s.dead
    && SameButMarks(t.books.rows, s.books.rows, task.id)
  }

  lemma FailsNow(config: Config, s: State, a: Action, p: nat, error: Failure)
    requires p < |s.procs| && s.procs[p].Holds()
    requires Next(config, s, a) == At(s, p, Failing(s.procs[p].task, error))
    ensures Fails(config, s, [a], p, s.procs[p].task, error)
  {
    RunOne(config, s, a, []);
    assert [a] + [] == [a];
  }

  lemma FailsLater(config: Config, s: State, a: Action, rest: seq<Action>, p: nat, error: Failure)
    requires p < |s.procs| && s.procs[p].Holds()
    requires var u := Next(config, s, a);
             && p < |u.procs| && u.procs[p].Holds() && u.procs[p].task == s.procs[p].task
                 && u == u.(procs := s.procs[p := u.procs[p]])
             && u.main == s.main && u.delayed == s.delayed && u.dead == s.dead
             && SameButMarks(u.books.rows, s.books.rows, s.procs[p].task.id)
             && Fails(config, u, rest, p, s.procs[p].task, error)
    ensures Fails(config, s, [a] + rest, p, s.procs[p].task, error)
  {
    hide Next;
    RunOne(config, s, a, rest);
  }

  lemma FailAfterSuccess(config: Config, s: State, p: nat, error: Failure)
    requires p < |s.procs| && s.procs[p].Marked?
    ensures Fails(config, s, [LastHeartbeat(p, Some(error))], p, s.procs[p].task, error)
  {
    FailsNow(config, s, LastHeartbeat(p, Some(error)), p, error);
  }

  lemma FailFromHandled(config: Config, s: State, p: nat, error: Failure)
    requires p < |s.procs| && s.procs[p].Handled?
    ensures Fails(config, s, [MarkSucceeded(p, Some(error))], p, s.procs[p].task, error)
    ensures Fails(config, s, [MarkSucceeded(p, None)] + [LastHeartbeat(p, Some(error))], p, s.procs[p].task, error)
  {
    var u := Next(config, s, MarkSucceeded(p, None));
    hide Fails;
    FailsNow(config, s, MarkSucceeded(p, Some(error)), p, error);
    FailAfterSuccess(config, u, p, error);
    FailsLater(config, s, MarkSucceeded(p, None), [LastHeartbeat(p, Some(error))], p, error);
  }

  lemma FailFromHandling(config: Config, s: State, p: nat, error: Failure, rest: seq<Action>)
    requires p < |s.procs| && s.procs[p].Handling?
    requires || rest == [MarkSucceeded(p, Some(error))]
             || rest == [MarkSucceeded(p, None)] + [LastHeartbeat(p, Some(error))]
    ensures Fails(config, s, [Handle(p, Some(error))], p, s.procs[p].task, error)
    ensures Fails(config, s, [Handle(p, None)] + rest, p, s.procs[p].task, error)
  {
    var u := Next(config, s, Handle(p, None));
    hide Fails;
    FailsNow(config, s, Handle(p, Some(error)), p, error);
    FailFromHandled(config, u, p, error);
    FailsLater(config, s, Handle(p, None), rest, p, error);
  }

  lemma FailFromStarted(config: Config, s: State, p: nat, error: Failure, rest: seq<Action>)
    requires p < |s.procs| && s.procs[p].Started? && s.procs[p].task.id in s.books.handled
    requires forall u: State | p < |u.procs| && u.procs[p] == Handling(s.procs[p].task) ::
               Fails(config, u, rest, p, s.procs[p].task, error)
    ensures Fails(config, s, [Heartbeat(p, Some(error))], p, s.procs[p].task, error)
    ensures Fails(config, s, [Heartbeat(p, None)] + rest, p, s.procs[p].task, error)
  {
    var u := Next(config, s, Heartbeat(p, None));
    hide Fails;
    FailsNow(config, s, Heartbeat(p, Some(error)), p, error);
    FailsLater(config, s, Heartbeat(p, None), rest, p, error);
  }

  lemma FailFromPopped(config: Config, s: State, p: nat, error: Failure, rest: seq<Action>)
    requires p < |s.procs| && s.procs[p].Popped?
    requires var u := Next(config, s, MarkRunning(p, None)); Fails(config, u, rest, p, s.procs[p].task, error)
    ensures Fails(config, s, [MarkRunning(p, Some(error))], p, s.procs[p].task, error)
    ensures Fails(config, s, [MarkRunning(p, None)] + rest, p, s.procs[p].task, error)
  {
    var task := s.procs[p].task;
    MarksOverwrite(s.books.rows, s.books.rows, task.id, Running, task.attempts, None);
    hide Fails, SameButMarks, WithMark;
    FailsNow(config, s, MarkRunning(p, Some(error)), p, error);
    FailsLater(config, s, MarkRunning(p, None), rest, p, error);
  }

  /** Wherever the work fails, the process ends up failing with the task it popped, and nothing but marks changed. */
  lemma FailsSomewhere(config: Config, s: State, p: nat, error: Failure, point: Point)
    requires p < |s.procs| && s.procs[p].Popped? && s.procs[p].task.id in s.books.handled
    ensures Fails(config, s, FailingActions(p, Some(error), point), p, s.procs[p].task, error)
  {
    var task := s.procs[p].task;
    var u := Next(config, s, MarkRunning(p, None));
    var late := if point == OnLastHeartbeat then [MarkSucceeded(p, None)] + [LastHeartbeat(p, Some(error))]
                else [MarkSucceeded(p, Some(error))];
    var handle := if point == OnHandle then [Handle(p, Some(error))] else [Handle(p, None)] + late;
    assert u.procs[p] == Started(task) && u.books.handled == s.books.handled;
    hide Fails, Next;
    forall v: State | p < |v.procs| && v.procs[p] == Handling(task)
      ensures Fails(config, v, handle, p, task, error)
    {
      FailFromHandling(config, v, p, error, late);
    }
    FailFromStarted(config, u, p, error, handle);
    var started := if point == OnHeartbeat then [Heartbeat(p, Some(error))] else [Heartbeat(p, None)] + handle;
    FailFromPopped(config, s, p, error, started);
  }

  lemma FirstTwo(config: Config, s: State, p: nat)
    requires p < |s.procs| && s.procs[p].Popped? && s.procs[p].task.id in s.books.handled
    ensures var task := s.procs[p].task;
            var u := Next(config, Next(config, s, MarkRunning(p, None)), Heartbeat(p, None));
            && Stored(u) == Stored(s).(rows := WithMark(s.books.rows, task.id, Running, task.attempts, None))
            && u.procs == s.procs[p := Handling(task)]
  {
    hide WithMark;
  }

  lemma NextTwo(config: Config, s: State, p: nat)
    requires p < |s.procs| && s.procs[p].Handling?
    ensures var task := s.procs[p].task;
            var u := Next(config, Next(config, s, Handle(p, None)), MarkSucceeded(p, None));
            Stored(u) == Stored(s).(rows := Succeeding(s.books.rows, task.id)) && u.procs == s.procs[p := Marked(task)]
  {
  }

  lemma LastOne(config: Config, s: State, p: nat)
    requires p < |s.procs| && s.procs[p].Marked?
    ensures var u := Next(config, s, LastHeartbeat(p, None)); Stored(u) == Stored(s) && u.procs == s.procs[p := Free]
  {
  }

  lemma SucceedsAlone(config: Config, s: State, p: nat)
    requires p < |s.procs| && s.procs[p].Popped? && s.procs[p].task.id in s.books.handled
    ensures var task := s.procs[p].task;
            var t := RunFrom(config, s, [MarkRunning(p, None), Heartbeat(p, None)]
                                        + ([Handle(p, None), MarkSucceeded(p, None)] + [LastHeartbeat(p, None)]));
            && Stored(t) == Stored(s)
                 .(rows := Succeeding(WithMark(s.books.rows, task.id, Running, task.attempts, None), task.id))
            && t.procs == s.procs[p := Free]
  {
    hide WithMark, Next, Succeeding, RunFrom;
    var u := Next(config, Next(config, s, MarkRunning(p, None)), Heartbeat(p, None));
    var v := Next(config, Next(config, u, Handle(p, None)), MarkSucceeded(p, None));
    FirstTwo(config, s, p);
    NextTwo(config, u, p);
    LastOne(config, v, p);
    RunTwo(config, s, MarkRunning(p, None), Heartbeat(p, None),
           [Handle(p, None), MarkSucceeded(p, None)] + [LastHeartbeat(p, None)]);
    RunTwo(config, u, Handle(p, None), MarkSucceeded(p, None), [LastHeartbeat(p, None)]);
    RunOne(config, v, LastHeartbeat(p, None), []);
    assert [LastHeartbeat(p, None)] + [] == [LastHeartbeat(p, None)];
    RunNothing(config, Next(config, v, LastHeartbeat(p, None)));
  }

  function WorkActions(p: nat, now: int, failure: Option<Failure>, point: Point): seq<Action> {
    if failure.None?
    then
      [MarkRunning(p, None), Heartbeat(p, None)]
      + ([Handle(p, None), MarkSucceeded(p, None)] + [LastHeartbeat(p, None)])
    else FailingActions(p, failure, point) + [Requeue(p), Give(p, now)]
  }

  /** Handling a popped task without interference, whatever fails on the way. */
  lemma WorksAlone(config: Config, s: State, p: nat, now: int, failure: Option<Failure>, point: Point)
    requires p < |s.procs| && s.procs[p].Popped? && s.procs[p].task.id in s.books.handled
    ensures var task := s.procs[p].task;
            var running := Stored(s).(rows := WithMark(s.books.rows, task.id, Running, task.attempts, None));
            var t := RunFrom(config, s, WorkActions(p, now, failure, point));
            && t.procs == s.procs[p := Free]
            && Stored(t) == if failure.None? then running.(rows := Succeeding(running.rows, task.id))
                            else Requeued(config, running, task, failure.value, now)
  {
    var task := s.procs[p].task;
    hide Next, Requeued, WithMark, FailingActions, SameButMarks, RunFrom;
    if failure.None? {
      SucceedsAlone(config, s, p);
    } else {
      var u := RunFrom(config, s, FailingActions(p, failure, point));
      FailsSomewhere(config, s, p, failure.value, point);
      RunFromConcat(config, s, FailingActions(p, failure, point), [Requeue(p), Give(p, now)]);
      FailAlone(config, u, p, now);
      RequeueOverwrites(config, Stored(u), s.books.rows, task, failure.value, now);
      RowsAreThemselves(s.books.rows, task.id);
      MarksOverwrite(s.books.rows, s.books.rows, task.id, Running, task.attempts, None);
      var running := Stored(s).(rows := WithMark(s.books.rows, task.id, Running, task.attempts, None));
      RequeueOverwrites(config, running, s.books.rows, task, failure.value, now);
    }
  }

  lemma RowsAreThemselves(rows: map<Id, Row>, id: Id)
    ensures SameButMarks(rows, rows, id)
  {
  }

  function TurnActions(config: Config, s: State, p: nat, now: int, failure: Option<Failure>,
                       point: Point): seq<Action> {
    var due := Due(s.delayed, now, PROMOTE_LIMIT);
    var work := if s.main + due == [] then [] else WorkActions(p, now, failure, point);
    [BeginPromote(p, now)] + (PromoteActions(p, |due|) + ([Pop(p)] + work))
  }

  /**
    A turn of the loop that nobody interferes with is exactly the turn of the
    service functions, wherever in it a failure comes from.
   */
  lemma UndisturbedTurn(config: Config, s: State, p: nat, now: int, failure: Option<Failure>, point: Point)
    requires p < |s.procs| && s.procs[p].Free? && InOrder(s.delayed)
    requires forall task | task in s.main + Due(s.delayed, now, PROMOTE_LIMIT) :: task.id in s.books.handled
    ensures var t := RunFrom(config, s, TurnActions(config, s, p, now, failure, point));
            Stored(t) == Turn(config, Stored(s), now, failure) && t.procs == s.procs
  {
    hide InOrder, Due, WorkActions, RunFrom, Next, PromoteActions, At, Turn;
    var due := Due(s.delayed, now, PROMOTE_LIMIT);
    var queue := s.main + due;
    var work := if queue == [] then [] else WorkActions(p, now, failure, point);
    var promoted := At(s, p, Waiting).(main := queue, delayed := s.delayed[|due|..]);
    PromotesAlone(config, s, p, now, [Pop(p)] + work);
    RunOne(config, promoted, Pop(p), work);
    PopsAndWorks(config, s, p, now, failure, point);
  }

  /** The first part of the turn: what is due joins the queue. */
  lemma PromotesAlone(config: Config, s: State, p: nat, now: int, rest: seq<Action>)
    requires p < |s.procs| && s.procs[p].Free? && InOrder(s.delayed)
    ensures var due := Due(s.delayed, now, PROMOTE_LIMIT);
            RunFrom(config, s, [BeginPromote(p, now)] + (PromoteActions(p, |due|) + rest)) ==
              RunFrom(config, At(s, p, Waiting).(main := s.main + due, delayed := s.delayed[|due|..]), rest)
  {
    var due := Due(s.delayed, now, PROMOTE_LIMIT);
    Begins(config, s, p, now);
    DueIsAPrefix(s.delayed, now, PROMOTE_LIMIT);
    hide InOrder, Due, RunFrom, Next, PromoteActions, At;
    var begun := Next(config, s, BeginPromote(p, now));
    RunOne(config, s, BeginPromote(p, now), PromoteActions(p, |due|) + rest);
    RunFromConcat(config, begun, PromoteActions(p, |due|), rest);
    PromoteAll(config, begun, p, due);
  }

  /** The second part: the head of the queue, if there is one, is handled. */
  lemma PopsAndWorks(config: Config, s: State, p: nat, now: int, failure: Option<Failure>, point: Point)
    requires p < |s.procs| && s.procs[p].Free?
    requires forall task | task in s.main + Due(s.delayed, now, PROMOTE_LIMIT) :: task.id in s.books.handled
    ensures var due := Due(s.delayed, now, PROMOTE_LIMIT);
            var queue := s.main + due;
            var work := if queue == [] then [] else WorkActions(p, now, failure, point);
            var promoted := At(s, p, Waiting).(main := queue, delayed := s.delayed[|due|..]);
            var t := RunFrom(config, Next(config, promoted, Pop(p)), work);
            Stored(t) == Turn(config, Stored(s), now, failure) && t.procs == s.procs
  {
    hide Due, Requeued, WithMark, WorkActions, RunFrom, Succeeding, Next, At, Turn;
    var due := Due(s.delayed, now, PROMOTE_LIMIT);
    var queue := s.main + due;
    var popped := Next(config, At(s, p, Waiting).(main := queue, delayed := s.delayed[|due|..]), Pop(p));
    Pops(config, s, p, now);
    TurnUnfolds(config, Stored(s), now, failure);
    if queue == [] {
      RunNothing(config, popped);
    } else {
      assert queue[0] in queue;
      WorksAlone(config, popped, p, now, failure, point);
    }
  }

  lemma Begins(config: Config, s: State, p: nat, now: int)
    requires p < |s.procs| && s.procs[p].Free?
    ensures var due := Due(s.delayed, now, PROMOTE_LIMIT);
            var begun := Next(config, s, BeginPromote(p, now));
            && begun == s.(procs := s.procs[p := Promoting(due)])
            && At(begun, p, Waiting).(main := s.main + due, delayed := s.delayed[|due|..])
                 == At(s, p, Waiting).(main := s.main + due, delayed := s.delayed[|due|..])
  {
    hide Due;
  }

  lemma Pops(config: Config, s: State, p: nat, now: int)
    requires p < |s.procs| && s.procs[p].Free?
    ensures var due := Due(s.delayed, now, PROMOTE_LIMIT);
            var queue := s.main + due;
            var promoted := At(s, p, Waiting).(main := queue, delayed := s.delayed[|due|..]);
            var popped := Next(config, promoted, Pop(p));
            && popped.books == s.books && popped.delayed == promoted.delayed && popped.dead == s.dead
            && (queue == [] ==> popped.procs == s.procs && popped.main == [])
            && (queue != [] ==> popped.procs == s.procs[p := Popped(queue[0])] && popped.main == queue[1..]
                                && popped.procs[p := Free] == s.procs)
  {
    hide Due;
    assert s.procs[p := Waiting][p := Free] == s.procs;
  }

  lemma TurnUnfolds(config: Config, st: Store, now: int, failure: Option<Failure>)
    ensures var due := Due(st.delayed, now, PROMOTE_LIMIT);
            var queue, rest := st.main + due, st.delayed[|due|..];
            Turn(config, st, now, failure) ==
              if queue == [] then Store([], rest, st.dead, st.rows)
              else
                var head := queue[0];
                var marked := WithMark(st.rows, head.id, Running, head.attempts, None);
                var running := Store(queue[1..], rest, st.dead, marked);
                if failure.None? then running.(rows := Succeeding(running.rows, head.id))
                else Requeued(config, running, head, failure.value, now)
  {
    hide Due, Requeued, WithMark, Succeeding;
  }

  lemma RunNothing(config: Config, s: State)
    ensures RunFrom(config, s, []) == s
  {
  }

  lemma StepKeepsOrder(config: Config, s: State, a: Action)
    requires InOrder(s.delayed)
    ensures InOrder(Next(config, s, a).delayed)
  {
    forall task, score ensures InOrder(ZAdd(s.delayed, task, score)) {
      ZAddKeepsOrder(s.delayed, task, score);
    }
    forall task ensures InOrder(Without(s.delayed, task)) {
      WithoutKeepsOrder(s.delayed, task);
    }
    hide InOrder, ZAdd, Without, IsMember, Due, WithMark, Retries, Redacted, Issued;
  }

  /** The delayed set stays in score order, without duplicates, under every interleaving. */
  lemma {:induction false} RunKeepsOrder(config: Config, workers: nat, actions: seq<Action>)
    ensures InOrder(Run(config, workers, actions).delayed)
    decreases |actions|
  {
    if actions != [] {
      hide Next, InOrder;
      RunKeepsOrder(config, workers, actions[..|actions| - 1]);
      StepKeepsOrder(config, Run(config, workers, actions[..|actions| - 1]), actions[|actions| - 1]);
    }
  }

  /** From every reachable state, a free process left alone makes exactly the turn of the service functions. */
  lemma ReachableTurn(config: Config, workers: nat, actions: seq<Action>, p: nat, now: int, failure: Option<Failure>,
                      point: Point)
    requires var s := Run(config, workers, actions); p < |s.procs| && s.procs[p].Free?
    ensures var s := Run(config, workers, actions);
            var t := RunFrom(config, s, TurnActions(config, s, p, now, failure, point));
            Stored(t) == Turn(config, Stored(s), now, failure) && t.procs == s.procs
  {
    var s := Run(config, workers, actions);
    RunKeepsOrder(config, workers, actions);
    DueIsAPrefix(s.delayed, now, PROMOTE_LIMIT);
    hide Run, InOrder, Due, TurnActions, Turn, Holdings;
    forall task | task in s.main + Due(s.delayed, now, PROMOTE_LIMIT)
      ensures task.id in s.books.handled
    {
      WaitingIsKnown(config, workers, actions, task);
    }
    UndisturbedTurn(config, s, p, now, failure, point);
  }

  lemma WaitingIsKnown(config: Config, workers: nat, actions: seq<Action>, task: Envelope)
    requires var s := Run(config, workers, actions); task in s.main || IsMember(s.delayed, task)
    ensures task.id in Run(config, workers, actions).books.handled
  {
    var s := Run(config, workers, actions);
    var h := Holding(task, if task in s.main then AtMain else AtDelayed);
    hide Run, Holdings;
    TaskResults.HoldingIsInItsPlace(s, h);
    TaskResults.RunIsOk(config, workers, actions, h);
  }
}

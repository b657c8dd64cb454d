/**
  Producers and N workers sharing the task queue, interleaved at every Redis and
  database operation. A task is in one of the Redis collections or in the hand of
  one process; the machine says what each single operation does to it.

  Outside the model: a process crash, Redis refusing a queue operation, and the
  database refusing to commit the record that announces a retry or a dead task.
 */
module TaskMachine {
  import opened Options
  import opened TaskQueue

  /** Where a process stands, and the task it holds there. */
  datatype Process =
    | Free
    | Enqueuing(task: Envelope, delay: int)
    | Promoting(pending: seq<Envelope>)
    | Carrying(task: Envelope, pending: seq<Envelope>)
    | Waiting
    | Popped(task: Envelope)
    | Started(task: Envelope)
    | Handling(task: Envelope)
    | Handled(task: Envelope)
    | Marked(task: Envelope)
    | Failing(task: Envelope, error: Failure)
    | Requeuing(task: Envelope)
    | Burying(task: Envelope)
  {
    predicate Holds() {
      !Free? && !Promoting? && !Waiting?
    }
  }

  /** What is written down about tasks: records, the envelopes as issued, and how often each was handled. */
  datatype Books = Books(rows: map<Id, Row>, original: map<Id, Envelope>, handled: map<Id, nat>)

  datatype State = State(main: seq<Envelope>, delayed: seq<Entry>, dead: seq<Envelope>, done: seq<Envelope>,
                         procs: seq<Process>, books: Books)

  datatype Action =
    | Enqueue(p: nat, id: Id, kind: string, payload: Payload, delay: int, tracked: bool)
    | Push(p: nat, now: int)
    | BeginPromote(p: nat, now: int)
    | PromoteNext(p: nat)
    | PromotePush(p: nat)
    | Pop(p: nat)
    | MarkRunning(p: nat, failure: Option<Failure>)
    | Heartbeat(p: nat, failure: Option<Failure>)
    | Handle(p: nat, failure: Option<Failure>)
    | MarkSucceeded(p: nat, failure: Option<Failure>)
    | LastHeartbeat(p: nat, failure: Option<Failure>)
    | Requeue(p: nat)
    | Give(p: nat, now: int)

  function At(s: State, p: nat, proc: Process): State {
    if p < |s.procs| then s.(procs := s.procs[p := proc]) else s
  }

  function Mark(b: Books, id: Id, status: Status, attempts: int, error: Option<string>): Books {
    b.(rows := WithMark(b.rows, id, status, attempts, error))
  }

  /** push_task */
  function PushTo(s: State, task: Envelope, delay: int, now: int): State {
    if delay > 0 then s.(delayed := ZAdd(s.delayed, task, now + delay)) else s.(main := s.main + [task])
  }

  function Issued(config: Config, b: Books, task: Envelope, delay: int, tracked: bool): Books {
    Books(if tracked then b.rows[task.id := Row(if delay > 0 then Delayed else Queued, StoredPayload(task.payload), 0,
                                                task.maxAttempts, None)]
          else b.rows,
          b.original[task.id := task], b.handled[task.id := 0])
  }

  /** One operation of one process. An action that is not next for its process does nothing. */
  function Next(config: Config, s: State, a: Action): State {
    if a.p >= |s.procs| then s
    else match (a, s.procs[a.p])
    case (Enqueue(p, id, kind, payload, delay, tracked), Free) =>
      if id in s.books.original || id in s.books.rows then s
      else
        var task := CreateEnvelope(config, id, kind, payload);
        At(s, p, Enqueuing(task, delay)).(books := Issued(config, s.books, task, delay, tracked))
    case (Push(p, now), Enqueuing(task, delay)) => PushTo(At(s, p, Free), task, delay, now)
    case (BeginPromote(p, now), Free) => At(s, p, Promoting(Due(s.delayed, now, PROMOTE_LIMIT)))
    case (PromoteNext(p), Promoting(pending)) =>
      if pending == [] then At(s, p, Waiting)
      else if IsMember(s.delayed, pending[0])
      then At(s, p, Carrying(pending[0], pending[1..])).(delayed := Without(s.delayed, pending[0]))
      else At(s, p, Promoting(pending[1..]))
    case (PromotePush(p), Carrying(task, pending)) => At(s, p, Promoting(pending)).(main := s.main + [task])
    case (Pop(p), Waiting) =>
      if s.main == [] then At(s, p, Free) else At(s, p, Popped(s.main[0])).(main := s.main[1..])
    case (MarkRunning(p, failure), Popped(task)) =>
      if failure.Some? then At(s, p, Failing(task, failure.value))
      else At(s, p, Started(task)).(books := Mark(s.books, task.id, Running, task.attempts, None))
    case (Heartbeat(p, failure), Started(task)) =>
      if failure.Some? then At(s, p, Failing(task, failure.value))
      else if task.id in s.books.handled
      then
        var times := s.books.handled[task.id] + 1;
        At(s, p, Handling(task)).(books := s.books.(handled := s.books.handled[task.id := times]))
      else s
    case (Handle(p, failure), Handling(task)) =>
      if failure.Some? then At(s, p, Failing(task, failure.value)) else At(s, p, Handled(task))
    case (MarkSucceeded(p, failure), Handled(task)) =>
      if failure.Some? then At(s, p, Failing(task, failure.value))
      else At(s, p, Marked(task)).(books := s.books.(rows := Succeeding(s.books.rows, task.id)))
    case (LastHeartbeat(p, failure), Marked(task)) =>
      if failure.Some? then At(s, p, Failing(task, failure.value))
      else At(s, p, Free).(done := s.done + [task])
    case (Requeue(p), Failing(task, error)) =>
      var failed := Failed(task, error);
      if Retries(config, task, error)
      then At(s, p, Requeuing(failed)).(books := Mark(s.books, task.id, Retrying, failed.attempts, failed.lastError))
      else At(s, p, Burying(failed)).(books := Mark(s.books, task.id, Dead, failed.attempts, failed.lastError))
    case (Give(p, now), Requeuing(task)) => PushTo(At(s, p, Free), task, config.retryDelay, now)
    case (Give(p, _), Burying(task)) => At(s, p, Free).(dead := s.dead + [Redacted(task)])
    case _ => s
  }

  function Start(workers: nat): State {
    State([], [], [], [], seq(workers, _ => Free), Books(map[], map[], map[]))
  }

  /** The state after any interleaving of operations. */
  function Run(config: Config, workers: nat, actions: seq<Action>): State {
    if actions == [] then Start(workers)
    else Next(config, Run(config, workers, actions[..|actions| - 1]), actions[|actions| - 1])
  }

  // ---- Who holds what ----

  datatype Place = AtMain | AtDelayed | AtDead | AtDone | InHand(p: nat, proc: Process)

  datatype Holding = Holding(task: Envelope, place: Place)

  function Tagged(tasks: seq<Envelope>, place: Place): multiset<Holding> {
    if tasks == [] then multiset{} else multiset{Holding(tasks[0], place)} + Tagged(tasks[1..], place)
  }

  function TaggedEntries(z: seq<Entry>): multiset<Holding> {
    if z == [] then multiset{} else multiset{Holding(z[0].task, AtDelayed)} + TaggedEntries(z[1..])
  }

  function HeldBy(p: nat, proc: Process): multiset<Holding> {
    if proc.Holds() then multiset{Holding(proc.task, InHand(p, proc))} else multiset{}
  }

  function InHands(procs: seq<Process>): multiset<Holding> {
    if procs == [] then multiset{}
    else InHands(procs[..|procs| - 1]) + HeldBy(|procs| - 1, procs[|procs| - 1])
  }

  /** Every task held anywhere, with its holder. */
  function Holdings(s: State): multiset<Holding> {
    Tagged(s.main, AtMain) + TaggedEntries(s.delayed) + Tagged(s.dead, AtDead)
    + Tagged(s.done, AtDone) + InHands(s.procs)
  }

  lemma {:induction false} TaggedAppend(tasks: seq<Envelope>, task: Envelope, place: Place)
    ensures Tagged(tasks + [task], place) == Tagged(tasks, place) + multiset{Holding(task, place)}
  {
    if tasks != [] {
      assert (tasks + [task])[1..] == tasks[1..] + [task];
      TaggedAppend(tasks[1..], task, place);
    }
  }

  lemma {:induction false} TaggedInsert(z: seq<Entry>, e: Entry)
    ensures TaggedEntries(Insert(z, e)) == TaggedEntries(z) + multiset{Holding(e.task, AtDelayed)}
  {
    if z == [] || e.score < z[0].score {
      assert ([e] + z)[1..] == z;
    } else {
      TaggedInsert(z[1..], e);
      assert ([z[0]] + Insert(z[1..], e))[1..] == Insert(z[1..], e);
    }
  }

  lemma DropOne<T>(x: T, rest: multiset<T>, h: T)
    ensures (multiset{x} + rest)[h := 0] == (if x == h then multiset{} else multiset{x}) + rest[h := 0]
  {
  }

  lemma {:induction false} TaggedWithout(z: seq<Entry>, task: Envelope)
    ensures TaggedEntries(Without(z, task)) == TaggedEntries(z)[Holding(task, AtDelayed) := 0]
  {
    if z != [] {
      var h, rest := Holding(z[0].task, AtDelayed), Without(z[1..], task);
      TaggedWithout(z[1..], task);
      DropOne(h, TaggedEntries(z[1..]), Holding(task, AtDelayed));
      if z[0].task == task {
        assert Without(z, task) == rest;
        assert multiset{} + TaggedEntries(rest) == TaggedEntries(rest);
      } else {
        assert Without(z, task) == [z[0]] + rest;
        assert ([z[0]] + rest)[1..] == rest;
      }
    }
  }

  lemma MemberOfTail(z: seq<Entry>, task: Envelope)
    requires z != []
    ensures IsMember(z, task) <==> z[0].task == task || IsMember(z[1..], task)
  {
    if IsMember(z[1..], task) {
      var i :| 0 <= i < |z[1..]| && z[1..][i].task == task;
      assert z[i + 1].task == task;
    }
    if IsMember(z, task) && z[0].task != task {
      var i :| 0 <= i < |z| && z[i].task == task;
      assert z[1..][i - 1].task == task;
    }
  }

  lemma {:induction false} TaggedMember(z: seq<Entry>, task: Envelope)
    ensures IsMember(z, task) <==> Holding(task, AtDelayed) in TaggedEntries(z)
  {
    if z != [] {
      hide IsMember;
      MemberOfTail(z, task);
      TaggedMember(z[1..], task);
    }
  }

  /** What the processes other than p hold. */
  function OthersHold(procs: seq<Process>, p: nat): multiset<Holding>
    requires p < |procs|
  {
    var n := |procs| - 1;
    if p == n then InHands(procs[..n]) else OthersHold(procs[..n], p) + HeldBy(n, procs[n])
  }

  lemma {:induction false} InHandsSplit(procs: seq<Process>, p: nat, proc: Process)
    requires p < |procs|
    ensures InHands(procs) == OthersHold(procs, p) + HeldBy(p, procs[p])
    ensures InHands(procs[p := proc]) == OthersHold(procs, p) + HeldBy(p, proc)
    decreases |procs|
  {
    var n := |procs| - 1;
    hide HeldBy;
    if p == n {
      assert procs[p := proc][..n] == procs[..n];
    } else {
      InHandsSplit(procs[..n], p, proc);
      assert procs[p := proc][..n] == procs[..n][p := proc];
    }
  }
}

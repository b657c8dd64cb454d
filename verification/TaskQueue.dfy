/**
  The Redis-backed task queue: the envelope, its redaction, the three Redis
  collections, and the service functions run one at a time. The interleaving of
  many workers is in TaskMachine.
 */
module TaskQueue {
  import opened Options

  type Id = string

  /** A JSON value inside a payload. */
  datatype Field = Null | Text(text: string) | Flag(on: bool) | Names(names: seq<string>)

  type Payload = map<string, Field>

  datatype Envelope = Envelope(id: Id, kind: string, payload: Payload, attempts: int, maxAttempts: int,
      lastError: Option<string>)

  datatype Failure = Failure(message: string, retryable: bool)

  datatype Status = Queued | Delayed | Running | Retrying | Succeeded | Dead

  /** The persistent record of a task. */
  datatype Row = Row(status: Status, payload: Payload, attempts: int, maxAttempts: int, lastError: Option<string>)

  datatype Config = Config(settingsMax: int, runtimeMax: int, retryDelay: int)

  // ---- Envelopes ----

  /** Python's `a or b` on integers. */
  function OrElse(a: int, b: int): int {
    if a != 0 then a else b
  }

  function CreateEnvelope(config: Config, id: Id, kind: string, payload: Payload): Envelope {
    Envelope(id, kind, payload, 0, OrElse(config.runtimeMax, config.settingsMax), None)
  }

  const TOKEN := "temporary_token"
  const TOKEN_PRESENT := "temporary_token_present"

  predicate Truthy(f: Field) {
    match f
    case Null => false
    case Text(t) => t != ""
    case Flag(on) => on
    case Names(ns) => ns != []
  }

  /** _redacted_task */
  function Redacted(task: Envelope): Envelope {
    if TOKEN !in task.payload then task
    else task.(payload := (task.payload - {TOKEN})[TOKEN_PRESENT := Flag(true)])
  }

  /** stored_payload */
  function StoredPayload(payload: Payload): Payload {
    var kept := payload - {TOKEN};
    if TOKEN in payload && Truthy(payload[TOKEN]) then kept[TOKEN_PRESENT := Flag(true)] else kept
  }

  /** The token never survives redaction; every other field does. */
  lemma RedactionRemovesOnlyTheToken(task: Envelope)
    ensures TOKEN !in Redacted(task).payload && TOKEN !in StoredPayload(task.payload).Keys
    ensures forall k | k != TOKEN && k != TOKEN_PRESENT ::
              (k in Redacted(task).payload <==> k in task.payload) &&
              (k in StoredPayload(task.payload) <==> k in task.payload) &&
              (k in task.payload ==> Redacted(task).payload[k] == task.payload[k] == StoredPayload(task.payload)[k])
    ensures Redacted(Redacted(task)) == Redacted(task) && Redacted(task) == task.(payload := Redacted(task).payload)
    ensures TOKEN in task.payload ==>
              TOKEN_PRESENT in Redacted(task).payload && Redacted(task).payload[TOKEN_PRESENT] == Flag(true)
    ensures TOKEN !in task.payload ==> Redacted(task) == task && StoredPayload(task.payload) == task.payload
    ensures TOKEN in task.payload && task.payload[TOKEN] in {Null, Text(""), Flag(false), Names([])} ==>
              StoredPayload(task.payload) == map k | k in task.payload && k != TOKEN :: task.payload[k]
    ensures TOKEN in task.payload && task.payload[TOKEN] !in {Null, Text(""), Flag(false), Names([])} ==>
              TOKEN_PRESENT in StoredPayload(task.payload)
              && StoredPayload(task.payload)[TOKEN_PRESENT] == Flag(true)
  {
  }

  /** The number of attempts the code allows: the envelope's own limit, else the configured one. */
  function Limit(config: Config, task: Envelope): int {
    OrElse(task.maxAttempts, config.runtimeMax)
  }

  // ---- The sorted set of delayed tasks ----

  datatype Entry = Entry(score: int, task: Envelope)

  function Without(z: seq<Entry>, task: Envelope): seq<Entry> {
    if z == [] then [] else (if z[0].task == task then [] else [z[0]]) + Without(z[1..], task)
  }

  function Insert(z: seq<Entry>, e: Entry): seq<Entry> {
    if z == [] || e.score < z[0].score then [e] + z else [z[0]] + Insert(z[1..], e)
  }

  function ZAdd(z: seq<Entry>, task: Envelope, score: int): seq<Entry> {
    Insert(Without(z, task), Entry(score, task))
  }

  predicate IsMember(z: seq<Entry>, task: Envelope) {
    exists i | 0 <= i < |z| :: z[i].task == task
  }

  /** ZRANGEBYSCORE 0 now LIMIT 0 limit, on a set kept in score order. */
  function Due(z: seq<Entry>, now: int, limit: nat): (due: seq<Envelope>)
    ensures |due| <= |z| && |due| <= limit
  {
    if limit == 0 || z == [] || z[0].score > now then [] else [z[0].task] + Due(z[1..], now, limit - 1)
  }

  ghost predicate InScoreOrder(z: seq<Entry>) {
    forall i, j | 0 <= i < j < |z| :: z[i].score <= z[j].score
  }

  ghost predicate DistinctMembers(z: seq<Entry>) {
    forall i, j | 0 <= i < j < |z| :: z[i].task != z[j].task
  }

  ghost predicate InOrder(z: seq<Entry>) {
    InScoreOrder(z) && DistinctMembers(z)
  }

  lemma HeadIsLeast(z: seq<Entry>)
    requires z != [] && InOrder(z)
    ensures InOrder(z[1..])
    ensures forall x | x in z[1..] :: z[0].score <= x.score && x.task != z[0].task
  {
  }

  lemma ConsKeepsOrder(e: Entry, z: seq<Entry>)
    requires InOrder(z) && forall x | x in z :: e.score <= x.score && x.task != e.task
    ensures InOrder([e] + z)
  {
    var w := [e] + z;
    forall i, j | 0 <= i < j < |w|
      ensures w[i].score <= w[j].score && w[i].task != w[j].task
    {
      assert w[j] in z;
    }
  }

  lemma {:induction false} WithoutKeepsOrder(z: seq<Entry>, task: Envelope)
    requires InOrder(z)
    ensures InOrder(Without(z, task))
    ensures forall e :: e in Without(z, task) <==> e in z && e.task != task
    ensures !IsMember(z, task) ==> Without(z, task) == z
  {
    if z != [] {
      HeadIsLeast(z);
      WithoutKeepsOrder(z[1..], task);
      assert z == [z[0]] + z[1..];
      if z[0].task != task {
        ConsKeepsOrder(z[0], Without(z[1..], task));
      }
      if !IsMember(z, task) {
        forall i | 0 <= i < |z[1..]| ensures z[1..][i].task != task {
          assert z[1..][i] == z[i + 1];
        }
      }
    }
  }

  lemma {:induction false} InsertKeepsOrder(z: seq<Entry>, e: Entry)
    requires InOrder(z) && forall x | x in z :: x.task != e.task
    ensures InOrder(Insert(z, e))
    ensures forall x :: x in Insert(z, e) <==> x in z || x == e
  {
    if z == [] || e.score < z[0].score {
      if z != [] {
        HeadIsLeast(z);
      }
      assert z != [] ==> z == [z[0]] + z[1..];
      ConsKeepsOrder(e, z);
    } else {
      HeadIsLeast(z);
      assert z == [z[0]] + z[1..];
      InsertKeepsOrder(z[1..], e);
      ConsKeepsOrder(z[0], Insert(z[1..], e));
    }
  }

  /** Adding keeps the set ordered and its members distinct, and moves an old member. */
  lemma ZAddKeepsOrder(z: seq<Entry>, task: Envelope, score: int)
    requires InOrder(z)
    ensures InOrder(ZAdd(z, task, score))
    ensures forall x :: x in ZAdd(z, task, score) <==> x == Entry(score, task) || (x in z && x.task != task)
  {
    WithoutKeepsOrder(z, task);
    InsertKeepsOrder(Without(z, task), Entry(score, task));
  }

  /** What is due is exactly the oldest part of the set, up to the limit. */
  lemma {:induction false} DueIsAPrefix(z: seq<Entry>, now: int, limit: nat)
    requires InScoreOrder(z)
    ensures |Due(z, now, limit)| <= |z| && |Due(z, now, limit)| <= limit
    ensures forall i | 0 <= i < |Due(z, now, limit)| :: Due(z, now, limit)[i] == z[i].task && z[i].score <= now
    ensures |Due(z, now, limit)| < limit ==> forall i | |Due(z, now, limit)| <= i < |z| :: z[i].score > now
    decreases limit
  {
    if limit > 0 && z != [] && z[0].score <= now {
      DueIsAPrefix(z[1..], now, limit - 1);
    }
  }

  function WithMark(rows: map<Id, Row>, id: Id, status: Status, attempts: int, error: Option<string>): map<Id, Row> {
    if id in rows then rows[id := rows[id].(status := status, attempts := attempts, lastError := error)] else rows
  }

  // ---- One turn of a worker, on the stored state ----

  datatype Store = Store(main: seq<Envelope>, delayed: seq<Entry>, dead: seq<Envelope>, rows: map<Id, Row>)

  const PROMOTE_LIMIT := 100

  function Failed(task: Envelope, error: Failure): Envelope {
    task.(attempts := task.attempts + 1, lastError := Some(error.message))
  }

  predicate Retries(config: Config, task: Envelope, error: Failure) {
    error.retryable && task.attempts + 1 < Limit(config, task)
  }

  function Pushed(st: Store, task: Envelope, delay: int, now: int): Store {
    if delay > 0 then st.(delayed := ZAdd(st.delayed, task, now + delay)) else st.(main := st.main + [task])
  }

  function Requeued(config: Config, st: Store, task: Envelope, error: Failure, now: int): Store {
    var failed := Failed(task, error);
    if Retries(config, task, error)
    then Pushed(st.(rows := WithMark(st.rows, task.id, Retrying, failed.attempts, failed.lastError)),
                failed, config.retryDelay, now)
    else st.(rows := WithMark(st.rows, task.id, Dead, failed.attempts, failed.lastError),
        dead := st.dead + [Redacted(failed)])
  }

  /**
    A failed task goes to exactly one place: back, payload and all, while attempts
    remain, else to the dead list without its token.
   */
  lemma RequeuedGoesOnePlace(config: Config, st: Store, task: Envelope, error: Failure, now: int)
    ensures var t, failed := Requeued(config, st, task, error, now), Failed(task, error);
            var limit := if task.maxAttempts != 0 then task.maxAttempts else config.runtimeMax;
            && failed == task.(attempts := task.attempts + 1, lastError := Some(error.message))
            && t.rows.Keys == st.rows.Keys && (forall id | id in st.rows && id != task.id :: t.rows[id] == st.rows[id])
            && (task.id in st.rows ==>
                  t.rows[task.id] == st.rows[task.id].(status := t.rows[task.id].status, attempts := failed.attempts,
                                                       lastError := Some(error.message)))
            && if error.retryable && failed.attempts < limit
               then (task.id in st.rows ==> t.rows[task.id].status == Retrying) && t.dead == st.dead
                    && (config.retryDelay > 0 ==>
                          t.main == st.main && Entry(now + config.retryDelay, failed) in t.delayed)
                    && (config.retryDelay <= 0 ==> t.delayed == st.delayed && t.main == st.main + [failed])
               else (task.id in st.rows ==> t.rows[task.id].status == Dead)
                    && t.main == st.main && t.delayed == st.delayed && |t.dead| == |st.dead| + 1 && st.dead < t.dead
                    && TOKEN !in t.dead[|st.dead|].payload
                    && t.dead[|st.dead|] == failed.(payload := t.dead[|st.dead|].payload)
  {
    var failed := Failed(task, error);
    InsertedIsThere(Without(st.delayed, failed), Entry(now + config.retryDelay, failed));
    hide Insert, Without;
  }

  lemma {:induction false} InsertedIsThere(z: seq<Entry>, e: Entry)
    ensures e in Insert(z, e)
  {
    if z != [] && e.score >= z[0].score {
      InsertedIsThere(z[1..], e);
    }
  }

  function Succeeding(rows: map<Id, Row>, id: Id): map<Id, Row> {
    if id in rows then rows[id := rows[id].(status := Succeeded)] else rows
  }

  /** What is due joins the queue; the head of the queue is handled, and a failure sends it back or buries it. */
  function Turn(config: Config, st: Store, now: int, failure: Option<Failure>): Store {
    var due := Due(st.delayed, now, PROMOTE_LIMIT);
    var promoted := st.(main := st.main + due, delayed := st.delayed[|due|..]);
    if promoted.main == [] then promoted
    else
      var head := promoted.main[0];
      var marked := WithMark(st.rows, head.id, Running, head.attempts, None);
      var running := promoted.(main := promoted.main[1..], rows := marked);
      if failure.None? then running.(rows := Succeeding(running.rows, head.id))
      else Requeued(config, running, head, failure.value, now)
  }

  // ---- The service functions, run without interference ----

  class Queues {
    const config: Config
    var main: seq<Envelope>
    var delayed: seq<Entry>
    var dead: seq<Envelope>
    var rows: map<Id, Row>

    ghost predicate Valid()
      reads this
    {
      InOrder(delayed)
    }

    function Contents(): Store
      reads this
    {
      Store(main, delayed, dead, rows)
    }

    constructor (config: Config)
      ensures Valid() && main == [] && delayed == [] && dead == [] && rows == map[] && this.config == config
    {
      this.config := config;
      main, delayed, dead, rows := [], [], [], map[];
    }

    method PushTask(task: Envelope, delaySeconds: int, now: int)
      requires Valid()
      modifies this`main, this`delayed
      ensures Valid()
      ensures Contents() == Pushed(old(Contents()), task, delaySeconds, now)
    {
      if delaySeconds > 0 {
        ZAddKeepsOrder(delayed, task, now + delaySeconds);
        delayed := ZAdd(delayed, task, now + delaySeconds);
        return;
      }
      main := main + [task];
    }

    /** Alone, a promotion moves the due prefix to the main queue, in order, and nothing else. */
    method PromoteDueTasks(now: int, limit: nat) returns (promoted: nat)
      requires Valid()
      modifies this`main, this`delayed
      ensures Valid()
      ensures promoted == |Due(old(delayed), now, limit)| <= |old(delayed)|
      ensures main == old(main) + Due(old(delayed), now, limit)
      ensures delayed == old(delayed)[promoted..]
    {
      var rawTasks := Due(delayed, now, limit);
      DueIsAPrefix(delayed, now, limit);
      promoted := 0;
      for i := 0 to |rawTasks|
        invariant promoted == i && delayed == old(delayed)[i..]
        invariant main == old(main) + rawTasks[..i]
      {
        var raw := rawTasks[i];
        assert delayed[0].task == raw;
        var removed := ZRem(raw);
        if removed {
          main := main + [raw];
          promoted := promoted + 1;
        }
      }
    }

    method ZRem(task: Envelope) returns (removed: bool)
      requires Valid()
      modifies this`delayed
      ensures Valid()
      ensures removed <==> IsMember(old(delayed), task)
      ensures delayed == Without(old(delayed), task)
      ensures old(delayed) != [] && old(delayed)[0].task == task ==> delayed == old(delayed)[1..]
    {
      WithoutKeepsOrder(delayed, task);
      removed := IsMember(delayed, task);
      if delayed != [] && delayed[0].task == task {
        HeadIsLeast(delayed);
        WithoutKeepsOrder(delayed[1..], task);
        assert forall i | 0 <= i < |delayed[1..]| :: delayed[1..][i] in delayed[1..];
      }
      delayed := Without(delayed, task);
    }

    /** mark_task_running, mark_task_retrying and mark_task_dead differ only in what they write. */
    method MarkTask(id: Id, status: Status, attempts: int, error: Option<string>)
      modifies this`rows
      ensures rows == WithMark(old(rows), id, status, attempts, error)
    {
      if id in rows {
        rows := rows[id := rows[id].(status := status, attempts := attempts, lastError := error)];
      }
    }

    method MarkTaskSucceeded(id: Id)
      modifies this`rows
      ensures rows == Succeeding(old(rows), id)
    {
      if id in rows {
        rows := rows[id := rows[id].(status := Succeeded)];
      }
    }

    /**
      A failed task comes back with one more attempt and its payload unchanged,
      or goes to the dead list without its token; its record says which.
     */
    method RequeueTask(task: Envelope, error: Failure, now: int) returns (requeued: bool)
      requires Valid()
      modifies this
      ensures Valid()
      ensures var limit := if task.maxAttempts != 0 then task.maxAttempts else config.runtimeMax;
              requeued <==> error.retryable && task.attempts + 1 < limit
      ensures Contents() == Requeued(config, old(Contents()), task, error, now)
    {
      var failed := task.(attempts := task.attempts + 1, lastError := Some(error.message));
      if !error.retryable || failed.attempts >= Limit(config, failed) {
        MarkTask(failed.id, Dead, failed.attempts, Some(error.message));
        dead := dead + [Redacted(failed)];
        return false;
      }
      MarkTask(failed.id, Retrying, failed.attempts, Some(error.message));
      PushTask(failed, config.retryDelay, now);
      return true;
    }

    /**
      One turn of a worker that nobody interferes with; a failure may come from
      anywhere between popping the task and the last heartbeat.
     */
    method RunTurn(now: int, failure: Option<Failure>) returns (task: Option<Envelope>)
      requires Valid()
      modifies this
      ensures Valid()
      ensures Contents() == Turn(config, old(Contents()), now, failure)
      ensures var queue := old(main) + Due(old(delayed), now, PROMOTE_LIMIT);
              task == if queue == [] then None else Some(queue[0])
    {
      var promoted := PromoteDueTasks(now, PROMOTE_LIMIT);
      if main == [] {
        return None;
      }
      var head := main[0];
      task := Some(head);
      main := main[1..];
      MarkTask(head.id, Running, head.attempts, None);
      if failure.None? {
        MarkTaskSucceeded(head.id);
      } else {
        var requeued := RequeueTask(head, failure.value, now);
      }
    }
  }
}

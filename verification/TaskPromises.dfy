/**
  What the configuration promises for every interleaving: how many attempts a
  task gets, when a delayed task may run and when it must be picked up, in what
  order tasks move, and what each operation writes into the record. The
  statements use the configuration, the clock and the envelopes only.
 */
module TaskPromises {
  import opened Options
  import opened TaskQueue
  import opened TaskMachine
  import opened TaskSafety
  import opened TaskResults
  import opened TaskTurn

  // ---- Attempts ----

  /**
    A task fails for good exactly when its error is not retryable or the
    configured number of attempts is used up: the runtime setting, or the static
    one where that is zero. The record says which, how often and why.
   */
  lemma FailureIsRetriedOrBuried(config: Config, workers: nat, actions: seq<Action>, p: nat)
    requires var s := Run(config, workers, actions); p < |s.procs| && s.procs[p].Failing?
    ensures var allowed := if config.runtimeMax != 0 then config.runtimeMax else config.settingsMax;
            var s, t := Run(config, workers, actions), Run(config, workers, actions + [Requeue(p)]);
            var task, error := s.procs[p].task, s.procs[p].error;
            var again := error.retryable && task.attempts + 1 < allowed;
            && p < |t.procs| && (t.procs[p].Requeuing? <==> again) && (t.procs[p].Burying? <==> !again)
            && t.procs[p].task == task.(attempts := task.attempts + 1, lastError := Some(error.message))
            && t.books.rows.Keys == s.books.rows.Keys
            && (task.id in s.books.rows ==>
                  t.books.rows[task.id] == s.books.rows[task.id].(status := if again then Retrying else Dead,
                      attempts := task.attempts + 1, lastError := Some(error.message)))
  {
    var s := Run(config, workers, actions);
    hide Run, Holdings, Next, Limit;
    HoldingIsInItsPlace(s, InHandOf(s, p));
    LimitIsConfigured(config, workers, actions, InHandOf(s, p));
    RunMore(config, workers, actions, Requeue(p));
    FailureStep(config, s, p);
  }

  lemma FailureStep(config: Config, s: State, p: nat)
    requires p < |s.procs| && s.procs[p].Failing?
    ensures var t := Next(config, s, Requeue(p));
            var task, error := s.procs[p].task, s.procs[p].error;
            var again := error.retryable && task.attempts + 1 < Limit(config, task);
            var failed := task.(attempts := task.attempts + 1, lastError := Some(error.message));
            && p < |t.procs| && t.procs[p] == (if again then Requeuing(failed) else Burying(failed))
            && t.books.rows.Keys == s.books.rows.Keys
            && (task.id in s.books.rows ==>
                  t.books.rows[task.id] == s.books.rows[task.id].(status := if again then Retrying else Dead,
                      attempts := task.attempts + 1, lastError := Some(error.message)))
  {
    hide Limit;
  }

  /** What enqueueing a new task makes, in the process's hand and in the record. */
  lemma IssuedAsConfigured(config: Config, workers: nat, actions: seq<Action>, p: nat, id: Id, kind: string,
                           payload: Payload, delay: int, tracked: bool)
    requires var s := Run(config, workers, actions);
             p < |s.procs| && s.procs[p].Free? && id !in s.books.original
    ensures var allowed := if config.runtimeMax != 0 then config.runtimeMax else config.settingsMax;
            var s := Run(config, workers, actions);
            var t := Run(config, workers, actions + [Enqueue(p, id, kind, payload, delay, tracked)]);
            && p < |t.procs| && t.procs[p] == Enqueuing(Envelope(id, kind, payload, 0, allowed, None), delay)
            && (tracked ==>
                  && id in t.books.rows && TOKEN !in t.books.rows[id].payload
                  && t.books.rows[id] == Row(if delay > 0 then Delayed else Queued, t.books.rows[id].payload, 0,
                                             allowed, None)
                  && (forall k | k != TOKEN && k != TOKEN_PRESENT :: k in payload <==> k in t.books.rows[id].payload)
                  && (forall k | k in payload && k != TOKEN && k != TOKEN_PRESENT ::
                        t.books.rows[id].payload[k] == payload[k]))
            && (!tracked ==> t.books.rows == s.books.rows)
  {
    var s := Run(config, workers, actions);
    RunKeeps(config, workers, actions);
    KnownRows(config, s);
    RedactionRemovesOnlyTheToken(Envelope(id, kind, payload, 0, 0, None));
    hide Run, Inv, StoredPayload;
    RunMore(config, workers, actions, Enqueue(p, id, kind, payload, delay, tracked));
  }

  lemma OtherRecordsStay(config: Config, s: State, a: Action, id: Id)
    requires id in s.books.rows && !a.Enqueue?
    ensures Next(config, s, a).books.rows.Keys == s.books.rows.Keys
    ensures a.p >= |s.procs| || !s.procs[a.p].Holds() || s.procs[a.p].task.id != id ==>
              Next(config, s, a).books.rows[id] == s.books.rows[id]
  {
    hide ZAdd, Redacted, Retries, IsMember, Without, Due;
  }

  /** From its issue on a record changes only by the three marks of the process that holds its task, and so. */
  lemma RecordsFollowMarks(config: Config, s: State, a: Action, id: Id)
    requires id in s.books.rows && !a.Enqueue?
    ensures var rows, after := s.books.rows, Next(config, s, a).books.rows;
            id in after &&
            if a.p >= |s.procs| || !s.procs[a.p].Holds() || s.procs[a.p].task.id != id then after[id] == rows[id]
            else
              var task := s.procs[a.p].task;
              if a.MarkRunning? && a.failure.None? && s.procs[a.p].Popped?
              then after[id] == rows[id].(status := Running, attempts := task.attempts, lastError := None)
              else if a.MarkSucceeded? && a.failure.None? && s.procs[a.p].Handled?
              then after[id] == rows[id].(status := Succeeded)
              else if a.Requeue? && s.procs[a.p].Failing?
              then
                && after[id].status in {Retrying, Dead}
                && after[id] == rows[id].(status := after[id].status, attempts := task.attempts + 1,
                                          lastError := Some(s.procs[a.p].error.message))
              else after[id] == rows[id]
  {
    OtherRecordsStay(config, s, a, id);
    if a.p < |s.procs| && s.procs[a.p].Holds() && s.procs[a.p].task.id == id {
      hide ZAdd, Redacted, Retries, IsMember, Without, Due;
    } else {
      hide Next;
    }
  }

  /** A task counts as handled once more exactly when its process passes the heartbeat before the handler. */
  lemma HandlingsAreCounted(config: Config, s: State, a: Action, id: Id)
    requires id in s.books.handled && !a.Enqueue?
    ensures var handled, after := s.books.handled, Next(config, s, a).books.handled;
            var started := a.p < |s.procs| && s.procs[a.p].Started? && s.procs[a.p].task.id == id
                           && a.Heartbeat? && a.failure.None?;
            id in after && after[id] == if started then handled[id] + 1 else handled[id]
  {
    hide ZAdd, Redacted, Retries, IsMember, Without, Due, WithMark, Failed;
  }

  // ---- Where the operations put a task ----

  /** Handing a task in: at once to the end of the queue, or under the time at which its delay is over. */
  lemma HandedIn(config: Config, workers: nat, actions: seq<Action>, p: nat, now: int)
    requires var s := Run(config, workers, actions);
             p < |s.procs| && (s.procs[p].Enqueuing? || s.procs[p].Requeuing?)
    ensures var s := Run(config, workers, actions);
            var task := s.procs[p].task;
            var delay := if s.procs[p].Enqueuing? then s.procs[p].delay else config.retryDelay;
            var t := Run(config, workers, actions + [if s.procs[p].Enqueuing? then Push(p, now) else Give(p, now)]);
            && t.procs == s.procs[p := Free] && t.books == s.books
            && (delay <= 0 ==> t.main == s.main + [task] && t.delayed == s.delayed)
            && (delay > 0 ==> t.main == s.main && forall e ::
                  e in t.delayed <==> e == Entry(now + delay, task) || (e in s.delayed && e.task != task))
  {
    var s := Run(config, workers, actions);
    RunKeepsOrder(config, workers, actions);
    hide Run, InOrder, Next;
    RunMore(config, workers, actions, if s.procs[p].Enqueuing? then Push(p, now) else Give(p, now));
    HandsIn(config, s, p, now);
  }

  lemma HandInStep(config: Config, s: State, p: nat, now: int)
    requires p < |s.procs| && (s.procs[p].Enqueuing? || s.procs[p].Requeuing?)
    ensures var delay := if s.procs[p].Enqueuing? then s.procs[p].delay else config.retryDelay;
            Next(config, s, if s.procs[p].Enqueuing? then Push(p, now) else Give(p, now)) ==
              PushTo(s.(procs := s.procs[p := Free]), s.procs[p].task, delay, now)
  {
    hide PushTo;
    assert At(s, p, Free) == s.(procs := s.procs[p := Free]);
  }

  lemma HandsIn(config: Config, s: State, p: nat, now: int)
    requires p < |s.procs| && (s.procs[p].Enqueuing? || s.procs[p].Requeuing?) && InOrder(s.delayed)
    ensures var task := s.procs[p].task;
            var delay := if s.procs[p].Enqueuing? then s.procs[p].delay else config.retryDelay;
            var t := Next(config, s, if s.procs[p].Enqueuing? then Push(p, now) else Give(p, now));
            && t.procs == s.procs[p := Free] && t.books == s.books
            && (delay <= 0 ==> t.main == s.main + [task] && t.delayed == s.delayed)
            && (delay > 0 ==> t.main == s.main && forall e ::
                  e in t.delayed <==> e == Entry(now + delay, task) || (e in s.delayed && e.task != task))
  {
    hide InOrder, ZAdd, Next;
    HandInStep(config, s, p, now);
    var delay := if s.procs[p].Enqueuing? then s.procs[p].delay else config.retryDelay;
    ZAddKeepsOrder(s.delayed, s.procs[p].task, now + delay);
  }

  /** First in, first out; finished and failed tasks are set aside in order, the latter without the token. */
  lemma TasksMoveInOrder(config: Config, workers: nat, actions: seq<Action>, p: nat, now: int)
    requires p < |Run(config, workers, actions).procs|
    ensures var s := Run(config, workers, actions);
            && (s.procs[p].Waiting? && s.main != [] ==>
                  var t := Run(config, workers, actions + [Pop(p)]);
                  t.procs == s.procs[p := Popped(s.main[0])] && t.main == s.main[1..])
            && (s.procs[p].Carrying? ==>
                  var t := Run(config, workers, actions + [PromotePush(p)]);
                  t.procs == s.procs[p := Promoting(s.procs[p].pending)] && t.main == s.main + [s.procs[p].task])
            && (s.procs[p].Marked? ==>
                  var t := Run(config, workers, actions + [LastHeartbeat(p, None)]);
                  t.procs == s.procs[p := Free] && t.done == s.done + [s.procs[p].task])
            && (s.procs[p].Burying? ==>
                  var task, t := s.procs[p].task, Run(config, workers, actions + [Give(p, now)]);
                  && t.procs == s.procs[p := Free] && |t.dead| == |s.dead| + 1 && s.dead < t.dead
                  && TOKEN !in t.dead[|s.dead|].payload
                  && t.dead[|s.dead|] == task.(payload := t.dead[|s.dead|].payload))
  {
    hide Run;
    RunMore(config, workers, actions, Pop(p));
    RunMore(config, workers, actions, PromotePush(p));
    RunMore(config, workers, actions, LastHeartbeat(p, None));
    RunMore(config, workers, actions, Give(p, now));
  }

  // ---- Delays ----

  /** What a promoting process still means to move. */
  function Pending(proc: Process): seq<Envelope> {
    if proc.Promoting? || proc.Carrying? then proc.pending else []
  }

  /** A task on somebody's list has moved on at most since it was put there. */
  ghost predicate NoneAhead(config: Config, s: State, held: multiset<Holding>, q: Envelope) {
    && q.id in s.books.original
    && forall h | h in held && h.task.id == q.id :: Rank(config, h) <= Rank(config, Holding(q, AtDelayed))
  }

  ghost predicate ListsAreOld(config: Config, s: State) {
    forall p, q | 0 <= p < |s.procs| && q in Pending(s.procs[p]) :: NoneAhead(config, s, Holdings(s), q)
  }

  lemma WhoLists(config: Config, s: State, a: Action, p: nat, q: Envelope)
    requires p < |Next(config, s, a).procs| && q in Pending(Next(config, s, a).procs[p])
    ensures p < |s.procs|
    ensures q in Pending(s.procs[p]) || (a.BeginPromote? && q in Due(s.delayed, a.now, PROMOTE_LIMIT))
  {
    hide ZAdd, Redacted, Retries, WithMark, Failed, IsMember, Without, Due, Issued;
  }

  lemma DueIsHeld(s: State, now: int, limit: nat, q: Envelope)
    requires q in Due(s.delayed, now, limit) && InOrder(s.delayed)
    ensures Holding(q, AtDelayed) in Holdings(s)
    ensures exists e :: e in s.delayed && e.task == q && e.score <= now
  {
    DueIsAPrefix(s.delayed, now, limit);
    var i :| 0 <= i < |Due(s.delayed, now, limit)| && Due(s.delayed, now, limit)[i] == q;
    assert s.delayed[i] in s.delayed;
    hide Due, Holdings;
    HoldingIsInItsPlace(s, Holding(q, AtDelayed));
  }

  lemma ListedAreNoneAhead(config: Config, s: State, a: Action, q: Envelope)
    requires Inv(config, s) && Kept(config, s, Next(config, s, a)) && NoneAhead(config, s, Holdings(s), q)
    ensures NoneAhead(config, Next(config, s, a), Holdings(Next(config, s, a)), q)
  {
    hide Next, Holdings, Rank, Ok;
    var t := Next(config, s, a);
    forall k | k in Holdings(t) && k.task.id == q.id
      ensures Rank(config, k) <= Rank(config, Holding(q, AtDelayed))
    {
      assert IsHeld(Holdings(s), q.id);
      var h :| h in Holdings(s) && h.task.id == q.id;
      assert h == k || Falls(config, h, k);
    }
  }

  lemma DueAreNoneAhead(config: Config, s: State, now: int, q: Envelope)
    requires Inv(config, s) && InOrder(s.delayed) && q in Due(s.delayed, now, PROMOTE_LIMIT)
    ensures NoneAhead(config, s, Holdings(s), q)
  {
    DueIsHeld(s, now, PROMOTE_LIMIT, q);
    KnownHolders(config, s.books, Holdings(s));
    hide Holdings, Rank, Ok, IsHeld, Due;
    var h := Holding(q, AtDelayed);
    forall k | k in Holdings(s) && k.task.id == q.id
      ensures k == h
    {
      OneHolder(Holdings(s), k, h);
    }
  }

  lemma StepKeepsListsOld(config: Config, s: State, a: Action)
    requires Inv(config, s) && InOrder(s.delayed) && ListsAreOld(config, s)
    ensures ListsAreOld(config, Next(config, s, a))
  {
    hide Inv, Kept, Next, Holdings, NoneAhead, Pending, Due, InOrder;
    StepKeeps(config, s, a);
    var t := Next(config, s, a);
    forall p, q | 0 <= p < |t.procs| && q in Pending(t.procs[p])
      ensures NoneAhead(config, t, Holdings(t), q)
    {
      WhoLists(config, s, a, p, q);
      if q !in Pending(s.procs[p]) {
        DueAreNoneAhead(config, s, a.now, q);
      }
      ListedAreNoneAhead(config, s, a, q);
    }
  }

  lemma {:induction false} RunKeepsListsOld(config: Config, workers: nat, actions: seq<Action>)
    ensures ListsAreOld(config, Run(config, workers, actions))
    decreases |actions|
  {
    if actions != [] {
      var before := actions[..|actions| - 1];
      hide Next, Inv, InOrder, ListsAreOld;
      RunKeeps(config, workers, before);
      RunKeepsOrder(config, workers, before);
      RunKeepsListsOld(config, workers, before);
      StepKeepsListsOld(config, Run(config, workers, before), actions[|actions| - 1]);
    }
  }

  /** The task lies in the delayed set under its time, and nobody means to move it. */
  ghost predicate Rests(s: State, task: Envelope, due: int) {
    && Entry(due, task) in s.delayed
    && forall p | 0 <= p < |s.procs| && (s.procs[p].Promoting? || s.procs[p].Carrying?) :: task !in s.procs[p].pending
  }

  /** A task in hand that has not been handed in is on nobody's list. */
  lemma NotListedYet(config: Config, s: State, p: nat, r: nat)
    requires Inv(config, s) && ListsAreOld(config, s) && p < |s.procs| && r < |s.procs|
    requires s.procs[p].Enqueuing? || s.procs[p].Requeuing?
    ensures s.procs[p].task !in Pending(s.procs[r])
  {
    hide Inv, Holdings, Pending, Cap;
    var task, h := s.procs[p].task, InHandOf(s, p);
    HoldingIsInItsPlace(s, h);
    assert Rank(config, h) > Rank(config, Holding(task, AtDelayed));
    assert !NoneAhead(config, s, Holdings(s), task);
  }

  lemma HandedInRests(config: Config, s: State, p: nat, now: int)
    requires Inv(config, s) && InOrder(s.delayed) && ListsAreOld(config, s) && p < |s.procs|
    requires s.procs[p].Enqueuing? || s.procs[p].Requeuing?
    ensures var delay := if s.procs[p].Enqueuing? then s.procs[p].delay else config.retryDelay;
            var t := Next(config, s, if s.procs[p].Enqueuing? then Push(p, now) else Give(p, now));
            delay > 0 ==> Rests(t, s.procs[p].task, now + delay)
  {
    hide Inv, InOrder, ListsAreOld, ZAdd, Next;
    HandsIn(config, s, p, now);
    forall r: nat | r < |s.procs|
      ensures s.procs[p].task !in Pending(s.procs[r])
    {
      NotListedYet(config, s, p, r);
    }
  }

  lemma OthersHoldOthers(config: Config, s: State, task: Envelope, p: nat)
    requires Inv(config, s) && IsMember(s.delayed, task) && p < |s.procs| && s.procs[p].Holds()
    ensures s.procs[p].task != task
  {
    hide Holdings, Ok, IsHeld;
    var h, k := Holding(task, AtDelayed), InHandOf(s, p);
    HoldingIsInItsPlace(s, h);
    HoldingIsInItsPlace(s, k);
    if s.procs[p].task == task {
      OneHolder(Holdings(s), h, k);
    }
  }

  /** An entry leaves the delayed set only when its task is handed in anew or removed by a promotion that lists it. */
  lemma EntryStays(config: Config, s: State, a: Action, e: Entry)
    requires InOrder(s.delayed) && e in s.delayed
    requires a.p < |s.procs| && s.procs[a.p].Holds() ==> s.procs[a.p].task != e.task
    requires a.p < |s.procs| && s.procs[a.p].Promoting? ==> e.task !in s.procs[a.p].pending
    ensures e in Next(config, s, a).delayed
  {
    forall task, score | task != e.task ensures e in ZAdd(s.delayed, task, score) {
      ZAddKeepsOrder(s.delayed, task, score);
    }
    forall task | task != e.task ensures e in Without(s.delayed, task) {
      WithoutKeepsOrder(s.delayed, task);
    }
    hide InOrder, ZAdd, Without, IsMember, Due, WithMark, Retries, Redacted, Issued, Failed;
  }

  lemma NotDueYet(z: seq<Entry>, now: int, limit: nat, e: Entry)
    requires InOrder(z) && e in z && e.score > now
    ensures e.task !in Due(z, now, limit)
  {
    DueIsAPrefix(z, now, limit);
    hide Due;
  }

  lemma StepLetsRest(config: Config, s: State, a: Action, task: Envelope, due: int)
    requires Inv(config, s) && InOrder(s.delayed) && Rests(s, task, due)
    requires a.BeginPromote? ==> a.now < due
    ensures Rests(Next(config, s, a), task, due)
  {
    hide Inv, InOrder, Next, Due;
    var e := Entry(due, task);
    var i :| 0 <= i < |s.delayed| && s.delayed[i] == e;
    assert IsMember(s.delayed, task);
    if a.p < |s.procs| && s.procs[a.p].Holds() {
      OthersHoldOthers(config, s, task, a.p);
    }
    EntryStays(config, s, a, e);
    var t := Next(config, s, a);
    forall p | 0 <= p < |t.procs| && (t.procs[p].Promoting? || t.procs[p].Carrying?)
      ensures task !in t.procs[p].pending
    {
      if task in Pending(t.procs[p]) {
        WhoLists(config, s, a, p, task);
        NotDueYet(s.delayed, a.now, PROMOTE_LIMIT, e);
      }
    }
  }

  /**
    No task runs before its time: from the moment it is handed in with a delay,
    whatever the processes do, it stays in the delayed set and on no process's
    list until a promotion begins at or after its time.
   */
  lemma {:induction false} NotBeforeItsTime(config: Config, workers: nat, actions: seq<Action>, p: nat, now: int,
                                            more: seq<Action>)
    requires var s := Run(config, workers, actions);
             && p < |s.procs| && (s.procs[p].Enqueuing? || s.procs[p].Requeuing?)
             && var delay := if s.procs[p].Enqueuing? then s.procs[p].delay else config.retryDelay;
                delay > 0 && forall b | b in more && b.BeginPromote? :: b.now < now + delay
    ensures var s := Run(config, workers, actions);
            var task := s.procs[p].task;
            var delay := if s.procs[p].Enqueuing? then s.procs[p].delay else config.retryDelay;
            var a := if s.procs[p].Enqueuing? then Push(p, now) else Give(p, now);
            var t := Run(config, workers, actions + [a] + more);
            && Entry(now + delay, task) in t.delayed
            && forall r | 0 <= r < |t.procs| && (t.procs[r].Promoting? || t.procs[r].Carrying?) ::
                 task !in t.procs[r].pending
    decreases |more|
  {
    hide Run, Inv, InOrder, ListsAreOld, Next;
    var s := Run(config, workers, actions);
    var delay := if s.procs[p].Enqueuing? then s.procs[p].delay else config.retryDelay;
    var a := if s.procs[p].Enqueuing? then Push(p, now) else Give(p, now);
    if more == [] {
      assert actions + [a] + more == actions + [a];
      RunMore(config, workers, actions, a);
      RunKeeps(config, workers, actions);
      RunKeepsOrder(config, workers, actions);
      RunKeepsListsOld(config, workers, actions);
      HandedInRests(config, s, p, now);
    } else {
      var n := |more| - 1;
      var before := actions + [a] + more[..n];
      NotBeforeItsTime(config, workers, actions, p, now, more[..n]);
      assert actions + [a] + more == before + [more[n]];
      RunMore(config, workers, before, more[n]);
      RunKeeps(config, workers, before);
      RunKeepsOrder(config, workers, before);
      StepLetsRest(config, Run(config, workers, before), more[n], s.procs[p].task, now + delay);
    }
  }

  /**
    A promotion lists what is due, oldest first, and up to a hundred tasks of it:
    an entry whose time has come is listed when fewer than a hundred are ahead.
   */
  lemma DueIsListed(config: Config, workers: nat, actions: seq<Action>, p: nat, now: int)
    requires var s := Run(config, workers, actions); p < |s.procs| && s.procs[p].Free?
    ensures var s, t := Run(config, workers, actions), Run(config, workers, actions + [BeginPromote(p, now)]);
            && p < |t.procs| && t.procs[p].Promoting? && t.delayed == s.delayed
            && (forall i, j | 0 <= i < j < |s.delayed| ::
                  s.delayed[i].score <= s.delayed[j].score && s.delayed[i].task != s.delayed[j].task)
            && |t.procs[p].pending| <= 100
            && forall i | 0 <= i < |s.delayed| ::
                 i < |t.procs[p].pending| && t.procs[p].pending[i] == s.delayed[i].task
                 <==> i < 100 && s.delayed[i].score <= now
  {
    var s := Run(config, workers, actions);
    RunKeepsOrder(config, workers, actions);
    DueIsAPrefix(s.delayed, now, PROMOTE_LIMIT);
    hide Run, Due;
    RunMore(config, workers, actions, BeginPromote(p, now));
  }

  /** A listed task that is still delayed is taken, its entry gone, and carried; one that is not is skipped. */
  lemma ListedIsTaken(config: Config, workers: nat, actions: seq<Action>, p: nat)
    requires var s := Run(config, workers, actions);
             p < |s.procs| && s.procs[p].Promoting? && s.procs[p].pending != []
    ensures var s, t := Run(config, workers, actions), Run(config, workers, actions + [PromoteNext(p)]);
            var task, rest := s.procs[p].pending[0], s.procs[p].pending[1..];
            && t.main == s.main && t.books == s.books && p < |t.procs|
            && (t.procs[p] == Carrying(task, rest) <==> exists e :: e in s.delayed && e.task == task)
            && (t.procs[p] == Promoting(rest) <==> forall e | e in s.delayed :: e.task != task)
            && forall e :: e in t.delayed <==> e in s.delayed && e.task != task
  {
    var s := Run(config, workers, actions);
    RunKeepsOrder(config, workers, actions);
    WithoutKeepsOrder(s.delayed, s.procs[p].pending[0]);
    hide Run, Without, InOrder;
    RunMore(config, workers, actions, PromoteNext(p));
  }
}

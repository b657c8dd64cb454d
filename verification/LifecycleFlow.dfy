/**
  What sequences of service calls achieve: publishing serves, a queued scan
  blocks, a clean scan opens the gate, and rescanning a published version takes
  it off the registry.
 */
module LifecycleFlow {
  import opened Options
  import opened Lifecycle
  import opened LifecycleSafety

  /** After writing outcomes, a provider's own row is that of one of its outcomes, or the old one. */
  lemma {:induction false} RowAfter(v: Version, outcomes: seq<Outcome>, p: Provider)
    ensures var w := WriteResults(v, outcomes);
            && ((exists o | o in outcomes :: o.provider == p) ==>
                  p in w.results && w.results[p].kind == ScanKind
                  && exists o | o in outcomes :: o.provider == p && o.result == w.results[p].result)
            && ((forall o | o in outcomes :: o.provider != p) ==>
                  (p in w.results <==> p in v.results) && (p in w.results ==> w.results[p] == v.results[p]))
    decreases |outcomes|
  {
    if outcomes != [] {
      var o, rest := outcomes[0], outcomes[1..];
      assert outcomes == [o] + rest;
      RowAfter(WriteResult(v, o.provider, o.result), rest, p);
      var w := WriteResults(v, outcomes);
      if exists q | q in rest :: q.provider == p {
        var q :| q in rest && q.provider == p && q.result == w.results[p].result;
        assert q in outcomes;
      } else if o.provider == p {
        assert o in outcomes && w.results[p].result == o.result;
      }
    }
  }

  lemma ResultAfter(v: Version, outcomes: seq<Outcome>, p: Provider)
    requires exists o | o in outcomes :: o.provider == p
    ensures exists o | o in outcomes :: o.provider == p && ScanResult(WriteResults(v, outcomes), p) == Some(o.result)
  {
    RowAfter(v, outcomes, p);
    var w := WriteResults(v, outcomes);
    hide WriteResults;
    var o :| o in outcomes && o.provider == p && o.result == w.results[p].result;
    assert ScanResult(w, p) == Some(o.result);
  }

  lemma {:induction false} QueuedIsPending(selected: seq<Provider>)
    ensures forall o | o in Queue(selected) :: o.result.mode == PendingMode
    ensures forall p | p in selected :: exists o | o in Queue(selected) :: o.provider == p
  {
    if selected != [] {
      QueuedIsPending(selected[1..]);
      var first := Queue(selected)[0];
      assert Queue(selected) == [first] + Queue(selected[1..]);
      forall p | p in selected
        ensures exists o | o in Queue(selected) :: o.provider == p
      {
        if p == selected[0] {
          assert first in Queue(selected) && first.provider == p;
        } else {
          assert p in selected[1..];
          var o :| o in Queue(selected[1..]) && o.provider == p;
          assert o in Queue(selected);
        }
      }
    }
  }

  lemma QueuedFailsTheGate(v: Version, selected: seq<Provider>, required: seq<Provider>, p: Provider)
    requires p in selected && p in required
    ensures !ScanPassed(WriteResults(v, Queue(selected)), required)
  {
    QueuedIsPending(selected);
    hide WriteResults, Queue;
    ResultAfter(v, Queue(selected), p);
  }

  /** Once a required provider's scan is queued, the version can be neither published, activated nor made latest. */
  lemma QueuedScanBlocks(ops: seq<Op>, vid: Vid, selected: seq<Provider>, required: seq<Provider>, p: Provider,
                         pid: Pid, verdict: ReviewStatus)
    requires vid in Run(ops).versions && p in selected && p in required
    ensures var db := Run(ops + [MarkPending(vid, selected)]);
            && vid in db.versions && !ScanPassed(db.versions[vid], required)
            && Writes(db, Publish(pid, vid, verdict, required)) == None
            && Writes(db, SetLatest(pid, vid, required)) == None
            && Writes(db, SetVersionStatus(vid, Active, required)) == None
  {
    hide Run, Writes, ScanPassed, WriteResults, Queue, NeedsTheCheck;
    var op := MarkPending(vid, selected);
    QueuedRow(Run(ops), vid, selected);
    StepCommits(ops, op);
    QueuedFailsTheGate(Run(ops).versions[vid], selected, required, p);
    NotPassedIsRefused(Run(ops + [op]), vid, pid, verdict, required);
  }

  lemma QueuedRow(db: Db, vid: Vid, selected: seq<Provider>)
    requires vid in db.versions
    ensures var op, v := MarkPending(vid, selected), WriteResults(db.versions[vid], Queue(selected));
            && !NeedsTheCheck(db, op) && Writes(db, op).Some? && vid in Writes(db, op).value.versions
            && forall required: seq<Provider> ::
                 ScanPassed(Writes(db, op).value.versions[vid], required) == ScanPassed(v, required)
  {
    var v := WriteResults(db.versions[vid], Queue(selected));
    hide WriteResults, Queue;
    BuildIsNoResult(v);
  }

  lemma BuildIsNoResult(v: Version)
    ensures forall required: seq<Provider> :: ScanPassed(v.(build := Scanning), required) == ScanPassed(v, required)
  {
    assert forall p :: ScanResult(v.(build := Scanning), p) == ScanResult(v, p);
    hide ScanResult;
  }

  /** No gate lets a version through whose required scans did not pass. */
  lemma NotPassedIsRefused(db: Db, vid: Vid, pid: Pid, verdict: ReviewStatus, required: seq<Provider>)
    requires vid in db.versions && !ScanPassed(db.versions[vid], required)
    ensures Writes(db, Publish(pid, vid, verdict, required)) == None
    ensures Writes(db, SetLatest(pid, vid, required)) == None
    ensures Writes(db, SetVersionStatus(vid, Active, required)) == None
  {
    hide ScanPassed, BuildReady, Promote, SettleBuild;
  }

  /** A scan of a packaged version that covers the required providers and finds nothing opens the gate. */
  lemma CleanScanOpensTheGate(v: Version, outcomes: seq<Outcome>, required: seq<Provider>)
    requires HasArtifact(v)
    requires forall o | o in outcomes ::
               o.result.mode == Skipped || (o.result.mode == Real && o.result.pass == Some(true))
    requires forall p | p in required :: exists o | o in outcomes :: o.provider == p
    ensures Gate(Scanned(v, outcomes), required) && Scanned(v, outcomes).build == Success
  {
    var w := WriteResults(v, outcomes);
    WritesOnlyResults(v, outcomes);
    assert !AnyPending(outcomes);
    hide WriteResults, AnyPending;
    forall p | p in required
      ensures ScanResult(Scanned(v, outcomes), p).Some? && Acceptable(ScanResult(Scanned(v, outcomes), p).value)
    {
      ResultAfter(v, outcomes, p);
      assert ScanResult(Scanned(v, outcomes), p) == ScanResult(w, p);
    }
  }

  /** What publishing is for: the version is what the download endpoint and the listing name from then on. */
  lemma PublishedIsServed(ops: seq<Op>, pid: Pid, vid: Vid, verdict: ReviewStatus, required: seq<Provider>,
                          order: seq<Vid>)
    requires HUMAN !in required && Writes(Run(ops), Publish(pid, vid, verdict, required)).Some?
    requires ListsVersions(Run(ops + [Publish(pid, vid, verdict, required)]), pid, order)
    ensures var before, db := Run(ops), Run(ops + [Publish(pid, vid, verdict, required)]);
            && DownloadLatest(db, order, required) == Found(vid) && ListedLatest(db, order, required) == Some(vid)
            && db.plugins[pid].status == PluginActive && db.plugins[pid].review == verdict
            && db.versions.Keys == before.versions.Keys
            && (forall x | x in before.versions && before.versions[x].plugin != pid ::
                db.versions[x] == before.versions[x])
            && (forall x | x in before.versions && before.versions[x].plugin == pid && x != vid ::
                  db.versions[x] == before.versions[x].(isLatest := false))
  {
    var op := Publish(pid, vid, verdict, required);
    var before, db := Run(ops), Run(ops + [op]);
    StepCommits(ops, op);
    PublishWrites(before, pid, vid, verdict, required);
    PublishedRowPasses(before.versions[vid], required, verdict);
    hide Run, ConstraintsHold, Inv, BuildReady, ScanPassed, Gate, SettleBuild, LatestRows, ListedLatest, Writes;
    ReadersAgree(ops + [op], pid, order, order, required);
    ListedIsServable(db, order, required);
    RunKeeps(ops + [op]);
    assert vid in db.versions && Servable(db.versions[vid], required) && vid in order;
    var x := ListedLatest(db, order, required).value;
    LatestIsUnique(db, x, vid);
  }

  lemma StepCommits(ops: seq<Op>, op: Op)
    requires Writes(Run(ops), op).Some? && !NeedsTheCheck(Run(ops), op)
    ensures Writes(Run(ops), op) == Some(Run(ops + [op]))
  {
    ChecksRefuseExactly(ops, op);
    hide Writes, ConstraintsHold, NeedsTheCheck;
    assert (ops + [op])[..|ops|] == ops;
  }

  lemma PublishWrites(db: Db, pid: Pid, vid: Vid, verdict: ReviewStatus, required: seq<Provider>)
    requires Writes(db, Publish(pid, vid, verdict, required)).Some?
    ensures pid in db.plugins && vid in db.versions && db.versions[vid].plugin == pid
            && Gate(db.versions[vid], required)
    ensures var next := Writes(db, Publish(pid, vid, verdict, required)).value;
            var w := SettleBuild(db.versions[vid]).(status := Active);
            && pid in next.plugins && next.plugins[pid].status == PluginActive && next.plugins[pid].review == verdict
            && next.versions.Keys == db.versions.Keys
            && next.versions[vid] == w.(results := w.results[HUMAN := HumanRow(verdict)], isLatest := true)
            && (forall x | x in db.versions && db.versions[x].plugin != pid :: next.versions[x] == db.versions[x])
            && (forall x | x in db.versions && db.versions[x].plugin == pid && x != vid ::
                  next.versions[x] == db.versions[x].(isLatest := false))
  {
    hide Gate, HumanRow;
  }

  lemma PublishedRowPasses(v: Version, required: seq<Provider>, verdict: ReviewStatus)
    requires Gate(v, required) && HUMAN !in required
    ensures var w := SettleBuild(v).(status := Active);
            Servable(w.(results := w.results[HUMAN := HumanRow(verdict)], isLatest := true), required)
  {
    var w := SettleBuild(v).(status := Active);
    var u := w.(results := w.results[HUMAN := HumanRow(verdict)], isLatest := true);
    assert forall p | p in required :: p != HUMAN && ScanResult(u, p) == ScanResult(v, p);
  }

  lemma QueuedLatest(db: Db, vid: Vid, selected: seq<Provider>)
    requires Inv(db) && vid in db.versions && db.versions[vid].isLatest
    ensures var w := WriteResults(db.versions[vid], Queue(selected));
            Writes(db, MarkPending(vid, selected)) == Some(PutVersion(db, vid, w))
                && OnlyResultsDiffer(db.versions[vid], w)
  {
    assert RowChecks(db.versions[vid]);
    WritesOnlyResults(db.versions[vid], Queue(selected));
    hide WriteResults, Queue;
  }

  /**
    Queueing a rescan of a published version takes the plugin off the registry at
    once, and as long as the scan's answer includes a pending one it can not be
    stored, so the plugin stays off.
   */
  lemma RescanTakesLatestOffline(ops: seq<Op>, vid: Vid, selected: seq<Provider>, required: seq<Provider>,
                                 p: Provider, order: seq<Vid>, outcomes: seq<Outcome>)
    requires vid in Run(ops).versions && Run(ops).versions[vid].isLatest && HasArtifact(Run(ops).versions[vid])
    requires p in selected && p in required && AnyPending(outcomes)
    requires ListsVersions(Run(ops + [MarkPending(vid, selected)]), Run(ops).versions[vid].plugin, order)
    ensures var db := Run(ops + [MarkPending(vid, selected)]);
            && DownloadLatest(db, order, required) == NotFound && ListedLatest(db, order, required) == None
            && Run(ops + [MarkPending(vid, selected)] + [FinishScan(vid, outcomes)]) == db
  {
    var op := MarkPending(vid, selected);
    var v, db := Run(ops).versions[vid], Run(ops + [op]);
    assert (ops + [op])[..|ops|] == ops;
    RunKeeps(ops);
    RunKeeps(ops + [op]);
    ChecksRefuseExactly(ops, op);
    QueuedLatest(Run(ops), vid, selected);
    QueuedFailsTheGate(v, selected, required, p);
    assert db == PutVersion(Run(ops), vid, WriteResults(v, Queue(selected)));
    hide Run, ConstraintsHold, Inv, BuildReady, ScanPassed, WriteResults, Queue, AnyPending, LatestRows, ListedLatest;
    PendingRescanOfLatestIsLost(ops + [op], vid, outcomes);
    ReadersAgree(ops + [op], v.plugin, order, order, required);
    ListedIsServable(db, order, required);
    var listed := ListedLatest(db, order, required);
    if listed.Some? {
      LatestIsUnique(db, listed.value, vid);
    }
  }
}

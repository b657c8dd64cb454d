/**
  Where the contents of the rows come from: every artifact, scan result and
  review verdict in a reachable database was given by one of the calls that led
  to it, and calls that say nothing about it leave it alone.
 */
module LifecycleRecords {
  import opened Options
  import opened Lifecycle
  import opened LifecycleSafety
  import opened LifecycleFlow

  // ---- Single calls ----

  /** Rows of other plugins and versions stay as they are. */
  ghost predicate OnlyPlugin(before: Db, after: Db, pid: Pid) {
    after.versions == before.versions && pid in after.plugins
    && after.plugins == before.plugins[pid := after.plugins[pid]]
  }

  ghost predicate OnlyVersion(before: Db, after: Db, vid: Vid) {
    after.plugins == before.plugins && vid in after.versions
    && after.versions == before.versions[vid := after.versions[vid]]
  }

  /** Plugins are created unreviewed and off; versions are drafts; deleting takes exactly what belongs to it. */
  ghost predicate CreatesAndDeletes(before: Db, after: Db, op: Op) {
    match op
    case CreatePlugin(pid, info) =>
      if pid in before.plugins then after == before
      else OnlyPlugin(before, after, pid) && after.plugins[pid] == Plugin(PluginPending, ReviewPending, info)
    case UpdatePlugin(pid, info) =>
      if pid !in before.plugins then after == before
      else OnlyPlugin(before, after, pid) && after.plugins[pid] == before.plugins[pid].(info := info)
    case CreateVersion(pid, vid, key, url, first) =>
      if pid !in before.plugins || vid in before.versions || (first == BuildDone && (key.None? || url.None?))
      then after == before
      else
        && OnlyVersion(before, after, vid)
        && after.versions[vid] == Version(pid, after.versions[vid].build, Draft, false, key, url, None, map[])
        && (first == BuildPending ==> after.versions[vid].build == Pending)
        && (first == BuildRunning ==> after.versions[vid].build == Building)
        && (first == BuildDone ==> after.versions[vid].build == Success)
    case DeleteVersion(pid, vid) =>
      if vid in before.versions && before.versions[vid].plugin == pid
      then after.plugins == before.plugins && after.versions == before.versions - {vid} else after == before
    case DeletePlugin(pid) =>
      && after.plugins == before.plugins - {pid}
      && forall x, v :: x in after.versions && after.versions[x] == v
                        <==> x in before.versions && before.versions[x] == v && v.plugin != pid
    case _ => true
  }

  lemma CreatingAndDeleting(ops: seq<Op>, op: Op)
    ensures CreatesAndDeletes(Run(ops), Run(ops + [op]), op)
  {
    OneMore(ops, op);
    ChecksRefuseExactly(ops, op);
    RunKeeps(ops);
    hide Run, ConstraintsHold;
    if op.DeletePlugin? && op.pid !in Run(ops).plugins {
      Owned(Run(ops));
    }
    hide Inv;
  }

  /** A finished build stores the artifact it was given; a scan begins only where it can be marked. */
  ghost predicate BuildsAndScans(before: Db, after: Db, op: Op) {
    var missing: set<Option<string>> := {None, Some("")};
    match op
    case UpdateAfterBuild(vid, key, url) =>
      if vid !in before.versions then after == before
      else
        && OnlyVersion(before, after, vid)
        && after.versions[vid] ==
             before.versions[vid].(s3Key := Some(key), downloadUrl := Some(url), build := Success)
    case BeginScan(vid) =>
      if vid !in before.versions || before.versions[vid].s3Key in missing || before.versions[vid].downloadUrl in missing
         || (before.versions[vid].isLatest && before.versions[vid].status == Active)
      then after == before
      else
        && OnlyVersion(before, after, vid)
        && Recorded(before.versions[vid], after.versions[vid].(build := before.versions[vid].build), [])
        && after.versions[vid].build == Scanning
    case CompleteOutcome(vid, outcome) =>
      if vid !in before.versions
         || (before.versions[vid].isLatest && before.versions[vid].s3Key !in missing
             && before.versions[vid].downloadUrl !in missing && outcome.result.mode == PendingMode)
      then after == before
      else
        && OnlyVersion(before, after, vid)
        && Recorded(before.versions[vid], after.versions[vid].(build := before.versions[vid].build), [outcome])
        && after.versions[vid].build ==
             if before.versions[vid].s3Key in missing || before.versions[vid].downloadUrl in missing
             then before.versions[vid].build
             else if outcome.result.mode == PendingMode then Scanning else Success
    case _ => true
  }

  lemma ArtifactMeans(v: Version)
    ensures var missing: set<Option<string>> := {None, Some("")};
            HasArtifact(v) <==> v.s3Key !in missing && v.downloadUrl !in missing
  {
  }

  lemma BuildingAndScanning(ops: seq<Op>, op: Op)
    ensures BuildsAndScans(Run(ops), Run(ops + [op]), op)
  {
    OneMore(ops, op);
    ChecksRefuseExactly(ops, op);
    if (op.BeginScan? || op.CompleteOutcome?) && op.vid in Run(ops).versions {
      var v := Run(ops).versions[op.vid];
      var outcomes := if op.BeginScan? then [] else [op.outcome];
      ArtifactMeans(v);
      WritesAreRecorded(v, outcomes);
      WritesOnlyResults(v, outcomes);
      if op.CompleteOutcome? {
        OnePending(op.outcome);
      }
    }
    hide Run, ConstraintsHold, Recorded, AnyPending, HasArtifact;
  }

  // ---- Reviews ----

  /** What a plugin's status changes, none of them with a verdict, make of a pending review. */
  function Decision(changes: seq<PluginStatus>): ReviewStatus {
    if changes == [] then ReviewPending
    else if changes[0] == PluginActive then Approved
    else if changes[0] == PluginDisabled then Rejected
    else Decision(changes[1..])
  }

  function StatusCalls(pid: Pid, changes: seq<PluginStatus>): seq<Op> {
    seq(|changes|, i requires 0 <= i < |changes| => SetPluginStatus(pid, changes[i], None))
  }

  lemma StatusCall(ops: seq<Op>, pid: Pid, status: PluginStatus)
    requires pid in Run(ops).plugins
    ensures var before, after := Run(ops), Run(ops + [SetPluginStatus(pid, status, None)]);
            && pid in after.plugins && after.plugins[pid].status == status
            && after.plugins[pid].info == before.plugins[pid].info
            && after.plugins[pid].review == if before.plugins[pid].review == ReviewPending then Decision([status])
                                            else before.plugins[pid].review
  {
    var op := SetPluginStatus(pid, status, None);
    assert [status][1..] == [];
    OneMore(ops, op);
    ChecksRefuseExactly(ops, op);
    hide Run, ConstraintsHold, ClearLatest;
  }

  /**
    The first change of a plugin's status to active or disabled decides a pending
    review, approving or rejecting it, and no later change revises it.
   */
  lemma {:induction false} FirstDecisionStands(ops: seq<Op>, pid: Pid, changes: seq<PluginStatus>)
    requires pid in Run(ops).plugins
    ensures var before, after := Run(ops), Run(ops + StatusCalls(pid, changes));
            && pid in after.plugins
            && (changes != [] ==> after.plugins[pid].status == changes[|changes| - 1])
            && after.plugins[pid].review == if before.plugins[pid].review == ReviewPending then Decision(changes)
                                            else before.plugins[pid].review
    decreases |changes|
  {
    hide Run;
    if changes == [] {
      assert ops + StatusCalls(pid, []) == ops;
    } else {
      var op := SetPluginStatus(pid, changes[0], None);
      assert ops + StatusCalls(pid, changes) == ops + [op] + StatusCalls(pid, changes[1..]);
      StatusCall(ops, pid, changes[0]);
      FirstDecisionStands(ops + [op], pid, changes[1..]);
      assert ops + [op] + StatusCalls(pid, []) == ops + [op];
      assert [changes[0]][1..] == [];
    }
  }

  /** A new plugin is approved by its first activation, and one that was disabled first stays rejected. */
  lemma ActivationApprovesUnlessDisabledFirst(ops: seq<Op>, pid: Pid, info: string)
    requires pid !in Run(ops).plugins
    ensures var activated := Run(ops + [CreatePlugin(pid, info)] + [SetPluginStatus(pid, PluginActive, None)]);
            pid in activated.plugins && activated.plugins[pid] == Plugin(PluginActive, Approved, info)
    ensures var revived := Run(ops + [CreatePlugin(pid, info)] + [SetPluginStatus(pid, PluginDisabled, None)]
                               + [SetPluginStatus(pid, PluginActive, None)]);
            pid in revived.plugins && revived.plugins[pid] == Plugin(PluginActive, Rejected, info)
  {
    var created := ops + [CreatePlugin(pid, info)];
    var disabled := created + [SetPluginStatus(pid, PluginDisabled, None)];
    CreatingAndDeleting(ops, CreatePlugin(pid, info));
    hide Run;
    StatusCall(created, pid, PluginActive);
    StatusCall(created, pid, PluginDisabled);
    StatusCall(disabled, pid, PluginActive);
  }

  // ---- Artifacts ----

  /** The call names this artifact for this version. */
  predicate GivesArtifact(op: Op, x: Vid, v: Version) {
    match op
    case CreateVersion(pid, vid, key, url, _) => vid == x && pid == v.plugin && key == v.s3Key && url == v.downloadUrl
    case UpdateAfterBuild(vid, key, url) => vid == x && Some(key) == v.s3Key && Some(url) == v.downloadUrl
    case _ => false
  }

  predicate ReplacesArtifact(op: Op, x: Vid) {
    op.UpdateAfterBuild? && op.vid == x
  }

  predicate SameArtifact(v: Version, w: Version) {
    v.plugin == w.plugin && v.s3Key == w.s3Key && v.downloadUrl == w.downloadUrl
  }

  lemma ArtifactWritten(db: Db, op: Op, x: Vid)
    requires Writes(db, op).Some? && x in Writes(db, op).value.versions
    ensures var w := Writes(db, op).value.versions[x];
            GivesArtifact(op, x, w)
            || (x in db.versions && !ReplacesArtifact(op, x) && SameArtifact(db.versions[x], w))
  {
    if op.MarkPending? || op.MarkSkipped? || op.FinishScan? || op.CompleteOutcome? {
      ScanKeepsArtifact(db, op, x);
    } else {
      hide ConstraintsHold, WriteResults, Gate, HumanRow, HasArtifact, CanMarkScanning, Scanned, ReviewAfter;
    }
  }

  lemma ScanKeepsArtifact(db: Db, op: Op, x: Vid)
    requires op.MarkPending? || op.MarkSkipped? || op.FinishScan? || op.CompleteOutcome?
    requires Writes(db, op).Some? && x in Writes(db, op).value.versions
    ensures x in db.versions && SameArtifact(db.versions[x], Writes(db, op).value.versions[x])
  {
    var outcomes := if op.MarkPending? then Queue(op.selected)
                    else if op.MarkSkipped? then Skip(op.selected, op.pass)
                    else if op.FinishScan? then op.outcomes else [op.outcome];
    WritesOnlyResults(db.versions[op.vid], outcomes);
    hide ConstraintsHold, WriteResults, Queue, Skip, AnyPending, HasArtifact, CanMarkScanning;
  }

  lemma ArtifactAfter(db: Db, op: Op, x: Vid)
    requires Inv(db) && x in Step(db, op).versions
    ensures var w := Step(db, op).versions[x];
            GivesArtifact(op, x, w)
            || (x in db.versions && !ReplacesArtifact(op, x) && SameArtifact(db.versions[x], w))
  {
    CallsAreFine(db, op);
    if Writes(db, op).None? {
      assert ReplacesArtifact(op, x) ==> x !in db.versions;
    }
    hide Writes, ConstraintsHold, GivesArtifact, SameArtifact, Inv;
    if Writes(db, op).Some? && ConstraintsHold(Writes(db, op).value) {
      ArtifactWritten(db, op, x);
    } else {
      assert Step(db, op) == db;
      assert SameArtifact(db.versions[x], db.versions[x]) by { ItsOwnArtifact(db.versions[x]); }
    }
  }

  lemma ItsOwnArtifact(v: Version)
    ensures SameArtifact(v, v)
  {
  }

  /** The last call in the run that named an artifact for the version. */
  ghost predicate LastGiven(ops: seq<Op>, x: Vid, v: Version, i: nat) {
    i < |ops| && GivesArtifact(ops[i], x, v) && forall j | i < j < |ops| :: !ReplacesArtifact(ops[j], x)
  }

  ghost predicate WasGiven(ops: seq<Op>, x: Vid, v: Version) {
    exists i: nat :: LastGiven(ops, x, v, i)
  }

  /**
    The artifact of every version is the one its last upload or finished build
    named, under that very plugin.
   */
  lemma {:induction false} ArtifactsAreAsGiven(ops: seq<Op>, x: Vid)
    requires x in Run(ops).versions
    ensures WasGiven(ops, x, Run(ops).versions[x])
    decreases |ops|
  {
    var n := |ops| - 1;
    var before, op, w := Run(ops[..n]), ops[n], Run(ops).versions[x];
    RunKeeps(ops[..n]);
    ArtifactAfter(before, op, x);
    hide Run, Step, Inv;
    if GivesArtifact(op, x, w) {
      assert LastGiven(ops, x, w, n);
    } else {
      ArtifactsAreAsGiven(ops[..n], x);
      var i: nat :| LastGiven(ops[..n], x, before.versions[x], i);
      LaterCall(ops[..n], op, x, before.versions[x], w, i);
      assert ops == ops[..n] + [op];
    }
  }

  lemma LaterCall(ops: seq<Op>, op: Op, x: Vid, v: Version, w: Version, i: nat)
    requires LastGiven(ops, x, v, i) && !ReplacesArtifact(op, x) && SameArtifact(v, w)
    ensures LastGiven(ops + [op], x, w, i)
  {
    assert (ops + [op])[i] == ops[i];
  }

  // ---- Scan results ----

  /** The call says this of this provider and version. */
  predicate Reports(op: Op, x: Vid, p: Provider, r: Result) {
    match op
    case FinishScan(vid, outcomes) => vid == x && Outcome(p, r) in outcomes
    case CompleteOutcome(vid, outcome) => vid == x && outcome == Outcome(p, r)
    case MarkPending(vid, selected) =>
      vid == x && p in selected && r == Result(None, Some("Scan queued"), PendingMode)
    case MarkSkipped(vid, selected, pass) =>
      vid == x && p in selected && r == Result(pass, Some("Manually skipped"), Skipped)
    case _ => false
  }

  predicate HasRow(v: Version, p: Provider, r: Result) {
    p in v.results && v.results[p] == ProviderRow(ScanKind, r)
  }

  lemma RowIsReported(v: Version, outcomes: seq<Outcome>, p: Provider, r: Result)
    requires HasRow(WriteResults(v, outcomes), p, r)
    ensures Outcome(p, r) in outcomes || HasRow(v, p, r)
  {
    RowAfter(v, outcomes, p);
  }

  lemma RowWritten(db: Db, op: Op, x: Vid, p: Provider, r: Result)
    requires Writes(db, op).Some? && x in Writes(db, op).value.versions
             && HasRow(Writes(db, op).value.versions[x], p, r)
    ensures Reports(op, x, p, r) || (x in db.versions && HasRow(db.versions[x], p, r))
  {
    if op.MarkPending? && op.vid == x {
      QueueAsksEach(op.selected);
      RowIsReported(db.versions[x], Queue(op.selected), p, r);
    } else if op.MarkSkipped? && op.vid == x {
      SkipSkipsEach(op.selected, op.pass);
      RowIsReported(db.versions[x], Skip(op.selected, op.pass), p, r);
    } else if op.FinishScan? && op.vid == x {
      RowIsReported(db.versions[x], op.outcomes, p, r);
    } else if op.CompleteOutcome? && op.vid == x {
      RowIsReported(db.versions[x], [op.outcome], p, r);
    }
    hide ConstraintsHold, WriteResults, Queue, Skip, AnyPending, Gate;
  }

  lemma {:induction false} RowsAreReported(ops: seq<Op>, x: Vid, p: Provider, r: Result)
    requires x in Run(ops).versions && HasRow(Run(ops).versions[x], p, r)
    ensures exists i | 0 <= i < |ops| :: Reports(ops[i], x, p, r)
    decreases |ops|
  {
    var n := |ops| - 1;
    var before := Run(ops[..n]);
    if Step(before, ops[n]) != before {
      RowWritten(before, ops[n], x, p, r);
    }
    hide Run, Reports, HasRow, Writes, ConstraintsHold;
    if !Reports(ops[n], x, p, r) {
      RowsAreReported(ops[..n], x, p, r);
      var i :| 0 <= i < n && Reports(ops[..n][i], x, p, r);
      assert ops[..n][i] == ops[i];
    }
  }

  /** Every scan result the gates read was reported by a call of the run; without a report it says pending. */
  lemma ResultsAreReported(ops: seq<Op>, x: Vid, p: Provider)
    requires x in Run(ops).versions && ScanResult(Run(ops).versions[x], p).Some?
    ensures var r := ScanResult(Run(ops).versions[x], p).value;
            r == Result(None, None, PendingMode) || exists i | 0 <= i < |ops| :: Reports(ops[i], x, p, r)
  {
    hide Run;
    RunKeeps(ops);
    var v := Run(ops).versions[x];
    assert VersionOk(v);
    var r := ScanResult(v, p).value;
    if HasRow(v, p, r) {
      RowsAreReported(ops, x, p, r);
    }
  }

  /** Some call of the run reported a real pass of the provider, or skipped it. */
  ghost predicate ReportedClean(ops: seq<Op>, x: Vid, p: Provider) {
    exists i, r | 0 <= i < |ops| && Reports(ops[i], x, p, r) ::
      r.mode == Skipped || (r.mode == Real && r.pass == Some(true))
  }

  /** The gate lets nothing through that was not reported clean, or skipped, for every required provider. */
  lemma GateNeedsReports(ops: seq<Op>, x: Vid, required: seq<Provider>, p: Provider)
    requires x in Run(ops).versions && ScanPassed(Run(ops).versions[x], required) && p in required
    ensures ReportedClean(ops, x, p)
  {
    hide Run, ScanResult, Reports;
    ResultsAreReported(ops, x, p);
    var r := ScanResult(Run(ops).versions[x], p).value;
    var i :| 0 <= i < |ops| && Reports(ops[i], x, p, r);
  }
}

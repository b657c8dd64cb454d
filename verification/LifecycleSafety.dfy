/**
  What holds after any sequence of service calls, which calls rely on the table
  constraints to keep it, and what the two readers of "latest" make of it.
 */
module LifecycleSafety {
  import opened Options
  import opened Lifecycle

  // ---- Writing results touches nothing but results ----

  predicate OnlyResultsDiffer(v: Version, w: Version) {
    w == v.(scan := w.scan, results := w.results)
  }

  lemma WriteMirrors(v: Version, p: Provider, r: Result)
    requires Mirrors(v, VIRUSTOTAL) && Mirrors(v, LLM_AGENT)
    ensures Mirrors(WriteResult(v, p, r), VIRUSTOTAL) && Mirrors(WriteResult(v, p, r), LLM_AGENT)
  {
  }

  lemma {:induction false} WritesMirror(v: Version, outcomes: seq<Outcome>)
    requires Mirrors(v, VIRUSTOTAL) && Mirrors(v, LLM_AGENT)
    ensures var w := WriteResults(v, outcomes);
            OnlyResultsDiffer(v, w) && Mirrors(w, VIRUSTOTAL) && Mirrors(w, LLM_AGENT)
    decreases |outcomes|
  {
    if outcomes != [] {
      WriteMirrors(v, outcomes[0].provider, outcomes[0].result);
      hide Mirrors;
      WritesMirror(WriteResult(v, outcomes[0].provider, outcomes[0].result), outcomes[1..]);
    }
  }

  lemma {:induction false} WritesOnlyResults(v: Version, outcomes: seq<Outcome>)
    ensures OnlyResultsDiffer(v, WriteResults(v, outcomes))
    decreases |outcomes|
  {
    if outcomes != [] {
      WritesOnlyResults(WriteResult(v, outcomes[0].provider, outcomes[0].result), outcomes[1..]);
    }
  }

  /** The last outcome of a provider is what both representations say of it afterwards. */
  ghost predicate Records(w: Version, o: Outcome) {
    && w.scan.Some? && o.provider in w.results && w.results[o.provider] == ProviderRow(ScanKind, o.result)
    && (o.provider == VIRUSTOTAL ==> w.scan.value.virusTotal == o.result)
    && (o.provider == LLM_AGENT ==> w.scan.value.llmAgent == o.result)
  }

  /** Nothing is recorded about a provider without an outcome. */
  ghost predicate LeavesAlone(v: Version, w: Version, p: Provider) {
    && (p in w.results <==> p in v.results) && (p in v.results ==> w.results[p] == v.results[p])
    && w.scan.Some?
    && (p == VIRUSTOTAL ==> w.scan.value.virusTotal ==
                              if v.scan.Some? then v.scan.value.virusTotal else Result(None, None, PendingMode))
    && (p == LLM_AGENT ==> w.scan.value.llmAgent ==
                             if v.scan.Some? then v.scan.value.llmAgent else Result(None, None, PendingMode))
  }

  predicate IsLastOf(outcomes: seq<Outcome>, i: nat)
    requires i < |outcomes|
  {
    forall j | i < j < |outcomes| :: outcomes[j].provider != outcomes[i].provider
  }

  /** w is v with the outcomes recorded, later ones over earlier ones, and nothing else changed. */
  ghost predicate Recorded(v: Version, w: Version, outcomes: seq<Outcome>) {
    && w == v.(scan := w.scan, results := w.results)
    && (forall i | 0 <= i < |outcomes| && IsLastOf(outcomes, i) :: Records(w, outcomes[i]))
    && (forall p | (forall o | o in outcomes :: o.provider != p) :: LeavesAlone(v, w, p))
  }

  lemma {:induction false} LastOutcomeCounts(v: Version, outcomes: seq<Outcome>, i: nat)
    requires i < |outcomes| && IsLastOf(outcomes, i)
    ensures Records(WriteResults(v, outcomes), outcomes[i])
    decreases |outcomes|
  {
    var o, rest := outcomes[0], outcomes[1..];
    var w := WriteResult(v, o.provider, o.result);
    if i > 0 {
      LastOutcomeCounts(w, rest, i - 1);
    } else {
      forall q | q in rest
        ensures q.provider != o.provider
      {
        var j :| 0 <= j < |rest| && rest[j] == q;
        assert outcomes[j + 1] == q;
      }
      OthersAreLeftAlone(w, rest, o.provider);
    }
  }

  lemma {:induction false} OthersAreLeftAlone(v: Version, outcomes: seq<Outcome>, p: Provider)
    requires forall o | o in outcomes :: o.provider != p
    ensures LeavesAlone(v, WriteResults(v, outcomes), p)
    decreases |outcomes|
  {
    if outcomes != [] {
      assert outcomes[0] in outcomes && forall o | o in outcomes[1..] :: o in outcomes;
      OthersAreLeftAlone(WriteResult(v, outcomes[0].provider, outcomes[0].result), outcomes[1..], p);
    }
  }

  lemma {:induction false} OneResultEach(v: Version, outcomes: seq<Outcome>, p: Provider, r: Result)
    requires exists o | o in outcomes :: o.provider == p
    requires forall o | o in outcomes && o.provider == p :: o.result == r
    ensures Records(WriteResults(v, outcomes), Outcome(p, r))
    decreases |outcomes|
  {
    var first, rest := outcomes[0], outcomes[1..];
    var w := WriteResult(v, first.provider, first.result);
    assert outcomes == [first] + rest;
    if exists o | o in rest :: o.provider == p {
      OneResultEach(w, rest, p, r);
    } else {
      OthersAreLeftAlone(w, rest, p);
      assert first in outcomes && first.provider == p;
    }
  }

  lemma {:induction false} QueueAsksEach(selected: seq<Provider>)
    ensures forall o :: o in Queue(selected) <==>
                        o.provider in selected && o.result == Result(None, Some("Scan queued"), PendingMode)
  {
    if selected != [] {
      QueueAsksEach(selected[1..]);
      assert selected == [selected[0]] + selected[1..];
    }
  }

  lemma {:induction false} SkipSkipsEach(selected: seq<Provider>, pass: Option<bool>)
    ensures forall o :: o in Skip(selected, pass) <==>
                        o.provider in selected && o.result == Result(pass, Some("Manually skipped"), Skipped)
  {
    if selected != [] {
      SkipSkipsEach(selected[1..], pass);
      assert selected == [selected[0]] + selected[1..];
    }
  }

  /** What marking providers leaves in a row, when every outcome says r. */
  ghost predicate MarksEach(v: Version, w: Version, selected: seq<Provider>, r: Result) {
    && w == v.(scan := w.scan, results := w.results, build := w.build)
    && forall p :: if p in selected then Records(w, Outcome(p, r)) else LeavesAlone(v, w, p)
  }

  lemma MarksAreWritten(v: Version, outcomes: seq<Outcome>, selected: seq<Provider>, r: Result)
    requires forall o :: o in outcomes <==> o.provider in selected && o.result == r
    ensures MarksEach(v, WriteResults(v, outcomes), selected, r)
  {
    WritesOnlyResults(v, outcomes);
    hide WriteResults, Records, LeavesAlone;
    forall p
      ensures if p in selected then Records(WriteResults(v, outcomes), Outcome(p, r))
              else LeavesAlone(v, WriteResults(v, outcomes), p)
    {
      if p in selected {
        assert Outcome(p, r) in outcomes;
        OneResultEach(v, outcomes, p, r);
      } else {
        OthersAreLeftAlone(v, outcomes, p);
      }
    }
  }

  lemma BuildMarksNothing(v: Version, w: Version, selected: seq<Provider>, r: Result, build: BuildStatus)
    requires MarksEach(v, w, selected, r)
    ensures MarksEach(v, w.(build := build), selected, r)
  {
    forall p
      ensures Records(w, Outcome(p, r)) <==> Records(w.(build := build), Outcome(p, r))
      ensures LeavesAlone(v, w, p) <==> LeavesAlone(v, w.(build := build), p)
    {
    }
    hide Records, LeavesAlone;
  }

  lemma WritesAreRecorded(v: Version, outcomes: seq<Outcome>)
    ensures Recorded(v, WriteResults(v, outcomes), outcomes)
  {
    WritesOnlyResults(v, outcomes);
    hide WriteResults, Records, LeavesAlone, IsLastOf;
    forall i: nat | i < |outcomes| && IsLastOf(outcomes, i)
      ensures Records(WriteResults(v, outcomes), outcomes[i])
    {
      LastOutcomeCounts(v, outcomes, i);
    }
    forall p | forall o | o in outcomes :: o.provider != p
      ensures LeavesAlone(v, WriteResults(v, outcomes), p)
    {
      OthersAreLeftAlone(v, outcomes, p);
    }
  }

  // ---- Rows and tables ----

  /** Replacing or adding a version that does not claim to be latest anew. */
  lemma PutKeeps(db: Db, vid: Vid, w: Version)
    requires Inv(db) && VersionOk(w)
    requires if vid in db.versions then w.plugin == db.versions[vid].plugin
             && (w.isLatest ==> db.versions[vid].isLatest)
             else w.plugin in db.plugins && !w.isLatest
    ensures ConstraintsHold(PutVersion(db, vid, w)) <==> RowChecks(w)
    ensures RowChecks(w) ==> Inv(PutVersion(db, vid, w))
  {
    hide VersionOk, RowChecks;
    var next := PutVersion(db, vid, w);
    forall x | x in next.versions
      ensures x != vid ==> x in db.versions && next.versions[x] == db.versions[x]
    {
    }
    assert vid in next.versions && next.versions[vid] == w;
  }

  lemma ClearedKeeps(db: Db, pid: Pid)
    requires Inv(db)
    ensures Inv(db.(versions := ClearLatest(db.versions, pid)))
    ensures forall x | x in db.versions && db.versions[x].plugin == pid :: !ClearLatest(db.versions, pid)[x].isLatest
  {
    var c := ClearLatest(db.versions, pid);
    forall x | x in c
      ensures x in db.versions && VersionOk(c[x]) && RowChecks(c[x]) && (c[x].isLatest ==> db.versions[x].isLatest)
              && c[x].plugin == db.versions[x].plugin
    {
    }
    hide VersionOk, RowChecks;
  }

  lemma CrownKeeps(db: Db, vid: Vid, w: Version)
    requires Inv(db) && vid in db.versions && w.plugin == db.versions[vid].plugin && VersionOk(w) && RowChecks(w)
    requires !Hidden(db.plugins[w.plugin].status)
    requires forall x | x in db.versions && db.versions[x].plugin == w.plugin :: !db.versions[x].isLatest
    ensures Inv(PutVersion(db, vid, w))
  {
    hide VersionOk, RowChecks;
    var next := PutVersion(db, vid, w);
    forall x | x in next.versions
      ensures x != vid ==> x in db.versions && next.versions[x] == db.versions[x]
    {
    }
    assert vid in next.versions && next.versions[vid] == w;
  }

  lemma PromoteKeeps(db: Db, vid: Vid, v: Version)
    requires Inv(db) && vid in db.versions && v.plugin == db.versions[vid].plugin && VersionOk(v)
    requires v.status == Active && v.build == Success && RowChecks(v) && db.plugins[v.plugin].status == PluginActive
    ensures Inv(Promote(db, vid, v))
  {
    ClearedKeeps(db, v.plugin);
    var cleared := db.(versions := ClearLatest(db.versions, v.plugin));
    hide Inv, Mirrors;
    CrownKeeps(cleared, vid, v.(isLatest := true));
  }

  lemma PluginChangeKeeps(db: Db, pid: Pid, p: Plugin)
    requires Inv(db)
    requires Hidden(p.status) ==> forall x | x in db.versions
             && db.versions[x].plugin == pid :: !db.versions[x].isLatest
    ensures Inv(db.(plugins := db.plugins[pid := p]))
  {
    hide VersionOk, RowChecks;
  }

  lemma FewerVersionsKeep(db: Db, versions: map<Vid, Version>, plugins: map<Pid, Plugin>)
    requires Inv(db)
    requires forall x | x in versions ::
               x in db.versions && versions[x] == db.versions[x] && versions[x].plugin in plugins
    requires forall q | q in plugins :: q in db.plugins && plugins[q] == db.plugins[q]
    ensures Inv(Db(plugins, versions))
  {
    hide VersionOk, RowChecks;
  }

  // ---- Which commits the constraints refuse ----

  predicate CommitRefused(db: Db, op: Op) {
    Writes(db, op).Some? && !ConstraintsHold(Writes(db, op).value)
  }

  /** The calls that can run into a constraint, and when they do. */
  predicate NeedsTheCheck(db: Db, op: Op) {
    match op
    case FinishScan(vid, outcomes) =>
      vid in db.versions && db.versions[vid].isLatest && HasArtifact(db.versions[vid]) && AnyPending(outcomes)
    case CompleteOutcome(vid, outcome) =>
      vid in db.versions && db.versions[vid].isLatest && HasArtifact(db.versions[vid])
          && outcome.result.mode == PendingMode
    case FailBuild(vid) => vid in db.versions && db.versions[vid].isLatest
    case CreateVersion(pid, vid, s3Key, downloadUrl, first) =>
      pid in db.plugins && vid !in db.versions && first == BuildDone && (s3Key.None? || downloadUrl.None?)
    case _ => false
  }

  ghost predicate Fine(db: Db, op: Op) {
    && (CommitRefused(db, op) <==> NeedsTheCheck(db, op))
    && Inv(Step(db, op))
  }

  lemma VersionPut(db: Db, op: Op, vid: Vid, w: Version)
    requires Inv(db) && Writes(db, op) == Some(PutVersion(db, vid, w)) && VersionOk(w)
    requires if vid in db.versions then w.plugin == db.versions[vid].plugin
             && (w.isLatest ==> db.versions[vid].isLatest)
             else w.plugin in db.plugins && !w.isLatest
    requires RowChecks(w) <==> !NeedsTheCheck(db, op)
    ensures Fine(db, op)
  {
    hide NeedsTheCheck, Writes, VersionOk, RowChecks;
    PutKeeps(db, vid, w);
  }

  lemma OnePending(outcome: Outcome)
    ensures AnyPending([outcome]) <==> outcome.result.mode == PendingMode
  {
    assert outcome in [outcome];
  }

  lemma ScannedRow(v: Version, outcomes: seq<Outcome>)
    requires RowChecks(v) && VersionOk(v)
    ensures var w := Scanned(v, outcomes);
            && VersionOk(w) && w.plugin == v.plugin && (w.isLatest <==> v.isLatest)
            && (RowChecks(w) <==> !(v.isLatest && HasArtifact(v) && AnyPending(outcomes)))
  {
    WritesMirror(v, outcomes);
    hide Mirrors, WriteResults, AnyPending;
  }

  lemma FinishedScansAreFine(db: Db, op: Op)
    requires Inv(db) && (op.FinishScan? || op.CompleteOutcome?)
    requires op.vid in db.versions
    ensures Fine(db, op)
  {
    var v := db.versions[op.vid];
    var outcomes := if op.FinishScan? then op.outcomes else [op.outcome];
    assert RowChecks(v) && VersionOk(v);
    hide ConstraintsHold, Inv, Scanned, AnyPending, RowChecks, VersionOk;
    ScannedRow(v, outcomes);
    if op.CompleteOutcome? {
      OnePending(op.outcome);
    }
    VersionPut(db, op, op.vid, Scanned(v, outcomes));
  }

  lemma MarkedRow(v: Version, outcomes: seq<Outcome>)
    requires RowChecks(v) && VersionOk(v)
    ensures var w := WriteResults(v, outcomes);
            var pending := if CanMarkScanning(w) then w.(build := Scanning) else w;
            var skipped := if HasArtifact(w) then w.(build := Success) else w;
            && VersionOk(pending) && RowChecks(pending) && VersionOk(skipped) && RowChecks(skipped)
            && w.plugin == v.plugin && w.isLatest == v.isLatest
  {
    WritesMirror(v, outcomes);
    hide Mirrors, WriteResults;
  }

  lemma MarkedScansAreFine(db: Db, op: Op)
    requires Inv(db) && (op.MarkPending? || op.MarkSkipped?)
    requires op.vid in db.versions
    ensures Fine(db, op)
  {
    var v := db.versions[op.vid];
    var outcomes := if op.MarkPending? then Queue(op.selected) else Skip(op.selected, op.pass);
    assert RowChecks(v) && VersionOk(v);
    hide ConstraintsHold, Inv, WriteResults, Queue, Skip, RowChecks, VersionOk, CanMarkScanning, HasArtifact;
    MarkedRow(v, outcomes);
    VersionPut(db, op, op.vid, Writes(db, op).value.versions[op.vid]);
  }

  lemma VersionCallsAreFine(db: Db, op: Op)
    requires Inv(db) && (op.UpdateAfterBuild? || op.SetVersionStatus? || op.BeginScan? || op.FailBuild?)
    requires op.vid in db.versions
    ensures Fine(db, op)
  {
    var v := db.versions[op.vid];
    assert RowChecks(v) && VersionOk(v);
    hide ConstraintsHold, Inv, Gate;
    if Writes(db, op).Some? {
      VersionPut(db, op, op.vid, Writes(db, op).value.versions[op.vid]);
    }
  }

  lemma SettledIsFine(db: Db, vid: Vid, required: seq<Provider>)
    requires Inv(db) && vid in db.versions && Gate(db.versions[vid], required)
    ensures var v := SettleBuild(db.versions[vid]);
            VersionOk(v) && RowChecks(v) && v.build == Success && v.plugin == db.versions[vid].plugin
                && v.plugin in db.plugins
  {
    assert RowChecks(db.versions[vid]) && VersionOk(db.versions[vid]);
    hide ScanPassed, ScanPending, ConstraintsHold;
  }

  lemma PromotionsAreFine(db: Db, op: Op)
    requires Inv(db) && (op.SetLatest? || op.Publish?)
    ensures Fine(db, op)
  {
    hide Gate, ConstraintsHold, Inv, Promote, SettleBuild;
    if Writes(db, op).Some? {
      SettledIsFine(db, op.vid, op.required);
      var v := SettleBuild(db.versions[op.vid]);
      if op.SetLatest? {
        StatusStays(db.versions[op.vid]);
        PromoteKeeps(db, op.vid, v);
      } else {
        var p := db.plugins[op.pid].(status := PluginActive, review := op.verdict);
        PluginChangeKeeps(db, op.pid, p);
        var w := v.(status := Active);
        PromoteKeeps(db.(plugins := db.plugins[op.pid := p]), op.vid,
            w.(results := w.results[HUMAN := HumanRow(op.verdict)]));
      }
      Kept(Writes(db, op).value);
    }
  }

  lemma StatusStays(v: Version)
    ensures SettleBuild(v).status == v.status
  {
  }

  lemma Kept(db: Db)
    requires Inv(db)
    ensures ConstraintsHold(db)
  {
  }

  lemma PluginCallsAreFine(db: Db, op: Op)
    requires Inv(db)
    requires op.CreatePlugin? || op.UpdatePlugin? || op.SetPluginStatus? || op.DeletePlugin? || op.DeleteVersion?
    ensures Fine(db, op)
  {
    hide ConstraintsHold, Inv, ClearLatest;
    if Writes(db, op).Some? {
      var next := Writes(db, op).value;
      match op {
      case CreatePlugin(pid, info) =>
        NewPluginHasNoVersions(db, pid);
        PluginChangeKeeps(db, pid, next.plugins[pid]);
      case UpdatePlugin(pid, info) =>
        if Hidden(next.plugins[pid].status) {
          HiddenHasNoLatest(db, pid);
        }
        PluginChangeKeeps(db, pid, next.plugins[pid]);
      case SetPluginStatus(pid, _, _) =>
        if Hidden(op.pluginStatus) {
          ClearedKeeps(db, pid);
          NoneLatest(db.versions, pid);
        }
        var p := next.plugins[pid];
        PluginChangeKeeps(db.(versions := next.versions), pid, p);
        assert next == db.(versions := next.versions, plugins := db.plugins[pid := p]);
      case _ =>
        Owned(db);
        FewerVersionsKeep(db, next.versions, next.plugins);
      }
      Kept(next);
    }
  }

  lemma Owned(db: Db)
    requires Inv(db)
    ensures forall x | x in db.versions :: db.versions[x].plugin in db.plugins
  {
  }

  lemma NewPluginHasNoVersions(db: Db, pid: Pid)
    requires Inv(db) && pid !in db.plugins
    ensures forall x | x in db.versions :: db.versions[x].plugin != pid
  {
  }

  lemma HiddenHasNoLatest(db: Db, pid: Pid)
    requires Inv(db) && pid in db.plugins && Hidden(db.plugins[pid].status)
    ensures forall x | x in db.versions && db.versions[x].plugin == pid :: !db.versions[x].isLatest
  {
  }

  lemma NoneLatest(versions: map<Vid, Version>, pid: Pid)
    ensures var c := ClearLatest(versions, pid); forall x | x in c && c[x].plugin == pid :: !c[x].isLatest
  {
  }

  lemma CreationIsFine(db: Db, op: Op)
    requires Inv(db) && op.CreateVersion?
    ensures Fine(db, op)
  {
    hide ConstraintsHold, Inv;
    if Writes(db, op).Some? {
      VersionPut(db, op, op.vid, Writes(db, op).value.versions[op.vid]);
    }
  }

  lemma CallsAreFine(db: Db, op: Op)
    requires Inv(db)
    ensures Fine(db, op)
  {
    match op
    case CreatePlugin(_, _) => PluginCallsAreFine(db, op);
    case UpdatePlugin(_, _) => PluginCallsAreFine(db, op);
    case SetPluginStatus(_, _, _) => PluginCallsAreFine(db, op);
    case DeletePlugin(_) => PluginCallsAreFine(db, op);
    case DeleteVersion(_, _) => PluginCallsAreFine(db, op);
    case CreateVersion(_, _, _, _, _) => CreationIsFine(db, op);
    case SetLatest(_, _, _) => PromotionsAreFine(db, op);
    case Publish(_, _, _, _) => PromotionsAreFine(db, op);
    case _ =>
      hide Inv, ConstraintsHold;
      if op.vid in db.versions {
        if op.UpdateAfterBuild? || op.SetVersionStatus? || op.BeginScan? || op.FailBuild? {
          VersionCallsAreFine(db, op);
        } else if op.FinishScan? || op.CompleteOutcome? {
          FinishedScansAreFine(db, op);
        } else {
          MarkedScansAreFine(db, op);
        }
      }
  }

  lemma OneMore(ops: seq<Op>, op: Op)
    ensures Run(ops + [op]) == Step(Run(ops), op)
  {
    hide Step;
    assert (ops + [op])[..|ops|] == ops;
  }

  lemma NothingRun()
    ensures Run([]) == Db(map[], map[])
  {
  }

  /** The invariant holds after every sequence of calls, whatever their arguments. */
  lemma {:induction false} RunKeeps(ops: seq<Op>)
    ensures Inv(Run(ops))
    decreases |ops|
  {
    if ops != [] {
      hide Inv, Step;
      RunKeeps(ops[..|ops| - 1]);
      CallsAreFine(Run(ops[..|ops| - 1]), ops[|ops| - 1]);
    }
  }

  /** Every plugin has at most one latest version, and that one is active, built and downloadable. */
  lemma LatestIsSound(ops: seq<Op>, x: Vid)
    requires x in Run(ops).versions && Run(ops).versions[x].isLatest
    ensures var v := Run(ops).versions[x];
            && v.status == Active && v.build == Success && v.s3Key.Some? && v.downloadUrl.Some?
            && v.plugin in Run(ops).plugins && !Hidden(Run(ops).plugins[v.plugin].status)
    ensures forall y | y in Run(ops).versions && Run(ops).versions[y].isLatest ::
              Run(ops).versions[y].plugin == Run(ops).versions[x].plugin ==> y == x
  {
    hide Run;
    RunKeeps(ops);
    assert RowChecks(Run(ops).versions[x]);
  }

  /** A version that is built or being scanned has an artifact. */
  lemma ScanningMeansBuilt(ops: seq<Op>, x: Vid)
    requires x in Run(ops).versions && (Run(ops).versions[x].build == Scanning || Run(ops).versions[x].build == Success)
    ensures Run(ops).versions[x].s3Key.Some? && Run(ops).versions[x].downloadUrl.Some?
  {
    hide Run;
    RunKeeps(ops);
    assert VersionOk(Run(ops).versions[x]) && RowChecks(Run(ops).versions[x]);
  }

  /**
    In every reachable database the constraints refuse a commit exactly when a
    pending scan or poll outcome, or a failed build, is written to a latest
    version, or an uploaded version has no artifact. All other calls keep the
    constraints by themselves.
   */
  lemma ChecksRefuseExactly(ops: seq<Op>, op: Op)
    ensures CommitRefused(Run(ops), op) <==> NeedsTheCheck(Run(ops), op)
  {
    hide Run, CommitRefused, NeedsTheCheck;
    RunKeeps(ops);
    CallsAreFine(Run(ops), op);
  }

  /** Rescanning a published version is lost without trace while any outcome is pending. */
  lemma PendingRescanOfLatestIsLost(ops: seq<Op>, vid: Vid, outcomes: seq<Outcome>)
    requires vid in Run(ops).versions && Run(ops).versions[vid].isLatest && HasArtifact(Run(ops).versions[vid])
    requires AnyPending(outcomes)
    ensures Run(ops + [FinishScan(vid, outcomes)]) == Run(ops)
  {
    ChecksRefuseExactly(ops, FinishScan(vid, outcomes));
    hide ConstraintsHold, Scanned, AnyPending, HasArtifact;
    assert (ops + [FinishScan(vid, outcomes)])[..|ops|] == ops;
  }

  // ---- Two representations of scan results ----

  predicate InOldTable(required: seq<Provider>) {
    forall p | p in required :: p == VIRUSTOTAL || p == LLM_AGENT
  }

  predicate LegacyPassed(v: Version, required: seq<Provider>) {
    forall p | p in required :: LegacyResult(v, p).Some? && Acceptable(LegacyResult(v, p).value)
  }

  /** The old columns and the provider rows never disagree, so the gate may read either. */
  lemma BothRepresentationsAgree(ops: seq<Op>, x: Vid, required: seq<Provider>)
    requires x in Run(ops).versions && InOldTable(required)
    ensures var v := Run(ops).versions[x];
            && (forall p | p in required :: ScanResult(v, p) == LegacyResult(v, p))
            && (forall p | p in required && p in v.results ::
                  v.scan.Some? && ScanResult(v, p) == Some(v.results[p].result) == LegacyResult(v, p))
            && (forall p | p in required && p !in v.results && v.scan.Some? :: LegacyResult(v, p) == Some(UNSCANNED))
            && (ScanPassed(v, required) <==> LegacyPassed(v, required))
  {
    hide Run;
    RunKeeps(ops);
    var v := Run(ops).versions[x];
    assert VersionOk(v);
    forall p | p in required
      ensures Mirrors(v, p) && ScanResult(v, p) == LegacyResult(v, p)
    {
    }
  }

  // ---- Two readers of "latest" ----

  /** The order in which a query happens to return a plugin's versions. */
  ghost predicate ListsVersions(db: Db, pid: Pid, order: seq<Vid>) {
    && (forall x :: x in order <==> x in db.versions && db.versions[x].plugin == pid)
    && Distinct(order)
  }

  /** _get_latest, behind the public listing. */
  function ListedLatest(db: Db, order: seq<Vid>, required: seq<Provider>): Option<Vid>
    requires forall x | x in order :: x in db.versions
  {
    if order == [] then None
    else
      var v := db.versions[order[0]];
      if v.isLatest && v.status == Active && BuildReady(v, required) && ScanPassed(v, required) then Some(order[0])
      else ListedLatest(db, order[1..], required)
  }

  datatype Lookup = Found(vid: Vid) | NotFound | MultipleRows

  function LatestRows(db: Db, order: seq<Vid>): (rows: seq<Vid>)
    requires forall x | x in order :: x in db.versions
    ensures forall x | x in rows :: x in order
  {
    if order == [] then []
    else
      var v := db.versions[order[0]];
      (if v.isLatest && v.status == Active && v.build == Success then [order[0]] else []) + LatestRows(db, order[1..])
  }

  /** get_latest_version, behind the download endpoint. */
  function DownloadLatest(db: Db, order: seq<Vid>, required: seq<Provider>): Lookup
    requires forall x | x in order :: x in db.versions
  {
    var rows := LatestRows(db, order);
    if |rows| > 1 then MultipleRows
    else if rows == [] || !ScanPassed(db.versions[rows[0]], required) then NotFound
    else Found(rows[0])
  }

  predicate Servable(v: Version, required: seq<Provider>) {
    v.isLatest && v.status == Active && BuildReady(v, required) && ScanPassed(v, required)
  }

  lemma {:induction false} ListedIsServable(db: Db, order: seq<Vid>, required: seq<Provider>)
    requires forall x | x in order :: x in db.versions
    ensures var found := ListedLatest(db, order, required);
            if found.Some? then found.value in order && Servable(db.versions[found.value], required)
            else forall x | x in order :: !Servable(db.versions[x], required)
  {
    if order != [] {
      hide ScanPassed, BuildReady;
      ListedIsServable(db, order[1..], required);
      assert forall x | x in order :: x == order[0] || x in order[1..];
    }
  }

  lemma {:induction false} RowsAreLatest(db: Db, order: seq<Vid>)
    requires forall x | x in order :: x in db.versions
    ensures forall x | x in order ::
              (db.versions[x].isLatest && db.versions[x].status == Active
                  && db.versions[x].build == Success) <==> x in LatestRows(db, order)
  {
    if order != [] {
      RowsAreLatest(db, order[1..]);
      assert forall x | x in order :: x == order[0] || x in order[1..];
    }
  }

  ghost predicate Distinct(order: seq<Vid>) {
    forall i, j | 0 <= i < j < |order| :: order[i] != order[j]
  }

  lemma PrependDistinct(x: Vid, rest: seq<Vid>)
    requires Distinct(rest) && x !in rest
    ensures Distinct([x] + rest)
  {
  }

  lemma TailDistinct(order: seq<Vid>)
    requires Distinct(order) && order != []
    ensures Distinct(order[1..]) && order[0] !in order[1..]
  {
  }

  lemma {:induction false} RowsAreDistinct(db: Db, order: seq<Vid>)
    requires (forall x | x in order :: x in db.versions) && Distinct(order)
    ensures Distinct(LatestRows(db, order))
  {
    if order != [] {
      TailDistinct(order);
      RowsAreDistinct(db, order[1..]);
      var rest := LatestRows(db, order[1..]);
      PrependDistinct(order[0], rest);
      assert [] + rest == rest;
    }
  }

  lemma LatestIsSuccess(db: Db, x: Vid, required: seq<Provider>)
    requires Inv(db) && x in db.versions
    ensures var v := db.versions[x];
            Servable(v, required) <==> v.isLatest && v.status == Active && v.build == Success && ScanPassed(v, required)
  {
    assert RowChecks(db.versions[x]);
  }

  lemma LatestIsUnique(db: Db, x: Vid, y: Vid)
    requires Inv(db) && x in db.versions && y in db.versions
    requires db.versions[x].isLatest && db.versions[y].isLatest && db.versions[x].plugin == db.versions[y].plugin
    ensures x == y
  {
  }

  lemma AtMostOneRow(db: Db, pid: Pid, order: seq<Vid>)
    requires Inv(db) && ListsVersions(db, pid, order)
    ensures |LatestRows(db, order)| <= 1
  {
    var rows := LatestRows(db, order);
    RowsAreLatest(db, order);
    RowsAreDistinct(db, order);
    hide Inv, LatestRows;
    if |rows| > 1 {
      assert rows[0] in rows && rows[1] in rows;
      LatestIsUnique(db, rows[0], rows[1]);
    }
  }

  /**
    The public listing and the download endpoint name the same version, in
    whatever order each of them reads the rows, and the download query never
    finds two rows, although only one of them asks for a finished build.
   */
  lemma ReadersAgree(ops: seq<Op>, pid: Pid, order: seq<Vid>, other: seq<Vid>, required: seq<Provider>)
    requires ListsVersions(Run(ops), pid, order) && ListsVersions(Run(ops), pid, other)
    ensures var db := Run(ops);
            DownloadLatest(db, order, required) ==
              match ListedLatest(db, other, required) case None => NotFound case Some(x) => Found(x)
  {
    hide Run;
    RunKeeps(ops);
    var db := Run(ops);
    ListedIsServable(db, other, required);
    RowsAreLatest(db, order);
    AtMostOneRow(db, pid, order);
    var rows, listed := LatestRows(db, order), ListedLatest(db, other, required);
    hide Inv, LatestRows, ListedLatest, ScanPassed, Servable;
    if listed.Some? {
      LatestIsSuccess(db, listed.value, required);
      assert listed.value in order && rows[0] == listed.value;
    } else if rows != [] {
      assert rows[0] in rows && rows[0] in other;
      LatestIsSuccess(db, rows[0], required);
    }
  }

  /** The download endpoint ignores the plugin's status; still it never serves a disabled or deleted plugin. */
  lemma HiddenPluginsServeNothing(ops: seq<Op>, pid: Pid, order: seq<Vid>, required: seq<Provider>)
    requires ListsVersions(Run(ops), pid, order) && pid in Run(ops).plugins && Hidden(Run(ops).plugins[pid].status)
    ensures DownloadLatest(Run(ops), order, required) == NotFound
  {
    hide Run;
    RunKeeps(ops);
    ReadersAgree(ops, pid, order, order, required);
    ListedIsServable(Run(ops), order, required);
    HiddenHasNoLatest(Run(ops), pid);
  }
}

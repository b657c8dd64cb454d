/**
  Why the table constraints never refuse a poll: under a fixed list of required
  providers, no latest version has a scan of theirs under way.
 */
module LifecyclePolls {
  import opened Options
  import opened Lifecycle
  import opened LifecycleSafety
  import opened LifecycleFlow

  /** What queueing a scan writes; it names no submission that could be polled. */
  const QUEUED := Result(None, Some("Scan queued"), PendingMode)

  predicate Filled(s: Option<string>) {
    s.Some? ==> s.value != ""
  }

  /** Every gate asks for the same providers, and artifacts have keys and URLs that are not empty. */
  predicate UsesProviders(op: Op, required: seq<Provider>) {
    match op
    case SetVersionStatus(_, _, r) => r == required
    case SetLatest(_, _, r) => r == required
    case Publish(_, _, _, r) => r == required
    case CreateVersion(_, _, s3Key, downloadUrl, _) => Filled(s3Key) && Filled(downloadUrl)
    case UpdateAfterBuild(_, key, url) => key != "" && url != ""
    case _ => true
  }

  /** Each required provider has a result, and one that is pending is only queued. */
  predicate NothingUnderWay(v: Version, required: seq<Provider>) {
    forall p | p in required ::
      ScanResult(v, p).Some? && (ScanResult(v, p).value.mode == PendingMode ==> ScanResult(v, p).value == QUEUED)
  }

  predicate Settled(v: Version, required: seq<Provider>) {
    Filled(v.s3Key) && Filled(v.downloadUrl) && (v.isLatest ==> NothingUnderWay(v, required))
  }

  predicate AllSettled(db: Db, required: seq<Provider>) {
    forall x | x in db.versions :: Settled(db.versions[x], required)
  }

  lemma {:induction false} LegacyAfter(v: Version, outcomes: seq<Outcome>, p: Provider)
    requires v.scan.Some? && forall o | o in outcomes :: o.provider != p
    ensures LegacyResult(WriteResults(v, outcomes), p) == LegacyResult(v, p)
    decreases |outcomes|
  {
    if outcomes != [] {
      LegacyAfter(WriteResult(v, outcomes[0].provider, outcomes[0].result), outcomes[1..], p);
    }
  }

  lemma UntouchedResult(v: Version, outcomes: seq<Outcome>, p: Provider)
    requires ScanResult(v, p).Some? && forall o | o in outcomes :: o.provider != p
    ensures ScanResult(WriteResults(v, outcomes), p) == ScanResult(v, p)
  {
    RowAfter(v, outcomes, p);
    if v.scan.Some? {
      LegacyAfter(v, outcomes, p);
    }
    hide WriteResults;
  }

  lemma WritesSettle(v: Version, outcomes: seq<Outcome>, required: seq<Provider>)
    requires NothingUnderWay(v, required) && forall o | o in outcomes :: o.result.mode == PendingMode ==>
             o.result == QUEUED
    ensures NothingUnderWay(WriteResults(v, outcomes), required)
  {
    hide WriteResults;
    forall p | p in required
      ensures ScanResult(WriteResults(v, outcomes), p).Some?
      ensures ScanResult(WriteResults(v, outcomes), p).value.mode == PendingMode ==>
                ScanResult(WriteResults(v, outcomes), p).value == QUEUED
    {
      if exists o | o in outcomes :: o.provider == p {
        ResultAfter(v, outcomes, p);
      } else {
        UntouchedResult(v, outcomes, p);
      }
    }
  }

  lemma {:induction false} MarksAreQuiet(selected: seq<Provider>, pass: Option<bool>)
    ensures forall o | o in Queue(selected) :: o.result == QUEUED
    ensures forall o | o in Skip(selected, pass) :: o.result.mode == Skipped
  {
    if selected != [] {
      MarksAreQuiet(selected[1..], pass);
    }
  }

  /** What a scan call leaves on its version. */
  lemma ScanCallsSettle(db: Db, op: Op, required: seq<Provider>)
    requires Inv(db) && AllSettled(db, required) && Writes(db, op).Some? && ConstraintsHold(Writes(db, op).value)
    requires op.FinishScan? || op.CompleteOutcome? || op.MarkPending? || op.MarkSkipped?
    ensures op.vid in db.versions &&
        Writes(db, op).value == PutVersion(db, op.vid, Writes(db, op).value.versions[op.vid])
    ensures Settled(Writes(db, op).value.versions[op.vid], required)
  {
    var v := db.versions[op.vid];
    var outcomes := match op
      case FinishScan(_, outcomes) => outcomes
      case CompleteOutcome(_, outcome) => [outcome]
      case MarkPending(_, selected) => Queue(selected)
      case MarkSkipped(_, selected, pass) => Skip(selected, pass)
      case _ => [];
    assert Settled(v, required) && RowChecks(v);
    CallsAreFine(db, op);
    WritesOnlyResults(v, outcomes);
    hide WriteResults, ConstraintsHold, Inv, NothingUnderWay, AllSettled, Queue, Skip;
    if v.isLatest {
      if op.MarkPending? {
        MarksAreQuiet(op.selected, None);
      } else if op.MarkSkipped? {
        MarksAreQuiet(op.selected, op.pass);
      } else {
        assert forall o | o in outcomes :: o.result.mode != PendingMode;
      }
      WritesSettle(v, outcomes, required);
    }
    var w := WriteResults(v, outcomes);
    var next := Writes(db, op).value.versions[op.vid];
    SameResults(w, next, required);
  }

  lemma SameResults(v: Version, w: Version, required: seq<Provider>)
    requires v.scan == w.scan && v.results == w.results
    ensures NothingUnderWay(v, required) <==> NothingUnderWay(w, required)
  {
    assert forall p :: ScanResult(v, p) == ScanResult(w, p);
    hide ScanResult;
  }

  lemma GateSettles(v: Version, w: Version, required: seq<Provider>)
    requires Gate(v, required) && HUMAN !in required && w.scan == v.scan
    requires forall p | p in required ::
               (p in w.results <==> p in v.results) && (p in w.results ==> w.results[p] == v.results[p])
    ensures NothingUnderWay(w, required)
  {
    assert forall p | p in required :: ScanResult(w, p) == ScanResult(v, p);
    hide ScanResult;
  }

  lemma StepSettles(db: Db, op: Op, required: seq<Provider>)
    requires Inv(db) && AllSettled(db, required) && UsesProviders(op, required) && HUMAN !in required
    ensures AllSettled(Step(db, op), required)
  {
    if Writes(db, op).Some? && ConstraintsHold(Writes(db, op).value) {
      var next := Writes(db, op).value;
      if op.FinishScan? || op.CompleteOutcome? || op.MarkPending? || op.MarkSkipped? {
        ScanCallsSettle(db, op, required);
      } else {
        forall x | x in next.versions
          ensures Settled(next.versions[x], required)
        {
          if op.SetLatest? || op.Publish? {
            PromotionsSettle(db, op, required, x);
          } else {
            PlainCallsSettle(db, op, required, x);
          }
        }
      }
    }
  }

  lemma PromotionsSettle(db: Db, op: Op, required: seq<Provider>, x: Vid)
    requires Inv(db) && AllSettled(db, required) && UsesProviders(op, required) && HUMAN !in required
    requires (op.SetLatest? || op.Publish?) && Writes(db, op).Some? && x in Writes(db, op).value.versions
    ensures Settled(Writes(db, op).value.versions[x], required)
  {
    hide NothingUnderWay, Inv, Gate, ConstraintsHold, HumanRow;
    var v, w := db.versions[x], Writes(db, op).value.versions[x];
    assert Settled(v, required);
    if x == op.vid {
      GateSettles(v, w, required);
    }
  }

  lemma SettlingKeepsResults(v: Version)
    ensures SettleBuild(v) == v.(build := SettleBuild(v).build)
  {
  }

  lemma PlainCallsSettle(db: Db, op: Op, required: seq<Provider>, x: Vid)
    requires Inv(db) && AllSettled(db, required) && UsesProviders(op, required)
    requires Writes(db, op).Some? && x in Writes(db, op).value.versions
    requires !op.FinishScan? && !op.CompleteOutcome? && !op.MarkPending? && !op.MarkSkipped? && !op.SetLatest?
             && !op.Publish?
    ensures Settled(Writes(db, op).value.versions[x], required)
  {
    var w := Writes(db, op).value.versions[x];
    if x in db.versions {
      var v := db.versions[x];
      assert Settled(v, required) && RowChecks(v);
      hide NothingUnderWay, Inv, AllSettled, Gate, ConstraintsHold, RowChecks, ScanResult, ReviewAfter, ScanOrNew;
      hide SettleBuild;
      SettlingKeepsResults(v);
      if w.isLatest {
        assert v.isLatest && w.scan == v.scan && w.results == v.results;
        SameResults(v, w, required);
      }
    }
  }

  lemma {:induction false} RunSettles(ops: seq<Op>, required: seq<Provider>)
    requires HUMAN !in required && forall op | op in ops :: UsesProviders(op, required)
    ensures AllSettled(Run(ops), required)
    decreases |ops|
  {
    if ops != [] {
      hide Inv, Step, AllSettled;
      RunKeeps(ops[..|ops| - 1]);
      RunSettles(ops[..|ops| - 1], required);
      StepSettles(Run(ops[..|ops| - 1]), ops[|ops| - 1], required);
    }
  }

  /**
    Whatever a poll of a scan that is under way brings back, the constraints
    accept it: the version it belongs to is not a latest one.
   */
  lemma PollsAreNeverRefused(ops: seq<Op>, required: seq<Provider>, vid: Vid, outcome: Outcome)
    requires HUMAN !in required && forall op | op in ops :: UsesProviders(op, required)
    requires vid in Run(ops).versions && outcome.provider in required
    requires var r := ScanResult(Run(ops).versions[vid], outcome.provider);
             r.Some? && r.value.mode == PendingMode && r.value != QUEUED
    ensures !Run(ops).versions[vid].isLatest && !CommitRefused(Run(ops), CompleteOutcome(vid, outcome))
  {
    RunSettles(ops, required);
    assert Settled(Run(ops).versions[vid], required);
    ChecksRefuseExactly(ops, CompleteOutcome(vid, outcome));
    hide Run, CommitRefused;
  }
}

/**
  The service calls as the program runs them: rows are changed one after the
  other and a commit at the end keeps or undoes all of it.
 */
module LifecycleService {
  import opened Options
  import opened Lifecycle
  import opened LifecycleSafety

  /** vid is the one latest version of its plugin, and can be. */
  ghost predicate IsTheLatest(db: Db, pid: Pid, vid: Vid) {
    && vid in db.versions && db.versions[vid].plugin == pid && db.versions[vid].status == Active
        && db.versions[vid].build == Success
    && forall x | x in db.versions && db.versions[x].plugin == pid :: db.versions[x].isLatest <==> x == vid
  }

  /** Only this version's row is new. */
  ghost predicate Replaces(before: map<Vid, Version>, after: map<Vid, Version>, vid: Vid) {
    vid in before && vid in after && after == before[vid := after[vid]]
  }

  /** No version of the plugin is latest any more; nothing else changed. */
  ghost predicate TakesOff(before: map<Vid, Version>, after: map<Vid, Version>, pid: Pid) {
    && after.Keys == before.Keys
    && forall x | x in before ::
         after[x] == if before[x].plugin == pid then before[x].(isLatest := false) else before[x]
  }

  class Session {
    var plugins: map<Pid, Plugin>
    var versions: map<Vid, Version>

    constructor ()
      ensures Snapshot() == Db(map[], map[])
    {
      plugins, versions := map[], map[];
    }

    function Snapshot(): Db
      reads this
    {
      Db(plugins, versions)
    }

    /** A service call ends as specified, keeps the invariant, and leaves no trace unless it was done. */
    twostate predicate Ends(op: Op, done: bool)
      reads this
    {
      && Snapshot() == Step(old(Snapshot()), op)
      && (!done ==> Snapshot() == old(Snapshot()))
      && (Inv(old(Snapshot())) ==> Inv(Snapshot()))
    }

    method Commit(before: Db) returns (kept: bool)
      modifies this
      ensures kept <==> ConstraintsHold(old(Snapshot()))
      ensures Snapshot() == if kept then old(Snapshot()) else before
    {
      kept := ConstraintsHold(Snapshot());
      if !kept {
        plugins, versions := before.plugins, before.versions;
      }
    }

    method SetPluginStatus(pid: Pid, status: PluginStatus, review: Option<ReviewStatus>) returns (done: bool)
      modifies this
      ensures Ends(Op.SetPluginStatus(pid, status, review), done)
      ensures old(Inv(Snapshot())) ==> (done <==> pid in old(plugins))
      ensures done ==> pid in old(plugins) && pid in plugins
                       && plugins == old(plugins)[pid := old(plugins)[pid].(status := status,
                                                                            review := plugins[pid].review)]
      ensures done && review.Some? ==> plugins[pid].review == review.value
      ensures done && review.None? && old(plugins)[pid].review == ReviewPending ==>
                && (status == PluginActive ==> plugins[pid].review == Approved)
                && (status == PluginDisabled ==> plugins[pid].review == Rejected)
                && (status == PluginPending || status == PluginDeleted ==> plugins[pid].review == ReviewPending)
      ensures done && review.None? && old(plugins)[pid].review != ReviewPending ==>
                plugins[pid].review == old(plugins)[pid].review
      ensures done && (status == PluginPending || status == PluginActive) ==> versions == old(versions)
      ensures done && (status == PluginDisabled || status == PluginDeleted) ==> TakesOff(old(versions), versions, pid)
    {
      var before := Snapshot();
      Foreseen(before, Op.SetPluginStatus(pid, status, review));
      if pid !in plugins {
        return false;
      }
      var reviewed := if review.Some? then review.value
                      else if status == PluginActive && plugins[pid].review == ReviewPending then Approved
                      else if status == PluginDisabled && plugins[pid].review == ReviewPending then Rejected
                      else plugins[pid].review;
      plugins := plugins[pid := plugins[pid].(status := status, review := reviewed)];
      if status == PluginDisabled || status == PluginDeleted {
        versions := ClearLatest(versions, pid);
      }
      done := Commit(before);
    }

    method SetVersionStatus(vid: Vid, status: VersionStatus, required: seq<Provider>) returns (done: bool)
      modifies this
      ensures Ends(Op.SetVersionStatus(vid, status, required), done)
      ensures old(Inv(Snapshot())) ==>
                (done <==> vid in old(versions) && (status == Active ==> Gate(old(versions)[vid], required)))
      ensures done ==> plugins == old(plugins) && Replaces(old(versions), versions, vid)
      ensures done && status == Active ==>
                versions[vid] == old(versions)[vid].(status := Active, build := Success)
      ensures done && status != Active ==>
                versions[vid] == old(versions)[vid].(status := status, isLatest := false)
    {
      hide ConstraintsHold, ScanPassed, ScanPending;
      var before := Snapshot();
      Foreseen(before, Op.SetVersionStatus(vid, status, required));
      if vid !in versions {
        return false;
      }
      if status == Active {
        if !BuildReady(versions[vid], required) || !ScanPassed(versions[vid], required) {
          return false;
        }
        if versions[vid].build == Scanning {
          versions := versions[vid := versions[vid].(build := Success)];
        }
      }
      versions := versions[vid := versions[vid].(status := status)];
      if status == Draft || status == Deprecated || status == Deleted {
        versions := versions[vid := versions[vid].(isLatest := false)];
      }
      assert Writes(before, Op.SetVersionStatus(vid, status, required)).value.versions == versions;
      done := Commit(before);
    }

    method SetLatestVersion(pid: Pid, vid: Vid, required: seq<Provider>) returns (done: bool)
      modifies this
      ensures Ends(SetLatest(pid, vid, required), done)
      ensures old(Inv(Snapshot())) ==>
                (done <==> && pid in old(plugins) && old(plugins)[pid].status == PluginActive
                           && vid in old(versions) && old(versions)[vid].plugin == pid
                               && old(versions)[vid].status == Active
                           && Gate(old(versions)[vid], required))
      ensures done ==> IsTheLatest(Snapshot(), pid, vid) && plugins == old(plugins)
      ensures done ==> TakesOff(old(versions), versions[vid := old(versions)[vid].(isLatest := false)], pid)
                       && versions[vid] == old(versions)[vid].(isLatest := true, build := Success)
    {
      hide ConstraintsHold, ScanPassed, ScanPending, ClearLatest, Promote, TakesOff, Inv;
      var before := Snapshot();
      Foreseen(before, SetLatest(pid, vid, required));
      if pid !in plugins || plugins[pid].status != PluginActive {
        return false;
      }
      if vid !in versions || versions[vid].plugin != pid || versions[vid].status != Active {
        return false;
      }
      var row := versions[vid];
      if !BuildReady(row, required) || !ScanPassed(row, required) {
        return false;
      }
      if row.build == Scanning {
        row := row.(build := Success);
      }
      versions := ClearLatest(versions, pid);
      row := row.(isLatest := true);
      versions := versions[vid := row];
      CrownedRow(before, pid, vid, required, row);
      CrownedIsTheLatest(before.versions, pid, vid, row);
      done := Commit(before);
    }

    method PublishPluginVersion(pid: Pid, vid: Vid, verdict: ReviewStatus, required: seq<Provider>) returns (done: bool)
      modifies this
      ensures Ends(Publish(pid, vid, verdict, required), done)
      ensures old(Inv(Snapshot())) ==>
                (done <==> && (verdict == Approved || verdict == ReviewSkipped) && pid in old(plugins)
                           && vid in old(versions) && old(versions)[vid].plugin == pid
                               && Gate(old(versions)[vid], required))
      ensures done ==> IsTheLatest(Snapshot(), pid, vid) && pid in old(plugins)
                       && plugins == old(plugins)[pid := old(plugins)[pid].(status := PluginActive, review := verdict)]
      ensures done ==> TakesOff(old(versions), versions[vid := old(versions)[vid].(isLatest := false)], pid)
                       && versions[vid] == old(versions)[vid].(isLatest := true, status := Active, build := Success,
                                                               results := versions[vid].results)
      ensures done && verdict == Approved ==>
                versions[vid].results == old(versions)[vid].results[HUMAN := ProviderRow(HumanKind,
                  Result(Some(true), Some("Human review approved"), Real))]
      ensures done && verdict == ReviewSkipped ==>
                versions[vid].results == old(versions)[vid].results[HUMAN := ProviderRow(HumanKind,
                  Result(Some(true), Some("Human review skipped"), Skipped))]
    {
      hide ConstraintsHold, ScanPassed, ScanPending, HumanRow, ClearLatest, Promote, TakesOff, Inv;
      var before := Snapshot();
      Foreseen(before, Publish(pid, vid, verdict, required));
      HumanRows();
      if verdict != Approved && verdict != ReviewSkipped {
        return false;
      }
      if pid !in plugins || vid !in versions || versions[vid].plugin != pid {
        return false;
      }
      var row := versions[vid];
      if !BuildReady(row, required) || !ScanPassed(row, required) {
        return false;
      }
      if row.build == Scanning {
        row := row.(build := Success);
      }
      plugins := plugins[pid := plugins[pid].(status := PluginActive, review := verdict)];
      row := row.(status := Active);
      versions := ClearLatest(versions, pid);
      row := row.(isLatest := true);
      row := row.(results := row.results[HUMAN := HumanRow(verdict)]);
      versions := versions[vid := row];
      PublishedRow(before, pid, vid, verdict, required, row);
      CrownedIsTheLatest(before.versions, pid, vid, row);
      done := Commit(before);
    }

    /** Writes each outcome to the provider row and to the old columns. */
    method StoreResults(vid: Vid, outcomes: seq<Outcome>)
      requires vid in versions
      modifies this`versions
      ensures versions == old(versions)[vid := WriteResults(old(versions)[vid], outcomes)]
    {
      versions := versions[vid := versions[vid].(scan := Some(ScanOrNew(versions[vid])))];
      ScanRowFirst(old(versions)[vid], outcomes);
      for i := 0 to |outcomes|
        invariant vid in versions && versions[vid].scan.Some?
        invariant versions == old(versions)[vid := versions[vid]]
        invariant WriteResults(versions[vid], outcomes[i..]) == WriteResults(old(versions)[vid], outcomes)
      {
        var o := outcomes[i];
        assert outcomes[i..][1..] == outcomes[i + 1..];
        var row := versions[vid];
        var scan := WriteLegacy(row.scan.value, o.provider, o.result);
        var results := row.results[o.provider := ProviderRow(ScanKind, o.result)];
        versions := versions[vid := row.(scan := Some(scan), results := results)];
      }
      assert versions[vid].(scan := Some(ScanOrNew(versions[vid]))) == versions[vid];
    }

    /** The second half of scan_version, from the first outcome to the commit. */
    method FinishScan(vid: Vid, outcomes: seq<Outcome>) returns (done: bool)
      modifies this
      ensures Ends(Op.FinishScan(vid, outcomes), done)
      ensures old(Inv(Snapshot())) ==>
                (done <==> vid in old(versions)
                           && !(old(versions)[vid].isLatest && HasArtifact(old(versions)[vid]) && AnyPending(outcomes)))
      ensures done ==> plugins == old(plugins) && Replaces(old(versions), versions, vid)
                       && Recorded(old(versions)[vid], versions[vid].(build := old(versions)[vid].build), outcomes)
      ensures done && !HasArtifact(old(versions)[vid]) ==> versions[vid].build == old(versions)[vid].build
      ensures done && HasArtifact(old(versions)[vid]) ==>
                versions[vid].build == if exists o | o in outcomes :: o.result.mode == PendingMode then Scanning
                                       else Success
    {
      hide ConstraintsHold, WriteResults, AnyPending, Records, LeavesAlone, IsLastOf;
      var before := Snapshot();
      Foreseen(before, Op.FinishScan(vid, outcomes));
      if vid !in versions {
        return false;
      }
      StoreResults(vid, outcomes);
      WritesAreRecorded(before.versions[vid], outcomes);
      PendingMeans(outcomes);
      if HasArtifact(versions[vid]) {
        versions := versions[vid := versions[vid].(build := if AnyPending(outcomes) then Scanning else Success)];
      }
      assert Writes(before, Op.FinishScan(vid, outcomes)).value.versions == versions;
      done := Commit(before);
    }

    method MarkScanPending(vid: Vid, selected: seq<Provider>) returns (done: bool)
      modifies this
      ensures Ends(MarkPending(vid, selected), done)
      ensures old(Inv(Snapshot())) ==> (done <==> vid in old(versions))
      ensures done ==> plugins == old(plugins) && Replaces(old(versions), versions, vid)
                       && MarksEach(old(versions)[vid], versions[vid], selected,
                                    Result(None, Some("Scan queued"), PendingMode))
      ensures done ==>
                var v := old(versions)[vid];
                var marked := HasArtifact(v) && !(v.isLatest && v.status == Active);
                versions[vid].build == if marked then Scanning else v.build
      ensures done && old(Inv(Snapshot())) && versions[vid].isLatest ==> versions[vid].build == Success
    {
      hide ConstraintsHold, WriteResults, Queue, Records, LeavesAlone;
      var before := Snapshot();
      Foreseen(before, MarkPending(vid, selected));
      if vid !in versions {
        return false;
      }
      StoreResults(vid, Queue(selected));
      WritesOnlyResults(before.versions[vid], Queue(selected));
      QueueAsksEach(selected);
      ghost var queued := Result(None, Some("Scan queued"), PendingMode);
      MarksAreWritten(before.versions[vid], Queue(selected), selected, queued);
      BuildMarksNothing(before.versions[vid], versions[vid], selected, queued, Scanning);
      if CanMarkScanning(versions[vid]) {
        versions := versions[vid := versions[vid].(build := Scanning)];
      }
      assert Writes(before, MarkPending(vid, selected)).value.versions == versions;
      done := Commit(before);
      assert done && Inv(Snapshot()) ==> RowChecks(versions[vid]) by {
        LatestRowsCheck(Snapshot());
      }
    }

    method MarkScanSkipped(vid: Vid, selected: seq<Provider>, pass: Option<bool>) returns (done: bool)
      modifies this
      ensures Ends(MarkSkipped(vid, selected, pass), done)
      ensures old(Inv(Snapshot())) ==> (done <==> vid in old(versions))
      ensures done ==> plugins == old(plugins) && Replaces(old(versions), versions, vid)
                       && MarksEach(old(versions)[vid], versions[vid], selected,
                                    Result(pass, Some("Manually skipped"), Skipped))
      ensures done ==>
                versions[vid].build == if HasArtifact(old(versions)[vid]) then Success else old(versions)[vid].build
    {
      hide ConstraintsHold, WriteResults, Skip, Records, LeavesAlone;
      var before := Snapshot();
      Foreseen(before, MarkSkipped(vid, selected, pass));
      if vid !in versions {
        return false;
      }
      StoreResults(vid, Skip(selected, pass));
      WritesOnlyResults(before.versions[vid], Skip(selected, pass));
      SkipSkipsEach(selected, pass);
      ghost var skipped := Result(pass, Some("Manually skipped"), Skipped);
      MarksAreWritten(before.versions[vid], Skip(selected, pass), selected, skipped);
      BuildMarksNothing(before.versions[vid], versions[vid], selected, skipped, Success);
      if HasArtifact(versions[vid]) {
        versions := versions[vid := versions[vid].(build := Success)];
      }
      assert Writes(before, MarkSkipped(vid, selected, pass)).value.versions == versions;
      done := Commit(before);
    }

    /** The failure handler of a build. */
    method FailBuild(vid: Vid) returns (done: bool)
      modifies this
      ensures Ends(Op.FailBuild(vid), done)
      ensures old(Inv(Snapshot())) ==> (done <==> vid in old(versions) && !old(versions)[vid].isLatest)
      ensures done ==> plugins == old(plugins) && Replaces(old(versions), versions, vid)
                       && versions[vid] == old(versions)[vid].(build := Failed)
    {
      hide ConstraintsHold;
      var before := Snapshot();
      Foreseen(before, Op.FailBuild(vid));
      if vid !in versions {
        return false;
      }
      versions := versions[vid := versions[vid].(build := Failed)];
      done := Commit(before);
    }
  }

  lemma CrownedIsTheLatest(versions: map<Vid, Version>, pid: Pid, vid: Vid, row: Version)
    requires vid in versions && row.plugin == pid && row.isLatest
    ensures var crowned := ClearLatest(versions, pid)[vid := row];
            forall x | x in crowned && crowned[x].plugin == pid :: crowned[x].isLatest <==> x == vid
    ensures versions[vid].plugin == pid ==>
              TakesOff(versions, ClearLatest(versions, pid)[vid := row][vid := versions[vid].(isLatest := false)], pid)
  {
  }

  lemma HumanRows()
    ensures HumanRow(Approved) == ProviderRow(HumanKind, Result(Some(true), Some("Human review approved"), Real))
    ensures HumanRow(ReviewSkipped) == ProviderRow(HumanKind, Result(Some(true), Some("Human review skipped"), Skipped))
  {
  }

  lemma PendingMeans(outcomes: seq<Outcome>)
    ensures AnyPending(outcomes) <==> exists o | o in outcomes :: o.result.mode == PendingMode
  {
  }

  lemma LatestRowsCheck(db: Db)
    ensures Inv(db) ==> forall x | x in db.versions :: RowChecks(db.versions[x])
  {
    hide RowChecks;
  }

  lemma Foreseen(db: Db, op: Op)
    ensures Inv(db) ==> Inv(Step(db, op)) && (CommitRefused(db, op) <==> NeedsTheCheck(db, op))
  {
    if Inv(db) {
      CallsAreFine(db, op);
    }
  }

  lemma CrownedRow(db: Db, pid: Pid, vid: Vid, required: seq<Provider>, row: Version)
    requires pid in db.plugins && db.plugins[pid].status == PluginActive
    requires vid in db.versions && db.versions[vid].plugin == pid && db.versions[vid].status == Active
    requires Gate(db.versions[vid], required) && row == SettleBuild(db.versions[vid]).(isLatest := true)
    ensures Writes(db, SetLatest(pid, vid, required)) ==
              Some(db.(versions := ClearLatest(db.versions, pid)[vid := row]))
  {
    hide Gate, ClearLatest;
  }

  lemma PublishedRow(db: Db, pid: Pid, vid: Vid, verdict: ReviewStatus, required: seq<Provider>, row: Version)
    requires pid in db.plugins && vid in db.versions && db.versions[vid].plugin == pid
             && Gate(db.versions[vid], required)
    requires verdict == Approved || verdict == ReviewSkipped
    requires var v := SettleBuild(db.versions[vid]);
             row == v.(status := Active, isLatest := true, results := v.results[HUMAN := HumanRow(verdict)])
    ensures Writes(db, Publish(pid, vid, verdict, required)) ==
              Some(Db(db.plugins[pid := db.plugins[pid].(status := PluginActive, review := verdict)],
                      ClearLatest(db.versions, pid)[vid := row]))
  {
    hide Gate, ClearLatest, HumanRow;
  }

  /** Creating the scan row up front changes nothing that is written later. */
  lemma ScanRowFirst(v: Version, outcomes: seq<Outcome>)
    ensures WriteResults(v.(scan := Some(ScanOrNew(v))), outcomes) == WriteResults(v, outcomes)
  {
    if outcomes != [] {
      assert WriteResult(v.(scan := Some(ScanOrNew(v))), outcomes[0].provider, outcomes[0].result)
          == WriteResult(v, outcomes[0].provider, outcomes[0].result);
    }
  }
}

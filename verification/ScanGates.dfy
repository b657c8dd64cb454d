/**
  The publish gate as three programs compute it: the server from its rows, the
  dashboard from the summary it is served, and the CLI while it waits.
 */
module ScanGates {
  import opened Options
  import opened Lifecycle
  import opened LifecycleFlow
  import opened LifecycleSafety

  /** A value inside the served scan object. */
  datatype Field = Entry(result: Result) | Time(at: Option<string>) | Names(names: seq<string>)

  type ScanObject = map<string, Field>

  datatype Summary = Summary(build: BuildStatus, status: VersionStatus, scan: ScanObject)

  const SCANNED_AT := "scanned_at"
  const REQUIRED := "required_providers"

  /** The providers an operator can require. */
  predicate AreKnown(required: seq<Provider>) {
    forall p | p in required :: p == "clamav" || p == VIRUSTOTAL || p == LLM_AGENT
  }

  // ---- The server ----

  function EffectiveBuildStatus(v: Version, required: seq<Provider>): BuildStatus {
    if v.build == Scanning && !ScanPending(v, required) then Success else v.build
  }

  /** The summary the admin endpoints send. */
  function Served(v: Version, required: seq<Provider>, scannedAt: Option<string>): Summary {
    var results: ScanObject := map p | p in required && ScanResult(v, p).Some? :: Entry(ScanResult(v, p).value);
    Summary(EffectiveBuildStatus(v, required), v.status,
            results[SCANNED_AT := Time(scannedAt)][REQUIRED := Names(required)])
  }

  lemma ServedFields(v: Version, required: seq<Provider>, scannedAt: Option<string>, p: Provider)
    requires AreKnown(required)
    ensures var scan := Served(v, required, scannedAt).scan;
            && REQUIRED in scan && scan[REQUIRED] == Names(required)
            && (p in scan && scan[p].Entry? <==> p in required && ScanResult(v, p).Some?)
            && (p in scan && scan[p].Entry? ==> scan[p].result == ScanResult(v, p).value)
  {
    assert p in required ==> p != SCANNED_AT && p != REQUIRED;
  }

  // ---- The dashboard ----

  function EnabledProviders(scan: ScanObject): Option<seq<string>> {
    if REQUIRED in scan && scan[REQUIRED].Names? then Some(scan[REQUIRED].names) else None
  }

  /** scanProviderEntries, without its sort order. */
  function ProviderEntries(scan: ScanObject): map<string, Result> {
    var enabled := EnabledProviders(scan);
    map p | p in scan && (enabled.Some? ==> p in enabled.value) && p != SCANNED_AT && scan[p].Entry? :: scan[p].result
  }

  function RequiredResults(scan: ScanObject): Option<seq<Option<Result>>> {
    var enabled := EnabledProviders(scan);
    if enabled.None? then None
    else
      var byProvider := ProviderEntries(scan);
      Some(seq(|enabled.value|, i requires 0 <= i < |enabled.value| =>
        if enabled.value[i] in byProvider then Some(byProvider[enabled.value[i]]) else None))
  }

  predicate HasPending(scan: ScanObject) {
    var required := RequiredResults(scan);
    if required.Some? then exists r | r in required.value :: r.None? || r.value.mode == PendingMode
    else var entries := ProviderEntries(scan); exists p | p in entries :: entries[p].mode == PendingMode
  }

  predicate Blocks(r: Option<Result>) {
    if r.None? then true
    else if r.value.mode == Skipped then false
    else if r.value.mode == PendingMode || r.value.mode == Error then true
    else if r.value.pass == Some(false) then true
    else r.value.pass.None?
  }

  predicate HasBlockingResult(scan: ScanObject) {
    var required := RequiredResults(scan);
    if required.Some? then exists r | r in required.value :: Blocks(r)
    else var entries := ProviderEntries(scan); exists p | p in entries :: Blocks(Some(entries[p]))
  }

  predicate CanActivateVersion(version: Summary) {
    version.build == Success && !HasPending(version.scan) && !HasBlockingResult(version.scan)
  }

  lemma RequiredResultsServed(v: Version, required: seq<Provider>, scannedAt: Option<string>)
    requires AreKnown(required)
    ensures var scan := Served(v, required, scannedAt).scan;
            && RequiredResults(scan).Some? && |RequiredResults(scan).value| == |required|
            && forall i | 0 <= i < |required| :: RequiredResults(scan).value[i] == ScanResult(v, required[i])
  {
    var scan := Served(v, required, scannedAt).scan;
    ServedFields(v, required, scannedAt, REQUIRED);
    forall i | 0 <= i < |required|
      ensures RequiredResults(scan).value[i] == ScanResult(v, required[i])
    {
      ServedFields(v, required, scannedAt, required[i]);
    }
  }

  lemma BlocksUnlessAcceptable(r: Option<Result>)
    ensures Blocks(r) <==> r.None? || !Acceptable(r.value)
    ensures (r.None? || r.value.mode == PendingMode) ==> Blocks(r)
  {
    if r.Some? && r.value.pass.Some? {
      match r.value.pass.value
      case true => assert r.value.pass == Some(true);
      case false => assert r.value.pass == Some(false);
    }
  }

  /** The dashboard offers activation exactly when the server would allow it. */
  lemma DashboardAgreesWithServer(v: Version, required: seq<Provider>, scannedAt: Option<string>)
    requires AreKnown(required)
    ensures CanActivateVersion(Served(v, required, scannedAt)) <==> BuildReady(v, required) && ScanPassed(v, required)
  {
    var scan := Served(v, required, scannedAt).scan;
    RequiredResultsServed(v, required, scannedAt);
    var results := RequiredResults(scan).value;
    forall i | 0 <= i < |required|
      ensures Blocks(results[i]) <==> results[i].None? || !Acceptable(results[i].value)
      ensures (results[i].None? || results[i].value.mode == PendingMode) ==> Blocks(results[i])
    {
      BlocksUnlessAcceptable(results[i]);
    }
    hide Blocks, Acceptable, ScanResult, RequiredResults, Served;
    assert ScanPassed(v, required) <==> forall i | 0 <= i < |required| :: !Blocks(results[i]) by {
      assert forall i | 0 <= i < |required| :: required[i] in required;
    }
    assert HasBlockingResult(scan) <==> exists i | 0 <= i < |required| :: Blocks(results[i]);
    assert HasPending(scan) ==> HasBlockingResult(scan);
    ServedBuild(v, required, scannedAt);
  }

  lemma ServedBuild(v: Version, required: seq<Provider>, scannedAt: Option<string>)
    ensures Served(v, required, scannedAt).build == Success <==> BuildReady(v, required)
  {
  }

  /** A summary without a list of required providers: every result in it must be fine. */
  lemma WithoutAListAllMustPass(version: Summary)
    requires REQUIRED !in version.scan || !version.scan[REQUIRED].Names?
    ensures CanActivateVersion(version) <==>
              && version.build == Success
              && forall p | p in version.scan && p != SCANNED_AT && version.scan[p].Entry? ::
                   var r := version.scan[p].result;
                   r.mode == Skipped || (r.mode == Real && r.pass == Some(true))
  {
    var scan := version.scan;
    var entries := ProviderEntries(scan);
    assert forall p :: p in entries <==> p in scan && p != SCANNED_AT && scan[p].Entry?;
    forall p | p in entries
      ensures entries[p] == scan[p].result
      ensures Blocks(Some(entries[p])) <==> !Acceptable(entries[p])
      ensures entries[p].mode == PendingMode ==> Blocks(Some(entries[p]))
    {
      BlocksUnlessAcceptable(Some(entries[p]));
    }
    hide Blocks, ProviderEntries;
  }

  datatype Blocker =
    | PluginInactive
    | VersionNotCandidate
    | StillBuilding
    | StillScanning
    | BuildNotSuccessful
    | ScanNotPassed

  function Deduplicated(blockers: seq<Blocker>): (r: seq<Blocker>)
    ensures forall b :: b in r <==> b in blockers
    ensures blockers == [] <==> r == []
  {
    if blockers == [] then []
    else
      var rest := Deduplicated(blockers[..|blockers| - 1]);
      var last := blockers[|blockers| - 1];
      if last in rest then rest else rest + [last]
  }

  /** The list is empty exactly when nothing stands in the way of making the version latest. */
  method GetVersionBlockers(pluginStatus: PluginStatus, version: Summary, includePlugin: bool, includeVersion: bool)
    returns (blockers: seq<Blocker>)
    ensures blockers == [] <==>
              && (includePlugin ==> pluginStatus == PluginActive) && (includeVersion ==> version.status == Active)
              && CanActivateVersion(version)
    ensures PluginInactive in blockers <==> includePlugin && pluginStatus != PluginActive
    ensures VersionNotCandidate in blockers <==> includeVersion && version.status != Active
    ensures ScanNotPassed in blockers <==> !HasPending(version.scan) && HasBlockingResult(version.scan)
    ensures StillScanning in blockers <==> version.build == Scanning || HasPending(version.scan)
    ensures StillBuilding in blockers <==> version.build == Building || version.build == Pending
    ensures BuildNotSuccessful in blockers <==> version.build == Failed
  {
    hide HasPending, HasBlockingResult, Deduplicated;
    blockers := [];
    if includePlugin && pluginStatus != PluginActive {
      blockers := blockers + [PluginInactive];
    }
    if includeVersion && version.status != Active {
      blockers := blockers + [VersionNotCandidate];
    }
    if version.build == Building || version.build == Pending {
      blockers := blockers + [StillBuilding];
    } else if version.build == Scanning {
      blockers := blockers + [StillScanning];
    } else if version.build != Success {
      blockers := blockers + [BuildNotSuccessful];
    }
    if HasPending(version.scan) {
      blockers := blockers + [StillScanning];
    } else if HasBlockingResult(version.scan) {
      blockers := blockers + [ScanNotPassed];
    }
    blockers := Deduplicated(blockers);
  }

  /** An empty list of blockers means the server will not refuse to make the version latest. */
  lemma NoBlockersMeansSetLatest(db: Db, pid: Pid, vid: Vid, required: seq<Provider>, scannedAt: Option<string>)
    requires AreKnown(required) && pid in db.plugins && vid in db.versions && db.versions[vid].plugin == pid
    ensures var served := Served(db.versions[vid], required, scannedAt);
            db.plugins[pid].status == PluginActive && served.status == Active && CanActivateVersion(served)
            <==> Writes(db, SetLatest(pid, vid, required)).Some?
  {
    DashboardAgreesWithServer(db.versions[vid], required, scannedAt);
    hide CanActivateVersion, BuildReady, ScanPassed, Promote, ScanPending, ScanResult;
  }

  // ---- The CLI ----

  datatype Wait = Done | NotYet | ScanFailed

  /** One provider's verdict: carry on, or stop with an answer. */
  function Verdict(scan: ScanObject, provider: Provider): Wait {
    if provider !in scan || !scan[provider].Entry? then NotYet
    else
      var r := scan[provider].result;
      if r.mode == PendingMode then NotYet
      else if r.mode == Error then ScanFailed
      else if r.mode == Skipped then Done
      else if r.pass.None? then NotYet
      else if r.pass.value then Done else ScanFailed
  }

  function FirstVerdict(scan: ScanObject, providers: seq<Provider>): Wait {
    if providers == [] then Done
    else if Verdict(scan, providers[0]) != Done then Verdict(scan, providers[0])
    else FirstVerdict(scan, providers[1..])
  }

  /** What "done" means when the CLI waits for all providers. */
  predicate AllDone(scan: ScanObject) {
    && (exists p | p in scan :: p != SCANNED_AT && scan[p].Entry?)
    && (forall p | p in scan && p != SCANNED_AT && scan[p].Entry? :: Verdict(scan, p) == Done)
  }

  /** What scanProvidersDone answers true for. */
  predicate CliDone(scan: ScanObject, providers: seq<Provider>) {
    scan != map[] && if providers == [] then AllDone(scan) else FirstVerdict(scan, providers) == Done
  }

  /** The providers asked for; when none are, every provider the summary has a result for. */
  method ResolvedScanProviders(scan: ScanObject, providers: seq<Provider>, keys: seq<string>)
    returns (resolved: seq<Provider>)
    requires forall k :: k in keys <==> k in scan
    ensures providers != [] ==> resolved == providers
    ensures providers == [] ==> forall p :: p in resolved <==> p in scan && p != SCANNED_AT && scan[p].Entry?
  {
    if providers != [] {
      return providers;
    }
    resolved := [];
    for i := 0 to |keys|
      invariant forall p :: p in resolved <==> p in keys[..i] && p != SCANNED_AT && scan[p].Entry?
    {
      if keys[i] != SCANNED_AT && scan[keys[i]].Entry? {
        resolved := resolved + [keys[i]];
      }
    }
  }

  method ScanProvidersDone(version: Summary, providers: seq<Provider>, keys: seq<string>) returns (answer: Wait)
    requires forall k :: k in keys <==> k in version.scan
    ensures providers != [] && version.scan != map[] ==> answer == FirstVerdict(version.scan, providers)
    ensures answer == Done <==> CliDone(version.scan, providers)
    ensures version.scan == map[] ==> answer == NotYet
    ensures providers != [] ==> (answer == ScanFailed <==> FailsFirst(version.scan, providers))
    ensures answer == ScanFailed ==> exists p :: HasFailed(version.scan, p)
  {
    VerdictsMean(version.scan, providers);
    hide HasFailed;
    var scan := version.scan;
    if scan == map[] {
      return NotYet;
    }
    var resolved := ResolvedScanProviders(scan, providers, keys);
    if resolved == [] {
      return NotYet;
    }
    assert resolved[0] in resolved;
    for i := 0 to |resolved|
      invariant forall p | p in resolved[..i] :: Verdict(scan, p) == Done
      invariant FirstVerdict(scan, resolved) == FirstVerdict(scan, resolved[i..])
    {
      var provider := resolved[i];
      assert resolved[i..][1..] == resolved[i + 1..];
      VerdictMeans(scan, provider);
      if provider !in scan || !scan[provider].Entry? {
        return NotYet;
      }
      var r := scan[provider].result;
      if r.mode == PendingMode {
        return NotYet;
      }
      if r.mode == Error {
        return ScanFailed;
      }
      if r.mode != Skipped {
        if r.pass.None? {
          return NotYet;
        }
        if !r.pass.value {
          return ScanFailed;
        }
      }
    }
    answer := Done;
  }

  /** The provider's result counts as passed: skipped, or a real pass. */
  predicate IsFine(scan: ScanObject, p: Provider) {
    p in scan && scan[p].Entry?
    && (scan[p].result.mode == Skipped || (scan[p].result.mode == Real && scan[p].result.pass == Some(true)))
  }

  /** The provider's result counts as failed: an error, or a real failure. */
  predicate HasFailed(scan: ScanObject, p: Provider) {
    p in scan && scan[p].Entry?
    && (scan[p].result.mode == Error || (scan[p].result.mode == Real && scan[p].result.pass == Some(false)))
  }

  /** The first provider that is not fine has failed. */
  ghost predicate FailsFirst(scan: ScanObject, providers: seq<Provider>) {
    exists i | 0 <= i < |providers| ::
      HasFailed(scan, providers[i]) && forall j | 0 <= j < i :: IsFine(scan, providers[j])
  }

  lemma VerdictMeans(scan: ScanObject, p: Provider)
    ensures Verdict(scan, p) == Done <==> IsFine(scan, p)
    ensures Verdict(scan, p) == ScanFailed <==> HasFailed(scan, p)
  {
    if p in scan && scan[p].Entry? && scan[p].result.pass.Some? {
      var pass := scan[p].result.pass.value;
      assert pass ==> scan[p].result.pass == Some(true);
      assert !pass ==> scan[p].result.pass == Some(false);
    }
  }

  /** "Done" means all are fine; a failure is reported exactly when it is the first thing that is not fine. */
  lemma {:induction false} VerdictsMean(scan: ScanObject, providers: seq<Provider>)
    ensures FirstVerdict(scan, providers) == Done <==> forall i | 0 <= i < |providers| :: IsFine(scan, providers[i])
    ensures FirstVerdict(scan, providers) == ScanFailed <==> FailsFirst(scan, providers)
  {
    if providers != [] {
      hide Verdict, IsFine, HasFailed;
      var rest := providers[1..];
      VerdictMeans(scan, providers[0]);
      VerdictsMean(scan, rest);
      assert forall i | 0 <= i < |rest| :: rest[i] == providers[i + 1];
      if FailsFirst(scan, rest) && IsFine(scan, providers[0]) {
        var i :| 0 <= i < |rest| && HasFailed(scan, rest[i]) && forall j | 0 <= j < i :: IsFine(scan, rest[j]);
        assert HasFailed(scan, providers[i + 1]);
      }
      if FailsFirst(scan, providers) && IsFine(scan, providers[0]) {
        var i :| 0 <= i < |providers| && HasFailed(scan, providers[i])
                 && forall j | 0 <= j < i :: IsFine(scan, providers[j]);
        NeverBoth(scan, providers[0]);
        assert HasFailed(scan, rest[i - 1]);
      }
    }
  }

  lemma NeverBoth(scan: ScanObject, p: Provider)
    ensures !(IsFine(scan, p) && HasFailed(scan, p))
  {
  }

  lemma {:induction false} FirstVerdictDone(scan: ScanObject, providers: seq<Provider>)
    ensures FirstVerdict(scan, providers) == Done <==> forall p | p in providers :: Verdict(scan, p) == Done
  {
    if providers != [] {
      hide Verdict;
      FirstVerdictDone(scan, providers[1..]);
      assert forall p | p in providers :: p == providers[0] || p in providers[1..];
    }
  }

  lemma VerdictOnServed(v: Version, required: seq<Provider>, scannedAt: Option<string>, p: Provider)
    requires AreKnown(required) && p in required
    ensures Verdict(Served(v, required, scannedAt).scan, p) == Done <==>
              ScanResult(v, p).Some? && Acceptable(ScanResult(v, p).value)
  {
    ServedFields(v, required, scannedAt, p);
    hide Served, ScanResult;
  }

  /** Waiting for one or more required providers ends exactly when the server's gate passes for them. */
  lemma CliAgreesWithServer(v: Version, required: seq<Provider>, scannedAt: Option<string>, providers: seq<Provider>)
    requires AreKnown(required) && forall p | p in providers :: p in required
    ensures providers != [] ==> (CliDone(Served(v, required, scannedAt).scan, providers) <==> ScanPassed(v, providers))
  {
    var scan := Served(v, required, scannedAt).scan;
    FirstVerdictDone(scan, providers);
    ServedFields(v, required, scannedAt, REQUIRED);
    forall p | p in providers
      ensures Verdict(scan, p) == Done <==> ScanResult(v, p).Some? && Acceptable(ScanResult(v, p).value)
    {
      VerdictOnServed(v, required, scannedAt, p);
    }
    hide Verdict, Acceptable, ScanResult, Served;
  }

  /** Some required provider has a result, and every result there is passes. */
  predicate AllThereIsPasses(v: Version, required: seq<Provider>) {
    && (exists p | p in required :: ScanResult(v, p).Some?)
    && (forall p | p in required && ScanResult(v, p).Some? :: Acceptable(ScanResult(v, p).value))
  }

  /**
    Waiting for all providers overlooks required ones without any result. It
    disagrees with the gate exactly when nothing is required, which it never
    calls done, or when a required result is missing and those there are pass.
   */
  lemma WaitingForAllOverlooksMissing(v: Version, required: seq<Provider>, scannedAt: Option<string>)
    requires AreKnown(required)
    ensures var done := CliDone(Served(v, required, scannedAt).scan, []);
            && (done <==> AllThereIsPasses(v, required))
            && ((done <==> ScanPassed(v, required)) <==>
                  required != [] && !(AllThereIsPasses(v, required)
                      && exists p | p in required :: ScanResult(v, p).None?))
  {
    var scan := Served(v, required, scannedAt).scan;
    ServedFields(v, required, scannedAt, REQUIRED);
    assert forall p | p in required :: p != SCANNED_AT;
    forall p
      ensures p in scan && scan[p].Entry? <==> p in required && ScanResult(v, p).Some?
    {
      ServedFields(v, required, scannedAt, p);
    }
    forall p | p in required
      ensures Verdict(scan, p) == Done <==> ScanResult(v, p).Some? && Acceptable(ScanResult(v, p).value)
    {
      VerdictOnServed(v, required, scannedAt, p);
    }
    assert required != [] ==> required[0] in required;
    hide Verdict, Acceptable, ScanResult, Served;
  }

  const PASSED := Result(Some(true), Some("clean"), Real)

  /** An upload scanned by one of the two required providers. */
  const SCANNED_BY_ONE: seq<Op> :=
    [ CreatePlugin("p", ""), CreateVersion("p", "v", Some("k"), Some("u"), BuildDone),
      FinishScan("v", [Outcome(VIRUSTOTAL, PASSED)]) ]

  const UPLOADED := Version("p", Success, Draft, false, Some("k"), Some("u"), None, map[])
  const SCANNED :=
    UPLOADED.(scan := Some(Legacy(PASSED, UNSCANNED)), results := map[VIRUSTOTAL := ProviderRow(ScanKind, PASSED)])
  const CREATED: map<Pid, Plugin> := map["p" := Plugin(PluginPending, ReviewPending, "")]

  lemma CreateStep()
    ensures Step(Db(map[], map[]), CreatePlugin("p", "")) == Db(CREATED, map[])
  {
  }

  lemma UploadStep()
    ensures Step(Db(CREATED, map[]), CreateVersion("p", "v", Some("k"), Some("u"), BuildDone))
         == Db(CREATED, map["v" := UPLOADED])
  {
  }

  lemma ScanStep()
    ensures Step(Db(CREATED, map["v" := UPLOADED]), FinishScan("v", [Outcome(VIRUSTOTAL, PASSED)]))
         == Db(CREATED, map["v" := SCANNED])
  {
    assert [Outcome(VIRUSTOTAL, PASSED)][1..] == [];
    assert WriteResults(UPLOADED, [Outcome(VIRUSTOTAL, PASSED)]) == SCANNED;
    hide WriteResults;
  }

  lemma ScannedByOne()
    ensures Run(SCANNED_BY_ONE) == Db(CREATED, map["v" := SCANNED])
  {
    RunOfThree(CreatePlugin("p", ""), CreateVersion("p", "v", Some("k"), Some("u"), BuildDone),
               FinishScan("v", [Outcome(VIRUSTOTAL, PASSED)]));
    hide Run, Step;
    CreateStep();
    UploadStep();
    ScanStep();
  }

  lemma RunOfThree(a: Op, b: Op, c: Op)
    ensures Run([a, b, c]) == Step(Step(Step(Db(map[], map[]), a), b), c)
  {
    hide Step, Run;
    NothingRun();
    OneMore([], a);
    OneMore([a], b);
    OneMore([a, b], c);
    assert [] + [a] == [a] && [a] + [b] == [a, b] && [a, b] + [c] == [a, b, c];
  }

  /** The scanned row alone: the CLI calls it done, the gate stays shut. */
  lemma ScannedRow()
    ensures var required := ["clamav", VIRUSTOTAL];
            && AreKnown(required) && CliDone(Served(SCANNED, required, None).scan, []) && !ScanPassed(SCANNED, required)
  {
    var required := ["clamav", VIRUSTOTAL];
    assert required[0] == "clamav" && required[1] == VIRUSTOTAL;
    assert "clamav" in required && VIRUSTOTAL in required;
    assert ScanResult(SCANNED, "clamav") == None && ScanResult(SCANNED, VIRUSTOTAL) == Some(PASSED);
    hide Served, CliDone;
    WaitingForAllOverlooksMissing(SCANNED, required, None);
  }

  /** In that reachable database the CLI reports the version as scanned and the server refuses to publish it. */
  lemma DoneButNotPassed(verdict: ReviewStatus)
    ensures var db, required := Run(SCANNED_BY_ONE), ["clamav", VIRUSTOTAL];
            && AreKnown(required) && "v" in db.versions
            && CliDone(Served(db.versions["v"], required, None).scan, [])
            && !ScanPassed(db.versions["v"], required)
            && Writes(db, Publish("p", "v", verdict, required)) == None
  {
    hide Run, Served, CliDone, ScanPassed, Writes, SCANNED_BY_ONE, SCANNED, AreKnown;
    ScannedByOne();
    ScannedRow();
    NotPassedIsRefused(Run(SCANNED_BY_ONE), "v", "p", verdict, ["clamav", VIRUSTOTAL]);
  }
}

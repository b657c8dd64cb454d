/**
  Plugins, versions and scan results in the database, and what each service call
  writes. A call's writes take effect when it commits; a commit that breaks a
  table constraint is rolled back.
 */
module Lifecycle {
  import opened Options

  type Pid = string
  type Vid = string
  type Provider = string

  const VIRUSTOTAL: Provider := "virustotal"
  const LLM_AGENT: Provider := "llm_agent"
  const HUMAN: Provider := "human"

  datatype PluginStatus = PluginPending | PluginActive | PluginDisabled | PluginDeleted
  datatype ReviewStatus = ReviewPending | Approved | ReviewSkipped | Rejected
  datatype BuildStatus = Pending | Building | Success | Failed | Scanning
  datatype VersionStatus = Draft | Active | Deprecated | Deleted
  datatype Mode = PendingMode | Real | Skipped | Error

  datatype Result = Result(pass: Option<bool>, msg: Option<string>, mode: Mode)

  datatype Kind = ScanKind | HumanKind
  datatype ProviderRow = ProviderRow(kind: Kind, result: Result)

  /** The old scan table: a fixed pair of column groups. */
  datatype Legacy = Legacy(virusTotal: Result, llmAgent: Result)

  datatype Plugin = Plugin(status: PluginStatus, review: ReviewStatus, info: string)

  /** A version with its scan row and its provider rows, which are deleted with it. */
  datatype Version = Version(plugin: Pid, build: BuildStatus, status: VersionStatus, isLatest: bool,
                             s3Key: Option<string>, downloadUrl: Option<string>,
                             scan: Option<Legacy>, results: map<Provider, ProviderRow>)

  datatype Db = Db(plugins: map<Pid, Plugin>, versions: map<Vid, Version>)

  // ---- Table constraints ----

  predicate RowChecks(v: Version) {
    && (v.build == Success ==> v.s3Key.Some? && v.downloadUrl.Some?)
    && (v.isLatest ==> v.status == Active && v.build == Success)
  }

  predicate OneLatestEach(versions: map<Vid, Version>) {
    forall x, y | x in versions && y in versions ::
      versions[x].isLatest && versions[y].isLatest && versions[x].plugin == versions[y].plugin ==> x == y
  }

  predicate ConstraintsHold(db: Db) {
    (forall x | x in db.versions :: RowChecks(db.versions[x])) && OneLatestEach(db.versions)
  }

  // ---- Reading scan results ----

  /** What scan_provider_results answers for one provider: its own row, else the old columns. */
  function ScanResult(v: Version, provider: Provider): Option<Result> {
    if provider in v.results && v.results[provider].kind.ScanKind? then Some(v.results[provider].result)
    else LegacyResult(v, provider)
  }

  function LegacyResult(v: Version, provider: Provider): Option<Result> {
    if v.scan.None? then None
    else if provider == VIRUSTOTAL then Some(v.scan.value.virusTotal)
    else if provider == LLM_AGENT then Some(v.scan.value.llmAgent)
    else None
  }

  predicate Acceptable(r: Result) {
    r.mode == Skipped || (r.mode == Real && r.pass == Some(true))
  }

  /** scan_providers_passed, for a list of required providers. */
  predicate ScanPassed(v: Version, required: seq<Provider>) {
    forall p | p in required :: ScanResult(v, p).Some? && Acceptable(ScanResult(v, p).value)
  }

  predicate ScanPending(v: Version, required: seq<Provider>) {
    exists p | p in required :: ScanResult(v, p).Some? && ScanResult(v, p).value.mode == PendingMode
  }

  predicate BuildReady(v: Version, required: seq<Provider>) {
    v.build == Success || (v.build == Scanning && !ScanPending(v, required))
  }

  // ---- Writing scan results ----

  const UNSCANNED := Result(None, None, PendingMode)

  function ScanOrNew(v: Version): Legacy {
    if v.scan.Some? then v.scan.value else Legacy(UNSCANNED, UNSCANNED)
  }

  function WriteLegacy(scan: Legacy, provider: Provider, r: Result): Legacy {
    if provider == VIRUSTOTAL then scan.(virusTotal := r)
    else if provider == LLM_AGENT then scan.(llmAgent := r)
    else scan
  }

  /** Both representations of one outcome. */
  function WriteResult(v: Version, provider: Provider, r: Result): Version {
    v.(scan := Some(WriteLegacy(ScanOrNew(v), provider, r)), results := v.results[provider := ProviderRow(ScanKind, r)])
  }

  datatype Outcome = Outcome(provider: Provider, result: Result)

  function WriteResults(v: Version, outcomes: seq<Outcome>): Version
    decreases |outcomes|
  {
    if outcomes == [] then v.(scan := Some(ScanOrNew(v)))
    else WriteResults(WriteResult(v, outcomes[0].provider, outcomes[0].result), outcomes[1..])
  }

  predicate AnyPending(outcomes: seq<Outcome>) {
    exists o | o in outcomes :: o.result.mode == PendingMode
  }

  predicate NonEmpty(s: Option<string>) {
    s.Some? && s.value != ""
  }

  predicate HasArtifact(v: Version) {
    NonEmpty(v.s3Key) && NonEmpty(v.downloadUrl)
  }

  predicate CanMarkScanning(v: Version) {
    HasArtifact(v) && !(v.isLatest && v.status == Active)
  }

  /** The build status a finished scan writes. */
  function Scanned(v: Version, outcomes: seq<Outcome>): Version {
    var w := WriteResults(v, outcomes);
    if HasArtifact(w) then w.(build := if AnyPending(outcomes) then Scanning else Success) else w
  }

  function Queue(providers: seq<Provider>): seq<Outcome> {
    if providers == [] then []
    else [Outcome(providers[0], Result(None, Some("Scan queued"), PendingMode))] + Queue(providers[1..])
  }

  function Skip(providers: seq<Provider>, pass: Option<bool>): seq<Outcome> {
    if providers == [] then []
    else [Outcome(providers[0], Result(pass, Some("Manually skipped"), Skipped))] + Skip(providers[1..], pass)
  }

  // ---- The service calls ----

  datatype FirstBuild = BuildPending | BuildRunning | BuildDone

  datatype Op =
    | CreatePlugin(pid: Pid, info: string)
    | UpdatePlugin(pid: Pid, info: string)
    | SetPluginStatus(pid: Pid, pluginStatus: PluginStatus, review: Option<ReviewStatus>)
    | DeletePlugin(pid: Pid)
    | DeleteVersion(pid: Pid, vid: Vid)
    | CreateVersion(pid: Pid, vid: Vid, s3Key: Option<string>, downloadUrl: Option<string>, first: FirstBuild)
    | UpdateAfterBuild(vid: Vid, key: string, url: string)
    | SetVersionStatus(vid: Vid, versionStatus: VersionStatus, required: seq<Provider>)
    | SetLatest(pid: Pid, vid: Vid, required: seq<Provider>)
    | Publish(pid: Pid, vid: Vid, verdict: ReviewStatus, required: seq<Provider>)
    | MarkPending(vid: Vid, selected: seq<Provider>)
    | MarkSkipped(vid: Vid, selected: seq<Provider>, pass: Option<bool>)
    | BeginScan(vid: Vid)
    | FinishScan(vid: Vid, outcomes: seq<Outcome>)
    | CompleteOutcome(vid: Vid, outcome: Outcome)
    | FailBuild(vid: Vid)

  function ClearLatest(versions: map<Vid, Version>, pid: Pid): map<Vid, Version> {
    map x | x in versions :: if versions[x].plugin == pid then versions[x].(isLatest := false) else versions[x]
  }

  function ReviewAfter(p: Plugin, status: PluginStatus, review: Option<ReviewStatus>): ReviewStatus {
    if review.Some? then review.value
    else if status == PluginActive && p.review == ReviewPending then Approved
    else if status == PluginDisabled && p.review == ReviewPending then Rejected
    else p.review
  }

  /** A scanning version that passes the gate counts as built. */
  function SettleBuild(v: Version): Version {
    if v.build == Scanning then v.(build := Success) else v
  }

  predicate Gate(v: Version, required: seq<Provider>) {
    BuildReady(v, required) && ScanPassed(v, required)
  }

  function HumanRow(verdict: ReviewStatus): ProviderRow {
    if verdict == ReviewSkipped then ProviderRow(HumanKind, Result(Some(true), Some("Human review skipped"), Skipped))
    else ProviderRow(HumanKind, Result(Some(true), Some("Human review approved"), Real))
  }

  function PutVersion(db: Db, vid: Vid, v: Version): Db {
    db.(versions := db.versions[vid := v])
  }

  /** Makes a version the only latest one of its plugin. */
  function Promote(db: Db, vid: Vid, v: Version): Db {
    db.(versions := ClearLatest(db.versions, v.plugin)[vid := v.(isLatest := true)])
  }

  /** What a call leaves to commit; None when it raises before that. */
  function Writes(db: Db, op: Op): Option<Db> {
    match op
    case CreatePlugin(pid, info) =>
      if pid in db.plugins then None
      else Some(db.(plugins := db.plugins[pid := Plugin(PluginPending, ReviewPending, info)]))
    case UpdatePlugin(pid, info) =>
      if pid !in db.plugins then None else Some(db.(plugins := db.plugins[pid := db.plugins[pid].(info := info)]))
    case SetPluginStatus(pid, status, review) =>
      if pid !in db.plugins then None
      else
        var p := db.plugins[pid];
        var plugins := db.plugins[pid := p.(status := status, review := ReviewAfter(p, status, review))];
        var off := status == PluginDisabled || status == PluginDeleted;
        Some(Db(plugins, if off then ClearLatest(db.versions, pid) else db.versions))
    case DeletePlugin(pid) =>
      if pid !in db.plugins then None
      else Some(Db(db.plugins - {pid}, map x | x in db.versions && db.versions[x].plugin != pid :: db.versions[x]))
    case DeleteVersion(pid, vid) =>
      if vid !in db.versions || db.versions[vid].plugin != pid then None else Some(db.(versions := db.versions - {vid}))
    case CreateVersion(pid, vid, s3Key, downloadUrl, first) =>
      if pid !in db.plugins || vid in db.versions then None
      else
        var build := match first case BuildPending => Pending case BuildRunning => Building case BuildDone => Success;
        Some(PutVersion(db, vid, Version(pid, build, Draft, false, s3Key, downloadUrl, None, map[])))
    case UpdateAfterBuild(vid, key, url) =>
      if vid !in db.versions then None
      else Some(PutVersion(db, vid, db.versions[vid].(s3Key := Some(key), downloadUrl := Some(url), build := Success)))
    case SetVersionStatus(vid, status, required) =>
      if vid !in db.versions || (status == Active && !Gate(db.versions[vid], required)) then None
      else
        var v := if status == Active then SettleBuild(db.versions[vid]) else db.versions[vid].(isLatest := false);
        Some(PutVersion(db, vid, v.(status := status)))
    case SetLatest(pid, vid, required) =>
      if pid !in db.plugins || db.plugins[pid].status != PluginActive || vid !in db.versions
         || db.versions[vid].plugin != pid
         || db.versions[vid].status != Active || !Gate(db.versions[vid], required)
      then None
      else Some(Promote(db, vid, SettleBuild(db.versions[vid])))
    case Publish(pid, vid, verdict, required) =>
      if (verdict != Approved && verdict != ReviewSkipped) || pid !in db.plugins || vid !in db.versions
         || db.versions[vid].plugin != pid || !Gate(db.versions[vid], required)
      then None
      else
        var v := SettleBuild(db.versions[vid]).(status := Active);
        Some(Promote(db.(plugins := db.plugins[pid := db.plugins[pid].(status := PluginActive, review := verdict)]),
                     vid, v.(results := v.results[HUMAN := HumanRow(verdict)])))
    case MarkPending(vid, selected) =>
      if vid !in db.versions then None
      else
        var v := WriteResults(db.versions[vid], Queue(selected));
        Some(PutVersion(db, vid, if CanMarkScanning(v) then v.(build := Scanning) else v))
    case MarkSkipped(vid, selected, pass) =>
      if vid !in db.versions then None
      else
        var v := WriteResults(db.versions[vid], Skip(selected, pass));
        Some(PutVersion(db, vid, if HasArtifact(v) then v.(build := Success) else v))
    case BeginScan(vid) =>
      if vid !in db.versions || !CanMarkScanning(db.versions[vid]) then None
      else Some(PutVersion(db, vid, db.versions[vid].(scan := Some(ScanOrNew(db.versions[vid])), build := Scanning)))
    case FinishScan(vid, outcomes) =>
      if vid !in db.versions then None else Some(PutVersion(db, vid, Scanned(db.versions[vid], outcomes)))
    case CompleteOutcome(vid, outcome) =>
      if vid !in db.versions then None else Some(PutVersion(db, vid, Scanned(db.versions[vid], [outcome])))
    case FailBuild(vid) =>
      if vid !in db.versions then None else Some(PutVersion(db, vid, db.versions[vid].(build := Failed)))
  }

  /** A call that raised, or whose commit was refused, leaves the database as it was. */
  function Step(db: Db, op: Op): Db {
    match Writes(db, op)
    case None => db
    case Some(next) => if ConstraintsHold(next) then next else db
  }

  function Run(ops: seq<Op>): Db {
    if ops == [] then Db(map[], map[]) else Step(Run(ops[..|ops| - 1]), ops[|ops| - 1])
  }

  // ---- The invariant ----

  /** The old columns of one provider repeat its own row, or say pending when it has none. */
  predicate Mirrors(v: Version, provider: Provider) {
    if provider in v.results
    then LegacyResult(v, provider) == Some(v.results[provider].result) && v.results[provider].kind == ScanKind
    else v.scan.Some? ==> LegacyResult(v, provider) == Some(UNSCANNED)
  }

  predicate VersionOk(v: Version) {
    && (v.build == Scanning ==> v.s3Key.Some? && v.downloadUrl.Some?)
    && Mirrors(v, VIRUSTOTAL) && Mirrors(v, LLM_AGENT)
  }

  predicate Hidden(status: PluginStatus) {
    status == PluginDisabled || status == PluginDeleted
  }

  predicate Inv(db: Db) {
    && ConstraintsHold(db)
    && (forall x | x in db.versions :: VersionOk(db.versions[x]))
    && (forall x | x in db.versions :: db.versions[x].plugin in db.plugins)
    && (forall x | x in db.versions && db.versions[x].isLatest :: !Hidden(db.plugins[db.versions[x].plugin].status))
  }
}

/**
  The public registry: one entry for each active plugin with a servable latest
  version, cached in Redis as canonical JSON and as its MD5. The two cache keys
  expire independently. The canonical encoding and MD5 are constructors here:
  different registries have different texts and different texts different digests.
 */
module RegistryCache {
  import opened Options
  import opened Lifecycle
  import opened LifecycleSafety
  import opened LifecycleRecords

  datatype PublicResult = PublicResult(pass: bool, msg: Option<string>, mode: Mode)

  datatype Entry = Entry(info: string, vid: Vid, downloadUrl: string, secScan: map<Provider, PublicResult>)

  type Registry = map<Pid, Entry>

  datatype Text = Canonical(registry: Registry)
  datatype Digest = Md5(text: Text)

  function Coerced(r: Result): PublicResult {
    PublicResult(r.pass == Some(true), r.msg, r.mode)
  }

  function FormatEntry(p: Plugin, vid: Vid, v: Version, required: seq<Provider>): Entry {
    Entry(p.info, vid, if v.downloadUrl.Some? then v.downloadUrl.value else "",
          map q | q in required && ScanResult(v, q).Some? :: Coerced(ScanResult(v, q).value))
  }

  predicate IsServed(db: Db, pid: Pid, x: Vid, required: seq<Provider>) {
    x in db.versions && db.versions[x].plugin == pid && Servable(db.versions[x], required)
  }

  ghost predicate IsListed(db: Db, pid: Pid, required: seq<Provider>) {
    pid in db.plugins && db.plugins[pid].status == PluginActive && exists x :: IsServed(db, pid, x, required)
  }

  ghost function ServedVersion(db: Db, pid: Pid, required: seq<Provider>): (x: Vid)
    requires IsListed(db, pid, required)
    ensures IsServed(db, pid, x, required)
  {
    var x :| IsServed(db, pid, x, required);
    x
  }

  ghost function EntryOf(db: Db, pid: Pid, required: seq<Provider>): Entry
    requires IsListed(db, pid, required)
  {
    var x := ServedVersion(db, pid, required);
    FormatEntry(db.plugins[pid], x, db.versions[x], required)
  }

  /** What the registry should say, straight from the database. */
  ghost function Regenerated(db: Db, required: seq<Provider>): Registry {
    map pid | pid in db.plugins && IsListed(db, pid, required) :: EntryOf(db, pid, required)
  }

  lemma TheEntry(db: Db, pid: Pid, x: Vid, required: seq<Provider>)
    requires Inv(db) && pid in db.plugins && db.plugins[pid].status == PluginActive && IsServed(db, pid, x, required)
    ensures IsListed(db, pid, required)
    ensures EntryOf(db, pid, required) == FormatEntry(db.plugins[pid], x, db.versions[x], required)
  {
    hide FormatEntry, Inv;
    LatestIsUnique(db, x, ServedVersion(db, pid, required));
  }

  // ---- The listing and the download endpoint ----

  /** The download endpoint serves exactly the plugin's servable version. */
  lemma DownloadIsServed(ops: seq<Op>, pid: Pid, order: seq<Vid>, required: seq<Provider>, x: Vid)
    requires ListsVersions(Run(ops), pid, order)
    ensures DownloadLatest(Run(ops), order, required) == Found(x) <==> IsServed(Run(ops), pid, x, required)
  {
    var db := Run(ops);
    RunKeeps(ops);
    ReadersAgree(ops, pid, order, order, required);
    ListedIsServable(db, order, required);
    hide Run, Inv, DownloadLatest, ListedLatest, ScanPassed, BuildReady;
    var listed := ListedLatest(db, order, required);
    if IsServed(db, pid, x, required) {
      assert x in order && listed.Some?;
      LatestIsUnique(db, x, listed.value);
    }
  }

  lemma HiddenIsNotServed(db: Db, pid: Pid, x: Vid, required: seq<Provider>)
    requires Inv(db) && IsServed(db, pid, x, required)
    ensures pid in db.plugins && !Hidden(db.plugins[pid].status)
  {
  }

  /**
    The download endpoint does not ask for the plugin's status. It serves a
    plugin that the listing does not show exactly when that plugin was set back
    to pending while it has a servable latest version.
   */
  lemma DownloadsBeyondTheListing(ops: seq<Op>, pid: Pid, order: seq<Vid>, required: seq<Provider>)
    requires ListsVersions(Run(ops), pid, order)
    ensures var db := Run(ops);
            DownloadLatest(db, order, required).Found? && pid !in Regenerated(db, required)
            <==>
            pid in db.plugins && db.plugins[pid].status == PluginPending && exists x :: IsServed(db, pid, x, required)
  {
    var db := Run(ops);
    RunKeeps(ops);
    hide Run, Inv, DownloadLatest, Servable;
    var found := DownloadLatest(db, order, required);
    if found.Found? {
      DownloadIsServed(ops, pid, order, required, found.vid);
      HiddenIsNotServed(db, pid, found.vid, required);
    }
    if x :| IsServed(db, pid, x, required) {
      DownloadIsServed(ops, pid, order, required, x);
    }
  }

  /** Created, uploaded, published, set back to pending. */
  const WITHDRAWN: seq<Op> :=
    [ CreatePlugin("p", ""), CreateVersion("p", "v", Some("k"), Some("u"), BuildDone),
      Publish("p", "v", Approved, []), SetPluginStatus("p", PluginPending, None) ]

  const UPLOADED := Version("p", Success, Draft, false, Some("k"), Some("u"), None, map[])
  const PUBLISHED := UPLOADED.(status := Active, isLatest := true, results := map[HUMAN := HumanRow(Approved)])

  lemma UploadSteps()
    ensures Step(Step(Db(map[], map[]), WITHDRAWN[0]), WITHDRAWN[1])
         == Db(map["p" := Plugin(PluginPending, ReviewPending, "")], map["v" := UPLOADED])
  {
    var a := Step(Db(map[], map[]), WITHDRAWN[0]);
    assert a == Db(map["p" := Plugin(PluginPending, ReviewPending, "")], map[]);
    assert Step(a, WITHDRAWN[1]) == a.(versions := map["v" := UPLOADED]);
  }

  lemma PublishStep()
    ensures Step(Db(map["p" := Plugin(PluginPending, ReviewPending, "")], map["v" := UPLOADED]), WITHDRAWN[2])
         == Db(map["p" := Plugin(PluginActive, Approved, "")], map["v" := PUBLISHED])
  {
    assert Writes(Db(map["p" := Plugin(PluginPending, ReviewPending, "")], map["v" := UPLOADED]), WITHDRAWN[2]).value
        == Db(map["p" := Plugin(PluginActive, Approved, "")], map["v" := PUBLISHED]);
  }

  lemma WithdrawStep()
    ensures Step(Db(map["p" := Plugin(PluginActive, Approved, "")], map["v" := PUBLISHED]), WITHDRAWN[3])
         == Db(map["p" := Plugin(PluginPending, Approved, "")], map["v" := PUBLISHED])
  {
  }

  lemma WithdrawnRun()
    ensures Run(WITHDRAWN) == Db(map["p" := Plugin(PluginPending, Approved, "")], map["v" := PUBLISHED])
  {
    RunFour(WITHDRAWN[0], WITHDRAWN[1], WITHDRAWN[2], WITHDRAWN[3]);
    assert WITHDRAWN == [WITHDRAWN[0], WITHDRAWN[1], WITHDRAWN[2], WITHDRAWN[3]];
    hide Run, Step, WITHDRAWN, PUBLISHED, UPLOADED;
    UploadSteps();
    PublishStep();
    WithdrawStep();
  }

  /** Such a plugin is off the listing and still downloaded. */
  lemma WithdrawnIsServed()
    ensures var db := Run(WITHDRAWN);
            && ListsVersions(db, "p", ["v"]) && "p" in db.plugins && db.plugins["p"].status == PluginPending
            && DownloadLatest(db, ["v"], []) == Found("v") && "p" !in Regenerated(db, [])
  {
    hide Run, WITHDRAWN;
    WithdrawnRun();
    var db := Run(WITHDRAWN);
    assert db.versions["v"] == PUBLISHED;
    assert ["v"][1..] == [] && LatestRows(db, []) == [];
    assert LatestRows(db, ["v"]) == ["v"];
  }

  lemma RunFour(a: Op, b: Op, c: Op, d: Op)
    ensures Run([a, b, c, d]) == Step(Step(Step(Step(Db(map[], map[]), a), b), c), d)
  {
    hide Step, Run;
    NothingRun();
    OneMore([], a);
    OneMore([a], b);
    OneMore([a, b], c);
    OneMore([a, b, c], d);
    assert [] + [a] == [a] && [a] + [b] == [a, b] && [a, b] + [c] == [a, b, c] && [a, b, c] + [d] == [a, b, c, d];
  }

  // ---- The cache ----

  datatype Cache = Cache(json: Option<Text>, md5: Option<Digest>)

  /** Each row of the query behind the listing: a plugin and its versions, in any order. */
  datatype Row = Row(pid: Pid, order: seq<Vid>)

  /** The query returns each active plugin once, with all its versions. */
  ghost predicate Fetched(db: Db, rows: seq<Row>) {
    && (forall i | 0 <= i < |rows| ::
          rows[i].pid in db.plugins && db.plugins[rows[i].pid].status == PluginActive
              && ListsVersions(db, rows[i].pid, rows[i].order))
    && (forall pid | pid in db.plugins && db.plugins[pid].status == PluginActive ::
          exists i :: 0 <= i < |rows| && rows[i].pid == pid)
  }

  ghost predicate Current(db: Db, cache: Cache, required: seq<Provider>) {
    && (cache.json.Some? ==> cache.json.value == Canonical(Regenerated(db, required)))
    && (cache.md5.Some? ==> cache.md5.value == Md5(Canonical(Regenerated(db, required))))
  }

  /** What a read answers, and what it leaves in the cache. */
  ghost function ReadJson(db: Db, cache: Cache, required: seq<Provider>): (r: (Registry, Cache)) {
    if cache.json.Some? then (cache.json.value.registry, cache)
    else (Regenerated(db, required), cache.(json := Some(Canonical(Regenerated(db, required)))))
  }

  ghost function ReadMd5(db: Db, cache: Cache, required: seq<Provider>): (r: (Digest, Cache)) {
    if cache.md5.Some? then (cache.md5.value, cache)
    else
      var (registry, after) := ReadJson(db, cache, required);
      (Md5(Canonical(registry)), after.(md5 := Some(Md5(Canonical(registry)))))
  }

  ghost function Refreshed(db: Db, required: seq<Provider>): Cache {
    ReadMd5(db, ReadJson(db, Cache(None, None), required).1, required).1
  }

  class Redis {
    var json: Option<Text>
    var md5: Option<Digest>

    function Contents(): Cache
      reads this
    {
      Cache(json, md5)
    }

    method GetLatest(db: Db, order: seq<Vid>, required: seq<Provider>) returns (latest: Option<Vid>)
      requires forall x | x in order :: x in db.versions
      ensures latest == ListedLatest(db, order, required)
    {
      for i := 0 to |order|
        invariant ListedLatest(db, order, required) == ListedLatest(db, order[i..], required)
      {
        var v := db.versions[order[i]];
        assert order[i..][1..] == order[i + 1..];
        if v.isLatest && v.status == Active && BuildReady(v, required) && ScanPassed(v, required) {
          return Some(order[i]);
        }
      }
      latest := None;
    }

    /** Cached text if there is one; else one pass over the active plugins. */
    method GenerateRegistryJson(db: Db, rows: seq<Row>, required: seq<Provider>) returns (registry: Registry)
      requires Inv(db) && Fetched(db, rows)
      modifies this
      ensures registry == ReadJson(db, old(Contents()), required).0
      ensures Contents() == ReadJson(db, old(Contents()), required).1
    {
      hide Inv, FormatEntry, Servable, ScanPassed, BuildReady, EntryOf;
      if json.Some? {
        return json.value.registry;
      }
      registry := map[];
      for i := 0 to |rows|
        invariant Contents() == old(Contents())
        invariant forall pid ::
                    pid in registry <==> IsListed(db, pid, required) && exists k :: 0 <= k < i && rows[k].pid == pid
        invariant forall pid | pid in registry :: registry[pid] == EntryOf(db, pid, required)
      {
        var row := rows[i];
        var latest := GetLatest(db, row.order, required);
        ListedIsServable(db, row.order, required);
        if latest.Some? {
          TheEntry(db, row.pid, latest.value, required);
          var entry := FormatEntry(db.plugins[row.pid], latest.value, db.versions[latest.value], required);
          registry := registry[row.pid := entry];
        }
      }
      assert registry == Regenerated(db, required);
      json := Some(Canonical(registry));
    }

    method GetRegistryMd5(db: Db, rows: seq<Row>, required: seq<Provider>) returns (digest: Digest)
      requires Inv(db) && Fetched(db, rows)
      modifies this
      ensures digest == ReadMd5(db, old(Contents()), required).0
      ensures Contents() == ReadMd5(db, old(Contents()), required).1
    {
      if md5.Some? {
        return md5.value;
      }
      var registry := GenerateRegistryJson(db, rows, required);
      digest := Md5(Canonical(registry));
      md5 := Some(digest);
    }

    method RefreshCache(db: Db, rows: seq<Row>, required: seq<Provider>)
      requires Inv(db) && Fetched(db, rows)
      modifies this
      ensures Contents() == Refreshed(db, required)
    {
      json, md5 := None, None;
      var registry := GenerateRegistryJson(db, rows, required);
      var digest := GetRegistryMd5(db, rows, required);
    }
  }

  // ---- The whole system ----

  datatype System = System(db: Db, cache: Cache)

  datatype Event = Call(op: Op) | GetPlugins | GetMd5 | ExpireJson | ExpireMd5

  /** The two commits that no cache refresh follows. */
  predicate Quiet(op: Op) {
    op.BeginScan? || op.FailBuild?
  }

  predicate Commits(db: Db, op: Op) {
    Writes(db, op).Some? && ConstraintsHold(Writes(db, op).value)
  }

  ghost function Happen(s: System, e: Event, required: seq<Provider>): System {
    match e
    case Call(op) =>
      if Commits(s.db, op) && !Quiet(op) then System(Step(s.db, op), Refreshed(Step(s.db, op), required))
      else System(Step(s.db, op), s.cache)
    case GetPlugins => s.(cache := ReadJson(s.db, s.cache, required).1)
    case GetMd5 => s.(cache := ReadMd5(s.db, s.cache, required).1)
    case ExpireJson => s.(cache := s.cache.(json := None))
    case ExpireMd5 => s.(cache := s.cache.(md5 := None))
  }

  ghost function History(events: seq<Event>, required: seq<Provider>): System {
    if events == [] then System(Db(map[], map[]), Cache(None, None))
    else Happen(History(events[..|events| - 1], required), events[|events| - 1], required)
  }

  lemma ReadsKeepCurrent(db: Db, cache: Cache, required: seq<Provider>)
    requires Current(db, cache, required)
    ensures Current(db, ReadJson(db, cache, required).1, required)
            && Current(db, ReadMd5(db, cache, required).1, required)
    ensures ReadJson(db, cache, required).0 == Regenerated(db, required)
    ensures ReadMd5(db, cache, required).0 == Md5(Canonical(Regenerated(db, required)))
  {
    hide Regenerated;
  }

  /** What was read stays cached until it expires: the next read of either key is answered from there. */
  lemma ReadsAreCached(db: Db, later: Db, cache: Cache, required: seq<Provider>)
    ensures var (registry, after) := ReadJson(db, cache, required);
            && after.json == Some(Canonical(registry)) && after.md5 == cache.md5
            && (cache.json.Some? ==> after == cache)
            && ReadJson(later, after, required) == (registry, after)
    ensures var (digest, after) := ReadMd5(db, cache, required);
            && after.md5 == Some(digest) && (cache.md5.Some? ==> after == cache)
            && (cache.md5.None? ==> after.json == Some(Canonical(ReadJson(db, cache, required).0)))
            && ReadMd5(later, after, required) == (digest, after)
    ensures Refreshed(db, required).json.Some? && Refreshed(db, required).md5.Some?
  {
    hide Regenerated;
  }

  /** A commit that changes the listing leaves both keys fresh; a quiet or refused call leaves the cache alone. */
  lemma CallsRefresh(s: System, op: Op, required: seq<Provider>)
    ensures var after := Happen(s, Call(op), required);
            && after.db == Step(s.db, op)
            && if Commits(s.db, op) && !op.BeginScan? && !op.FailBuild?
               then
                 var text := Canonical(Regenerated(after.db, required));
                 after.cache.json == Some(text) && after.cache.md5 == Some(Md5(text))
               else after.cache == s.cache
  {
    hide Regenerated, Step, Commits;
  }

  /** A version that is not latest before or after is not served, whatever happens to it. */
  lemma UnservedChange(db: Db, vid: Vid, w: Version, pid: Pid, required: seq<Provider>)
    requires Inv(db) && Inv(PutVersion(db, vid, w)) && vid in db.versions && !db.versions[vid].isLatest && !w.isLatest
    ensures IsListed(db, pid, required) <==> IsListed(PutVersion(db, vid, w), pid, required)
    ensures IsListed(db, pid, required) ==> EntryOf(db, pid, required) == EntryOf(PutVersion(db, vid, w), pid, required)
  {
    var next := PutVersion(db, vid, w);
    hide Inv, FormatEntry, ScanPassed, BuildReady;
    assert forall x :: IsServed(db, pid, x, required) <==> IsServed(next, pid, x, required);
    if IsListed(db, pid, required) {
      var x := ServedVersion(db, pid, required);
      TheEntry(next, pid, x, required);
    }
  }

  lemma QuietIsUnserved(db: Db, op: Op)
    requires Inv(db) && Quiet(op) && Commits(db, op)
    ensures op.vid in db.versions && op.vid in Step(db, op).versions
    ensures var w := Step(db, op).versions[op.vid];
            Step(db, op) == PutVersion(db, op.vid, w) && !db.versions[op.vid].isLatest && !w.isLatest
  {
    assert op.vid in db.versions && RowChecks(db.versions[op.vid]);
    assert RowChecks(Step(db, op).versions[op.vid]);
    hide Inv, ConstraintsHold, ScanOrNew;
  }

  lemma QuietCallsChangeNothingServed(db: Db, op: Op, required: seq<Provider>)
    requires Inv(db) && Quiet(op)
    ensures Regenerated(Step(db, op), required) == Regenerated(db, required)
  {
    if Commits(db, op) {
      var next := Step(db, op);
      var w := next.versions[op.vid];
      QuietIsUnserved(db, op);
      CallsAreFine(db, op);
      hide Inv, ConstraintsHold, IsListed, EntryOf, Writes, Step;
      forall pid | pid in db.plugins
        ensures IsListed(db, pid, required) <==> IsListed(next, pid, required)
        ensures IsListed(db, pid, required) ==> EntryOf(db, pid, required) == EntryOf(next, pid, required)
      {
        UnservedChange(db, op.vid, w, pid, required);
      }
    }
  }

  lemma HappenKeeps(s: System, e: Event, required: seq<Provider>)
    requires Inv(s.db) && Current(s.db, s.cache, required)
    ensures Inv(Happen(s, e, required).db) && Current(Happen(s, e, required).db, Happen(s, e, required).cache, required)
  {
    hide Inv, Regenerated, ConstraintsHold, Writes;
    ReadsKeepCurrent(s.db, s.cache, required);
    if e.Call? {
      var next := Step(s.db, e.op);
      CallsAreFine(s.db, e.op);
      if Quiet(e.op) {
        QuietCallsChangeNothingServed(s.db, e.op, required);
      } else if Commits(s.db, e.op) {
        ReadsKeepCurrent(next, Cache(None, None), required);
        ReadsKeepCurrent(next, ReadJson(next, Cache(None, None), required).1, required);
      }
    }
  }

  lemma {:induction false} HistoryKeeps(events: seq<Event>, required: seq<Provider>)
    ensures var s := History(events, required); Inv(s.db) && Current(s.db, s.cache, required)
    decreases |events|
  {
    if events != [] {
      hide Inv, Current, Happen;
      HistoryKeeps(events[..|events| - 1], required);
      HappenKeeps(History(events[..|events| - 1], required), events[|events| - 1], required);
    }
  }

  /**
    After any mix of service calls, reads and expiries of either key, the served
    registry is what the database says now, and the served MD5, like the ETag,
    is the digest of exactly that.
   */
  lemma ServedIsCurrent(events: seq<Event>, required: seq<Provider>)
    ensures var s := History(events, required);
            && ReadJson(s.db, s.cache, required).0 == Regenerated(s.db, required)
            && ReadMd5(s.db, s.cache, required).0 == Md5(Canonical(ReadJson(s.db, s.cache, required).0))
  {
    hide History, Inv, Regenerated;
    HistoryKeeps(events, required);
    ReadsKeepCurrent(History(events, required).db, History(events, required).cache, required);
  }

  // ---- What the served registry says ----

  /** The service calls of a history, in order. */
  function Calls(events: seq<Event>): seq<Op> {
    if events == [] then []
    else
      var last := events[|events| - 1];
      Calls(events[..|events| - 1]) + if last.Call? then [last.op] else []
  }

  lemma {:induction false} HistoryRuns(events: seq<Event>, required: seq<Provider>)
    ensures History(events, required).db == Run(Calls(events))
    decreases |events|
  {
    if events != [] {
      hide Step, ReadJson, ReadMd5, Refreshed;
      var last := events[|events| - 1];
      HistoryRuns(events[..|events| - 1], required);
      var before := Calls(events[..|events| - 1]);
      if last.Call? {
        OneMore(before, last.op);
      } else {
        assert before + [] == before;
      }
    }
  }

  /** The stored result of a provider passes: a real pass, or skipped. */
  predicate IsClean(v: Version, q: Provider) {
    q in v.results && v.results[q].kind == ScanKind
    && (v.results[q].result.mode == Skipped
        || (v.results[q].result.mode == Real && v.results[q].result.pass == Some(true)))
  }

  /** What the readers may offer: the latest version, active and built, with all required scans clean. */
  predicate IsOffered(v: Version, pid: Pid, required: seq<Provider>) {
    v.plugin == pid && v.isLatest && v.status == Active && v.build == Success
    && forall q | q in required :: IsClean(v, q)
  }

  lemma PassingRow(v: Version, q: Provider)
    requires VersionOk(v)
    ensures ScanResult(v, q).Some? && Acceptable(ScanResult(v, q).value) <==> IsClean(v, q)
    ensures IsClean(v, q) ==> ScanResult(v, q) == Some(v.results[q].result)
  {
  }

  lemma ServedIsOffered(db: Db, pid: Pid, x: Vid, required: seq<Provider>)
    requires Inv(db) && x in db.versions
    ensures IsServed(db, pid, x, required) <==> IsOffered(db.versions[x], pid, required)
  {
    var v := db.versions[x];
    assert VersionOk(v) && RowChecks(v);
    LatestIsSuccess(db, x, required);
    hide Inv, VersionOk, IsClean, ScanResult, Acceptable, Servable;
    forall q
      ensures ScanResult(v, q).Some? && Acceptable(ScanResult(v, q).value) <==> IsClean(v, q)
    {
      assert VersionOk(v);
      PassingRow(v, q);
    }
  }

  /** An entry repeats the plugin's and the version's rows. */
  ghost predicate Repeats(e: Entry, p: Plugin, v: Version, required: seq<Provider>) {
    && e.info == p.info && v.downloadUrl == Some(e.downloadUrl)
    && (forall q :: q in e.secScan <==> q in required)
    && forall q | q in required :: q in v.results && q in e.secScan &&
         var r := v.results[q].result;
         (e.secScan[q].pass <==> r.pass == Some(true)) && e.secScan[q].msg == r.msg && e.secScan[q].mode == r.mode
  }

  lemma FormattedRepeats(db: Db, pid: Pid, x: Vid, required: seq<Provider>)
    requires Inv(db) && x in db.versions && pid in db.plugins && IsOffered(db.versions[x], pid, required)
    ensures var e := FormatEntry(db.plugins[pid], x, db.versions[x], required);
            e.vid == x && Repeats(e, db.plugins[pid], db.versions[x], required)
  {
    var v := db.versions[x];
    assert VersionOk(v) && RowChecks(v);
    hide Inv;
    forall q | q in required
      ensures q in v.results && ScanResult(v, q) == Some(v.results[q].result)
    {
      PassingRow(v, q);
    }
  }

  /**
    After any history the served registry lists exactly the active plugins with an
    offered version; the entry names the version the download endpoint finds, its
    stored URL, and for each required provider the stored result.
   */
  lemma RegistrySays(events: seq<Event>, required: seq<Provider>, pid: Pid, order: seq<Vid>)
    requires ListsVersions(History(events, required).db, pid, order)
    ensures var s := History(events, required);
            var registry := ReadJson(s.db, s.cache, required).0;
            && (pid in registry <==> && pid in s.db.plugins && s.db.plugins[pid].status == PluginActive
                                     && exists x | x in order :: IsOffered(s.db.versions[x], pid, required))
            && (pid in registry ==>
                  var x := registry[pid].vid;
                  && x in s.db.versions && IsOffered(s.db.versions[x], pid, required)
                  && DownloadLatest(s.db, order, required) == Found(x)
                  && Repeats(registry[pid], s.db.plugins[pid], s.db.versions[x], required))
  {
    var s := History(events, required);
    HistoryKeeps(events, required);
    HistoryRuns(events, required);
    ServedIsCurrent(events, required);
    hide History, Inv, FormatEntry, Repeats, IsOffered, DownloadLatest, Servable, IsServed;
    forall x | x in s.db.versions
      ensures IsServed(s.db, pid, x, required) <==> IsOffered(s.db.versions[x], pid, required)
    {
      ServedIsOffered(s.db, pid, x, required);
    }
    if IsListed(s.db, pid, required) {
      var x := ServedVersion(s.db, pid, required);
      ServedIsStored(s.db, pid, x, required);
      TheEntry(s.db, pid, x, required);
      FormattedRepeats(s.db, pid, x, required);
      DownloadIsServed(Calls(events), pid, order, required, x);
    }
    if x :| x in order && IsServed(s.db, pid, x, required) {
      ServedIsStored(s.db, pid, x, required);
    }
  }

  lemma ServedIsStored(db: Db, pid: Pid, x: Vid, required: seq<Provider>)
    requires IsServed(db, pid, x, required)
    ensures x in db.versions && db.versions[x].plugin == pid
  {
  }

  /**
    The listed URL is the one the version's last upload or build gave, and every
    result that let it through was reported by a call of the history.
   */
  lemma ListedIsGivenAndReported(events: seq<Event>, required: seq<Provider>, pid: Pid, order: seq<Vid>, q: Provider)
    requires ListsVersions(History(events, required).db, pid, order) && q in required
    requires var s := History(events, required); pid in ReadJson(s.db, s.cache, required).0
    ensures var s, ops := History(events, required), Calls(events);
            var e := ReadJson(s.db, s.cache, required).0[pid];
            && e.vid in s.db.versions && s.db.versions[e.vid].downloadUrl == Some(e.downloadUrl)
            && WasGiven(ops, e.vid, s.db.versions[e.vid]) && ReportedClean(ops, e.vid, q)
  {
    var s, ops := History(events, required), Calls(events);
    var x := ReadJson(s.db, s.cache, required).0[pid].vid;
    hide *;
    ListedEntry(events, required, pid, order);
    HistoryRuns(events, required);
    HistoryKeeps(events, required);
    OfferedPasses(s.db, pid, x, required);
    ArtifactsAreAsGiven(ops, x);
    GateNeedsReports(ops, x, required, q);
  }

  lemma ListedEntry(events: seq<Event>, required: seq<Provider>, pid: Pid, order: seq<Vid>)
    requires ListsVersions(History(events, required).db, pid, order)
    requires var s := History(events, required); pid in ReadJson(s.db, s.cache, required).0
    ensures var s := History(events, required);
            var e := ReadJson(s.db, s.cache, required).0[pid];
            && e.vid in s.db.versions && s.db.versions[e.vid].downloadUrl == Some(e.downloadUrl)
            && IsOffered(s.db.versions[e.vid], pid, required)
  {
    hide History, ReadJson, ListsVersions, DownloadLatest, IsOffered;
    RegistrySays(events, required, pid, order);
  }

  lemma OfferedPasses(db: Db, pid: Pid, x: Vid, required: seq<Provider>)
    requires Inv(db) && x in db.versions && IsOffered(db.versions[x], pid, required)
    ensures ScanPassed(db.versions[x], required)
  {
    hide Inv, ScanPassed, IsOffered;
    ServedIsOffered(db, pid, x, required);
  }
}

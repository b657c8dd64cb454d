/**
  The file tree of a packaged artifact, built from the member names of its zip
  archive in the order they appear.
 */
module ArtifactTree {
  import opened Options
  import opened Strings

  // ---- Paths ----

  function Split(s: string): (parts: seq<string>)
    ensures |parts| >= 1
    decreases |s|
  {
    if s == "" then [""]
    else
      var rest := Split(s[1..]);
      if s[0] == '/' then [""] + rest else [[s[0]] + rest[0]] + rest[1..]
  }

  predicate IsPart(part: string) {
    part != "" && part != "." && '/' !in part
  }

  function Kept(parts: seq<string>): seq<string> {
    if parts == [] then [] else (if parts[0] == "" || parts[0] == "." then [] else [parts[0]]) + Kept(parts[1..])
  }

  /** PurePosixPath(s).parts, for a path that does not start with a slash */
  function Parts(s: string): seq<string> {
    Kept(Split(s))
  }

  function Join(parts: seq<string>): string {
    if parts == [] then "" else if |parts| == 1 then parts[0] else parts[0] + "/" + Join(parts[1..])
  }

  function Slashes(s: string): nat {
    if s == "" then 0 else (if s[0] == '/' then 1 else 0) + Slashes(s[1..])
  }

  predicate AreParts(parts: seq<string>) {
    forall p | p in parts :: IsPart(p)
  }

  lemma {:induction false} SplitAtSlash(a: string, b: string)
    requires '/' !in a
    ensures Split(a + "/" + b) == [a] + Split(b)
    ensures Split(a) == [a]
  {
    var s := a + "/" + b;
    if a == "" {
      assert s[1..] == b;
    } else {
      assert a == [a[0]] + a[1..] && a[0] in a;
      assert s[1..] == a[1..] + "/" + b;
      SplitAtSlash(a[1..], b);
    }
  }

  lemma {:induction false} SplitHasNoSlash(s: string)
    ensures forall p | p in Split(s) :: '/' !in p
    decreases |s|
  {
    if s != "" {
      SplitHasNoSlash(s[1..]);
      var rest := Split(s[1..]);
      assert rest[0] in rest;
      assert rest == [rest[0]] + rest[1..];
    }
  }

  lemma {:induction false} KeptArePartsOf(parts: seq<string>)
    requires forall p | p in parts :: '/' !in p
    ensures AreParts(Kept(parts))
  {
    if parts != [] {
      KeptArePartsOf(parts[1..]);
    }
  }

  lemma PartsAreParts(s: string)
    ensures AreParts(Parts(s))
  {
    SplitHasNoSlash(s);
    KeptArePartsOf(Split(s));
  }

  /** Joining and splitting again gives the same parts. */
  lemma {:induction false} PartsOfJoin(parts: seq<string>)
    requires AreParts(parts) && parts != []
    ensures Parts(Join(parts)) == parts && Slashes(Join(parts)) == |parts| - 1
    ensures Join(parts) != ""
  {
    var p := parts[0];
    assert p in parts && IsPart(p);
    NoSlashes(p);
    if |parts| == 1 {
      SplitAtSlash(p, "");
      assert Kept([p]) == [p] + Kept([p][1..]);
    } else {
      var rest := parts[1..];
      PartsOfJoin(rest);
      SplitAtSlash(p, Join(rest));
      SlashesAfter(p, Join(rest));
      assert ([p] + Split(Join(rest)))[1..] == Split(Join(rest));
    }
  }

  lemma {:induction false} NoSlashes(p: string)
    requires '/' !in p
    ensures Slashes(p) == 0
  {
    if p != "" {
      NoSlashes(p[1..]);
    }
  }

  lemma {:induction false} SlashesAfter(p: string, rest: string)
    requires '/' !in p
    ensures Slashes(p + "/" + rest) == 1 + Slashes(rest)
  {
    var s := p + "/" + rest;
    if p == "" {
      assert s[1..] == rest;
    } else {
      assert s[1..] == p[1..] + "/" + rest;
      SlashesAfter(p[1..], rest);
    }
  }

  // ---- Member names ----

  function Forward(name: string): (s: string)
    ensures |s| == |name| && forall i | 0 <= i < |name| :: s[i] == if name[i] == '\\' then '/' else name[i]
  {
    if name == "" then "" else [if name[0] == '\\' then '/' else name[0]] + Forward(name[1..])
  }

  predicate IsSeparator(c: char) {
    c == '/' || c == '\\'
  }

  /** PureWindowsPath(name).drive is not empty */
  predicate HasDrive(name: string) {
    |name| >= 2 && if IsSeparator(name[0]) then IsSeparator(name[1]) else name[1] == ':'
  }

  datatype Normal = Ignored | Unsafe | Path(path: string)

  /** _normalize_member_path */
  function Normalize(name: string): Normal {
    var normalized := Trim(Forward(name), c => c == '/');
    if normalized == "" then Ignored
    else if HasDrive(name) || ".." in Parts(normalized) then Unsafe
    else Path(if Parts(normalized) == [] then "." else Join(Parts(normalized)))
  }

  /**
    A listed path is relative, has no empty, "." or ".." part, and is the join of its
    parts; only the root itself is ".".
   */
  lemma NormalPaths(name: string)
    requires Normalize(name).Path?
    ensures var path := Normalize(name).path;
            && path != "" && path[0] != '/' && AreParts(Parts(path)) && ".." !in Parts(path)
            && (path == "." || (Parts(path) != [] && path == Join(Parts(path))))
  {
    var normalized := Trim(Forward(name), c => c == '/');
    var parts := Parts(normalized);
    PartsAreParts(normalized);
    if parts == [] {
      assert Split(".") == ["."] by { SplitAtSlash(".", ""); }
      assert Kept(["."][1..]) == [];
    } else {
      PartsOfJoin(parts);
      assert parts[0] in parts && Join(parts)[0] == parts[0][0];
    }
  }

  // ---- Which path a name stands for ----

  lemma {:induction false} KeptConcat(a: seq<string>, b: seq<string>)
    ensures Kept(a + b) == Kept(a) + Kept(b)
    decreases |a|
  {
    if a == [] {
      assert a + b == b;
    } else {
      assert (a + b)[1..] == a[1..] + b;
      KeptConcat(a[1..], b);
    }
  }

  /** Empty and "." segments count for nothing, all others for themselves, in order. */
  lemma SegmentsCount(a: seq<string>, p: string, b: seq<string>)
    ensures Kept(a + [p] + b) == if p == "" || p == "." then Kept(a + b) else Kept(a) + [p] + Kept(b)
    ensures Kept([]) == []
  {
    KeptConcat(a + [p], b);
    KeptConcat(a, [p]);
    KeptConcat(a, b);
    assert [p][1..] == [] && Kept([p]) == if p == "" || p == "." then [] else [p];
    hide Kept;
    assert Kept(a) + [] == Kept(a);
  }

  predicate HasNoSlash(segments: seq<string>) {
    forall p | p in segments :: '/' !in p
  }

  lemma {:induction false} SplitOfJoin(segments: seq<string>)
    requires segments != [] && HasNoSlash(segments)
    ensures Split(Join(segments)) == segments
  {
    var p := segments[0];
    assert p in segments;
    if |segments| == 1 {
      SplitAtSlash(p, "");
    } else {
      SplitOfJoin(segments[1..]);
      SplitAtSlash(p, Join(segments[1..]));
    }
  }

  lemma {:induction false} SlashAtTheEnd(s: string)
    ensures Split(s + "/") == Split(s) + [""]
    decreases |s|
  {
    if s == "" {
      assert s + "/" == "/" && "/"[1..] == "";
    } else {
      assert (s + "/")[1..] == s[1..] + "/";
      SlashAtTheEnd(s[1..]);
    }
  }

  lemma SlashesTrim(s: string)
    ensures Parts("/" + s) == Parts(s) && Parts(s + "/") == Parts(s)
  {
    SlashAtTheEnd(s);
    SplitAtSlash("", s);
    assert "" + "/" + s == "/" + s;
    KeptConcat([""], Split(s));
    KeptConcat(Split(s), [""]);
    assert [""][1..] == [] && Kept([""]) == [];
    assert [] + Kept(Split(s)) == Kept(Split(s)) == Kept(Split(s)) + [];
    hide Split;
  }

  /** Slashes at the ends change no part. */
  lemma {:induction false} TrimKeepsParts(s: string)
    ensures Parts(Trim(s, c => c == '/')) == Parts(s)
    decreases |s|
  {
    hide Parts;
    if s != "" {
      if s[0] == '/' {
        assert s == "/" + s[1..];
        SlashesTrim(s[1..]);
        TrimKeepsParts(s[1..]);
      } else if s[|s| - 1] == '/' {
        assert s == s[..|s| - 1] + "/";
        SlashesTrim(s[..|s| - 1]);
        TrimKeepsParts(s[..|s| - 1]);
      }
    }
  }

  lemma {:induction false} ForwardIsItself(s: string)
    ensures '\\' !in s ==> Forward(s) == s
    ensures Forward(Forward(s)) == Forward(s) && '\\' !in Forward(s)
  {
    if s != "" {
      ForwardIsItself(s[1..]);
      assert s == [s[0]] + s[1..];
      assert Forward(s)[1..] == Forward(s[1..]);
    }
  }

  /** Backslashes separate just as slashes do. */
  lemma BackslashesAreSlashes(name: string)
    ensures Normalize(name) == Normalize(Forward(name))
  {
    ForwardIsItself(name);
    hide Parts, Trim, Join;
    assert HasDrive(name) <==> HasDrive(Forward(name));
  }

  /**
    Which path a name stands for, by its segments between slashes: nothing when it
    has only slashes; refused when it begins with two slashes or a one-letter
    drive, or climbs with ".."; otherwise the path of its non-empty segments
    other than ".", or the root when there are none.
   */
  lemma NormalizeMeans(segments: seq<string>)
    requires segments != [] && HasNoSlash(segments) && forall p | p in segments :: '\\' !in p
    ensures var name := Join(segments);
            var drive := |name| >= 2 && (name[..2] == "//" || (name[0] != '/' && name[1] == ':'));
            Normalize(name) == if forall c | c in name :: c == '/' then Ignored
                               else if drive || ".." in segments then Unsafe
                               else Path(if Kept(segments) == [] then "." else Join(Kept(segments)))
  {
    var name := Join(segments);
    SplitOfJoin(segments);
    TrimKeepsParts(name);
    TrimsAway(name, c => c == '/');
    assert Parts(name) == Kept(segments);
    JoinHasNo(segments, '\\');
    ForwardIsItself(name);
    KeepsOthers(segments, "..");
    hide *;
    DriveMeans(name);
    NormalizeUnfolds(name);
    assert Parts(Trim(name, c => c == '/')) == Kept(segments);
  }

  lemma DriveMeans(name: string)
    requires '\\' !in name
    ensures HasDrive(name) <==> |name| >= 2 && (name[..2] == "//" || (name[0] != '/' && name[1] == ':'))
  {
    assert |name| >= 2 ==> name[0] in name && name[1] in name;
    assert |name| >= 2 ==> (name[..2] == "//" <==> name[0] == '/' && name[1] == '/');
  }

  lemma NormalizeUnfolds(name: string)
    requires Forward(name) == name
    ensures var normalized := Trim(name, c => c == '/');
            Normalize(name) == if normalized == "" then Ignored
                               else if HasDrive(name) || ".." in Parts(normalized) then Unsafe
                               else Path(if Parts(normalized) == [] then "." else Join(Parts(normalized)))
  {
    hide Forward, Trim, Parts, Join, HasDrive;
  }

  lemma {:induction false} JoinHasNo(segments: seq<string>, c: char)
    requires c != '/' && forall p | p in segments :: c !in p
    ensures c !in Join(segments)
  {
    if segments != [] {
      assert segments[0] in segments;
      JoinHasNo(segments[1..], c);
    }
  }

  lemma {:induction false} KeepsOthers(segments: seq<string>, p: string)
    requires p != "" && p != "."
    ensures p in Kept(segments) <==> p in segments
  {
    if segments != [] {
      assert segments == [segments[0]] + segments[1..];
      KeepsOthers(segments[1..], p);
    }
  }

  // ---- The tree ----

  datatype EntryKind = Dir | File

  datatype Entry = Entry(path: string, name: string, kind: EntryKind, size: Option<nat>)

  datatype Member = Member(name: string, size: nat)
  {
    predicate IsDir() {
      name != "" && name[|name| - 1] == '/'
    }
  }

  /** p is one of the first index - 1 directories above the path. */
  ghost predicate IsAbove(p: string, path: string, index: nat) {
    exists k :: 1 <= k < index && k < |Parts(path)| && p == Join(Parts(path)[..k])
  }

  /** p is the path itself or a directory above it. */
  ghost predicate IsPrefix(p: string, path: string) {
    p == path || IsAbove(p, path, |Parts(path)|)
  }

  lemma NextAbove(p: string, path: string, index: nat)
    requires 1 <= index < |Parts(path)|
    ensures IsAbove(p, path, index + 1) <==> IsAbove(p, path, index) || p == Join(Parts(path)[..index])
    ensures !IsAbove(p, path, 1)
  {
    hide Join, Parts;
  }

  function LastName(path: string): string {
    if Parts(path) == [] then "" else Parts(path)[|Parts(path)| - 1]
  }

  predicate IsFileAt(m: Member, p: string) {
    !m.IsDir() && Normalize(m.name) == Path(p)
  }

  /** The size of the last file member with this path, if there is one. */
  function LastFile(p: string, members: seq<Member>): Option<nat> {
    if members == [] then None
    else
      var n := |members| - 1;
      if IsFileAt(members[n], p) then Some(members[n].size) else LastFile(p, members[..n])
  }

  ghost predicate ListedBy(p: string, members: seq<Member>) {
    exists m | m in members :: Normalize(m.name).Path? && IsPrefix(p, Normalize(m.name).path)
  }

  predicate IsUnsafe(m: Member) {
    Normalize(m.name).Unsafe?
  }

  predicate Fits(e: Entry, p: string, file: Option<nat>) {
    e.path == p && e.name == LastName(p) && e.size == file && (e.kind == File <==> file.Some?)
  }

  ghost predicate Describes(entries: map<string, Entry>, members: seq<Member>) {
    && (forall p :: p in entries <==> ListedBy(p, members))
    && (forall p | p in entries :: Fits(entries[p], p, LastFile(p, members)))
  }

  lemma ListedByMore(p: string, members: seq<Member>, m: Member)
    ensures ListedBy(p, members + [m]) <==>
              ListedBy(p, members) || (Normalize(m.name).Path? && IsPrefix(p, Normalize(m.name).path))
    ensures LastFile(p, members + [m]) == if IsFileAt(m, p) then Some(m.size) else LastFile(p, members)
  {
    hide Normalize, IsPrefix, IsFileAt;
    var more := members + [m];
    assert more[..|more| - 1] == members;
    assert m in more;
    assert forall x | x in more :: x in members || x == m;
    if ListedBy(p, members) {
      var x :| x in members && Normalize(x.name).Path? && IsPrefix(p, Normalize(x.name).path);
      assert x in more;
    }
  }

  lemma {:induction false} FilesAreListed(p: string, members: seq<Member>)
    ensures LastFile(p, members).Some? ==> ListedBy(p, members)
  {
    hide Normalize;
    if members != [] {
      var n := |members| - 1;
      FilesAreListed(p, members[..n]);
      assert members[..n] + [members[n]] == members;
      ListedByMore(p, members[..n], members[n]);
    }
  }

  lemma ParentName(path: string, index: nat)
    requires AreParts(Parts(path)) && 1 <= index <= |Parts(path)|
    ensures LastName(Join(Parts(path)[..index])) == Parts(path)[index - 1]
  {
    assert forall q | q in Parts(path)[..index] :: q in Parts(path);
    PartsOfJoin(Parts(path)[..index]);
  }

  class Tree {
    var entries: map<string, Entry>

    constructor ()
      ensures entries == map[]
    {
      entries := map[];
    }

    method SetDefault(p: string, entry: Entry)
      modifies this
      ensures entries == if p in old(entries) then old(entries) else old(entries)[p := entry]
    {
      if p !in entries {
        entries := entries[p := entry];
      }
    }

    /** Adds the directories above a path and leaves every other entry alone. */
    method AddParentDirs(path: string)
      requires AreParts(Parts(path))
      modifies this
      ensures forall p :: p in entries <==> p in old(entries) || IsAbove(p, path, |Parts(path)|)
      ensures forall p | p in entries ::
        if p in old(entries) then entries[p] == old(entries)[p] else Fits(entries[p], p, None)
    {
      hide Parts, Join, IsAbove, LastName, IsPart;
      var parts := Parts(path);
      assert forall p :: !IsAbove(p, path, 1) && !IsAbove(p, path, 0) by { NoneAbove(path); }
      var index := 1;
      while index < |parts|
        invariant 1 <= index && (index == 1 || index <= |parts|)
        invariant forall p :: p in entries <==> p in old(entries) || IsAbove(p, path, index)
        invariant forall p | p in entries :: if p in old(entries)
                  then entries[p] == old(entries)[p] else Fits(entries[p], p, None)
      {
        var parent := Join(parts[..index]);
        ParentName(path, index);
        forall p
          ensures IsAbove(p, path, index + 1) <==> IsAbove(p, path, index) || p == parent
        {
          NextAbove(p, path, index);
        }
        SetDefault(parent, Entry(parent, parts[index - 1], Dir, None));
        index := index + 1;
      }
    }

    /**
      Lists exactly the accepted members and the directories above them; an
      entry is a file when some file member has its path, with the last such
      member's size. Any unsafe name fails the whole archive.
     */
    method ReadArtifactTree(members: seq<Member>) returns (ok: bool)
      requires entries == map[]
      modifies this
      ensures ok <==> forall m | m in members :: !IsUnsafe(m)
      ensures ok ==> Describes(entries, members)
    {
      hide Normalize, LastName, LastFile, ListedBy, IsAbove, Parts;
      assert Describes(entries, members[..0]) by { NothingListed(); }
      for i := 0 to |members|
        invariant Describes(entries, members[..i])
        invariant forall m | m in members[..i] :: !IsUnsafe(m)
      {
        var info := members[i];
        assert members[..i + 1] == members[..i] + [info];
        var normal := Normalize(info.name);
        if normal.Unsafe? {
          assert info in members && IsUnsafe(info);
          return false;
        }
        ghost var before := entries;
        if normal.Path? {
          var path := normal.path;
          NormalPaths(info.name);
          AddParentDirs(path);
          if info.IsDir() {
            SetDefault(path, Entry(path, LastName(path), Dir, None));
          } else {
            entries := entries[path := Entry(path, LastName(path), File, Some(info.size))];
          }
        }
        MemberAdded(before, entries, members[..i], info);
      }
      assert members[..|members|] == members;
      ok := true;
    }
  }

  lemma NoneAbove(path: string)
    ensures forall p :: !IsAbove(p, path, 1) && !IsAbove(p, path, 0)
  {
    hide Parts, Join;
  }

  lemma NothingListed()
    ensures Describes(map[], [])
  {
  }

  /** What one member does to the entries. */
  lemma MemberAdded(before: map<string, Entry>, after: map<string, Entry>, members: seq<Member>, m: Member)
    requires Describes(before, members) && !Normalize(m.name).Unsafe?
    requires Normalize(m.name).Ignored? ==> after == before
    requires Normalize(m.name).Path? ==>
               var path := Normalize(m.name).path;
               && (forall p :: p in after <==> p in before || IsPrefix(p, path))
               && (forall p | p in after && !IsFileAt(m, p) ::
                   if p in before then after[p] == before[p] else Fits(after[p], p, None))
               && (!m.IsDir() ==> Fits(after[path], path, Some(m.size)))
    ensures Describes(after, members + [m])
  {
    hide Normalize, IsPrefix, Fits, ListedBy, LastFile, IsFileAt;
    forall p
      ensures p in after <==> ListedBy(p, members + [m])
      ensures p in after ==> Fits(after[p], p, LastFile(p, members + [m]))
    {
      ListedByMore(p, members, m);
      FilesAreListed(p, members);
      FileHere(m, p);
    }
  }

  lemma FileHere(m: Member, p: string)
    ensures IsFileAt(m, p) <==> !m.IsDir() && Normalize(m.name) == Path(p)
  {
  }

  // ---- What a reader of the tree relies on ----

  lemma PrefixParts(p: string, path: string)
    requires AreParts(Parts(path)) && IsPrefix(p, path)
    requires path == "." || (Parts(path) != [] && path == Join(Parts(path)))
    ensures p == path || exists k :: 1 <= k < |Parts(path)| && Parts(p) == Parts(path)[..k] && p == Join(Parts(p))
  {
    hide Join, Parts;
    if p != path {
      var k :| 1 <= k < |Parts(path)| && p == Join(Parts(path)[..k]);
      assert forall q | q in Parts(path)[..k] :: q in Parts(path);
      PartsOfJoin(Parts(path)[..k]);
    }
  }

  /** Every directory above a listed entry is listed, as long as its name was accepted. */
  lemma ListingIsAncestorClosed(members: seq<Member>, p: string, j: nat)
    requires ListedBy(p, members) && 1 <= j < |Parts(p)|
    ensures ListedBy(Join(Parts(p)[..j]), members)
  {
    hide Normalize, Join, Parts, AreParts, IsPrefix;
    var m :| m in members && Normalize(m.name).Path? && IsPrefix(p, Normalize(m.name).path);
    var path := Normalize(m.name).path;
    NormalPaths(m.name);
    PrefixParts(p, path);
    PrefixOfPrefix(p, path, j);
  }

  lemma PrefixOfPrefix(p: string, path: string, j: nat)
    requires p == path || exists k :: 1 <= k < |Parts(path)| && Parts(p) == Parts(path)[..k]
    requires 1 <= j < |Parts(p)|
    ensures IsPrefix(Join(Parts(p)[..j]), path)
  {
    hide Join, Parts;
    assert Parts(p)[..j] == Parts(path)[..j];
  }

  /** The sort key: depth, directories before files, then the name in lower case. */
  datatype Key = Key(depth: nat, isFile: bool, lower: string)

  predicate Precedes(a: Key, b: Key, less: (string, string) -> bool) {
    || a.depth < b.depth
    || (a.depth == b.depth && !a.isFile && b.isFile)
    || (a.depth == b.depth && a.isFile == b.isFile && less(a.lower, b.lower))
  }

  function KeyOf(e: Entry, lower: string -> string): Key {
    Key(Slashes(e.path), e.kind == File, lower(e.path))
  }

  /** What a stable sort returns: the entries, no later one strictly before an earlier one. */
  ghost predicate IsSorted(sorted: seq<Entry>, lower: string -> string, less: (string, string) -> bool) {
    forall i, j | 0 <= i < j < |sorted| :: !Precedes(KeyOf(sorted[j], lower), KeyOf(sorted[i], lower), less)
  }

  lemma AncestorsAreShallower(p: string, j: nat)
    requires AreParts(Parts(p)) && p == Join(Parts(p)) && 1 <= j < |Parts(p)|
    ensures Slashes(Join(Parts(p)[..j])) < Slashes(p)
  {
    hide Join, Parts;
    assert forall q | q in Parts(p)[..j] :: q in Parts(p);
    PartsOfJoin(Parts(p)[..j]);
    PartsOfJoin(Parts(p));
  }

  /** However lower case and names compare, the sorted tree puts every directory before everything under it. */
  lemma AncestorsComeFirst(members: seq<Member>, entries: map<string, Entry>, sorted: seq<Entry>,
                           lower: string -> string, less: (string, string) -> bool, a: nat, b: nat, j: nat)
    requires Describes(entries, members) && IsSorted(sorted, lower, less)
    requires forall e | e in sorted :: e.path in entries && entries[e.path] == e
    requires a < |sorted| && b < |sorted| && 1 <= j < |Parts(sorted[b].path)|
    requires sorted[a].path == Join(Parts(sorted[b].path)[..j])
    ensures a < b
  {
    var p := sorted[b].path;
    assert sorted[b] in sorted;
    ListedIsClean(members, p);
    hide Describes, Parts, Join, AreParts, Slashes, IsSorted;
    AncestorsAreShallower(p, j);
    ShallowComesFirst(sorted, lower, less, a, b);
  }

  lemma ShallowComesFirst(sorted: seq<Entry>, lower: string -> string, less: (string, string) -> bool, a: nat, b: nat)
    requires IsSorted(sorted, lower, less) && a < |sorted| && b < |sorted|
    requires Slashes(sorted[a].path) < Slashes(sorted[b].path)
    ensures a < b
  {
    hide Slashes;
    assert Precedes(KeyOf(sorted[a], lower), KeyOf(sorted[b], lower), less);
  }

  /** At one depth directories stand before files, and entries of one kind by their names in lower case. */
  lemma SiblingsAreGrouped(sorted: seq<Entry>, lower: string -> string, less: (string, string) -> bool, a: nat, b: nat)
    requires IsSorted(sorted, lower, less) && a < |sorted| && b < |sorted|
    requires Slashes(sorted[a].path) == Slashes(sorted[b].path)
    ensures sorted[a].kind == Dir && sorted[b].kind == File ==> a < b
    ensures a < b && sorted[a].kind == sorted[b].kind ==> !less(lower(sorted[b].path), lower(sorted[a].path))
  {
    hide Slashes;
    if b < a {
      assert !Precedes(KeyOf(sorted[a], lower), KeyOf(sorted[b], lower), less);
    }
  }

  predicate IsFileMember(m: Member, p: string) {
    (m.name == "" || m.name[|m.name| - 1] != '/') && Normalize(m.name) == Path(p)
  }

  /** Member i is the last one that is a file under this path. */
  ghost predicate IsLastFile(members: seq<Member>, i: nat, p: string) {
    i < |members| && IsFileMember(members[i], p) && forall j | i < j < |members| :: !IsFileMember(members[j], p)
  }

  /** The size shown for a path is that of the last member whose name, without a closing slash, stands for it. */
  lemma {:induction false} LastFileMeans(p: string, members: seq<Member>)
    ensures LastFile(p, members).Some? ==> exists i: nat :: IsLastFile(members, i, p)
    ensures forall i: nat | IsLastFile(members, i, p) :: LastFile(p, members) == Some(members[i].size)
  {
    if members != [] {
      hide *;
      var n := |members| - 1;
      LastFileMeans(p, members[..n]);
      LastMember(members, p);
      LastFileUnfolds(members, p);
      if IsFileMember(members[n], p) {
        assert IsLastFile(members, n, p);
      } else if i: nat :| IsLastFile(members[..n], i, p) {
        assert IsLastFile(members, i, p);
      }
    } else {
      assert forall i: nat :: !IsLastFile(members, i, p);
    }
  }

  lemma LastFileUnfolds(members: seq<Member>, p: string)
    requires members != []
    ensures var n := |members| - 1;
            LastFile(p, members) == if IsFileMember(members[n], p) then Some(members[n].size)
                                    else LastFile(p, members[..n])
  {
    FileMember(members[|members| - 1], p);
    hide IsFileMember, IsFileAt;
  }

  lemma LastMember(members: seq<Member>, p: string)
    requires members != []
    ensures var n := |members| - 1;
            if IsFileMember(members[n], p) then forall i: nat :: IsLastFile(members, i, p) <==> i == n
            else forall i: nat :: IsLastFile(members, i, p) <==> IsLastFile(members[..n], i, p)
    ensures forall i: nat | IsLastFile(members, i, p) :: i < |members|
  {
    hide IsFileMember;
    var n := |members| - 1;
    assert forall i: nat | i < n :: members[..n][i] == members[i];
  }

  lemma FileMember(m: Member, p: string)
    ensures IsFileAt(m, p) <==> IsFileMember(m, p)
  {
    hide Normalize;
  }

  lemma ListedIsClean(members: seq<Member>, p: string)
    requires ListedBy(p, members) && Parts(p) != []
    ensures AreParts(Parts(p)) && p == Join(Parts(p))
  {
    PartsAreParts(p);
    hide Normalize, Join, Parts, AreParts, IsPrefix;
    var m :| m in members && Normalize(m.name).Path? && IsPrefix(p, Normalize(m.name).path);
    NormalPaths(m.name);
    PrefixParts(p, Normalize(m.name).path);
    RootHasNoParts();
  }

  lemma RootHasNoParts()
    ensures Parts(".") == []
  {
    SplitAtSlash(".", "");
    assert Kept(["."][1..]) == [];
  }
}

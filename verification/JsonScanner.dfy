/**
  The scanner that cuts a JSON object out of a language model's free text, and
  the proof that it is transparent: whatever surrounds a well-formed object, the
  object comes back unchanged, except in the cases named here exactly.
 */
module JsonScanner {
  import opened JsonText
  import opened Options

  datatype Result = Ok(text: string) | NoObject | Incomplete

  // ---- What the code computes ----

  /** Python's str.isspace, which is what strip() removes. */
  predicate IsSpace(c: char) {
    || '\t' <= c <= '\r' || '\U{1c}' <= c <= ' ' || c == '\U{85}' || c == '\U{a0}' || c == '\U{1680}'
    || '\U{2000}' <= c <= '\U{200a}' || c == '\U{2028}' || c == '\U{2029}' || c == '\U{202f}'
    || c == '\U{205f}' || c == '\U{3000}'
  }

  /** The characters at which str.splitlines ends a line. */
  predicate IsLineBreak(c: char) {
    || '\n' <= c <= '\r' || '\U{1c}' <= c <= '\U{1e}' || c == '\U{85}' || c == '\U{2028}' || c == '\U{2029}'
  }

  function StripLeft(s: string): string {
    if s != "" && IsSpace(s[0]) then StripLeft(s[1..]) else s
  }

  function StripRight(s: string): string {
    if s != "" && IsSpace(s[|s| - 1]) then StripRight(s[..|s| - 1]) else s
  }

  function Strip(s: string): string {
    StripRight(StripLeft(s))
  }

  const FENCE := "```"

  /** The index of the first line break at or after i, or the length. */
  function BreakIndex(s: string, i: nat): (r: nat)
    requires i <= |s|
    ensures i <= r <= |s|
    ensures forall k | i <= k < r :: !IsLineBreak(s[k])
    ensures r < |s| ==> IsLineBreak(s[r])
    decreases |s| - i
  {
    if i == |s| || IsLineBreak(s[i]) then i else BreakIndex(s, i + 1)
  }

  function AfterBreak(s: string, i: nat): (r: nat)
    requires i < |s|
    ensures i < r <= |s|
  {
    if s[i] == '\r' && i + 1 < |s| && s[i + 1] == '\n' then i + 2 else i + 1
  }

  function SplitLines(s: string): seq<string>
    decreases |s|
  {
    if s == "" then []
    else
      var i := BreakIndex(s, 0);
      if i == |s| then [s] else [s[..i]] + SplitLines(s[AfterBreak(s, i)..])
  }

  function JoinLines(lines: seq<string>): string {
    if lines == [] then ""
    else if |lines| == 1 then lines[0]
    else lines[0] + "\n" + JoinLines(lines[1..])
  }

  function DropFences(lines: seq<string>): seq<string> {
    var body := if lines != [] && FENCE <= lines[0] then lines[1..] else lines;
    if body != [] && FENCE <= body[|body| - 1] then body[..|body| - 1] else body
  }

  function Unfenced(text: string): string {
    if FENCE <= text then Strip(JoinLines(DropFences(SplitLines(text)))) else text
  }

  predicate EndsWithBrace(s: string) {
    s != "" && s[|s| - 1] == '}'
  }

  function Find(text: string, c: char): (r: nat)
    ensures r <= |text|
    ensures r < |text| ==> text[r] == c
    ensures forall k | 0 <= k < r :: text[k] != c
  {
    if text == "" || text[0] == c then 0 else 1 + Find(text[1..], c)
  }

  datatype Scan = Running(depth: int, inString: bool, escape: bool) | Found

  function ScanStep(s: Scan, c: char): Scan {
    match s
    case Found => Found
    case Running(depth, inString, escape) =>
      if escape then Running(depth, inString, false)
      else if c == '\\' then Running(depth, inString, true)
      else if c == '"' then Running(depth, !inString, false)
      else if inString then s
      else if c == '{' then Running(depth + 1, false, false)
      else if c == '}' then (if depth == 1 then Found else Running(depth - 1, false, false))
      else s
  }

  const START := Running(0, false, false)

  /** The first index at which the scan has found the matching brace. */
  function FirstEnd(text: string, i: nat, s: Scan): (r: Option<nat>)
    requires i <= |text|
    ensures r.Some? ==> i <= r.value < |text|
    decreases |text| - i
  {
    if i == |text| then None
    else if ScanStep(s, text[i]).Found? then Some(i)
    else FirstEnd(text, i + 1, ScanStep(s, text[i]))
  }

  function Scanned(text: string): Result {
    var start := Find(text, '{');
    if start == |text| then NoObject
    else match FirstEnd(text, start, START)
      case None => Incomplete
      case Some(end) => Ok(text[start..end + 1])
  }

  function Extract(raw: string): Result {
    var text := Unfenced(Strip(raw));
    if "{" <= text && EndsWithBrace(text) then Ok(text) else Scanned(text)
  }

  /** extract_json_object. */
  method ExtractJsonObject(raw: string) returns (r: Result)
    ensures r == Extract(raw)
  {
    hide Unfenced, Strip;
    var text := Unfenced(Strip(raw));
    if "{" <= text && EndsWithBrace(text) {
      return Ok(text);
    }
    var start := Find(text, '{');
    if start == |text| {
      return NoObject;
    }
    var depth, inString, escape := 0, false, false;
    for index := start to |text|
      invariant FirstEnd(text, start, START) == FirstEnd(text, index, Running(depth, inString, escape))
    {
      var c := text[index];
      if escape {
        escape := false;
        continue;
      }
      if c == '\\' {
        escape := true;
        continue;
      }
      if c == '"' {
        inString := !inString;
        continue;
      }
      if inString {
        continue;
      }
      if c == '{' {
        depth := depth + 1;
      } else if c == '}' {
        depth := depth - 1;
        if depth == 0 {
          return Ok(text[start..index + 1]);
        }
      }
    }
    return Incomplete;
  }

  // ---- Scanning a well-formed value leaves the scanner where it was ----

  function ScanAll(s: Scan, text: string): Scan
    decreases |text|
  {
    if text == "" then s else ScanAll(ScanStep(s, text[0]), text[1..])
  }

  lemma {:induction false} ScanConcat(s: Scan, a: string, b: string)
    ensures ScanAll(s, a + b) == ScanAll(ScanAll(s, a), b)
    decreases |a|
  {
    if a == "" {
      assert a + b == b;
    } else {
      assert (a + b)[1..] == a[1..] + b;
      ScanConcat(ScanStep(s, a[0]), a[1..], b);
    }
  }

  predicate IsQuiet(text: string) {
    forall i | 0 <= i < |text| :: text[i] != '\\' && text[i] != '"' && text[i] != '{' && text[i] != '}'
  }

  lemma {:induction false} QuietScan(depth: int, text: string)
    requires IsQuiet(text)
    ensures ScanAll(Running(depth, false, false), text) == Running(depth, false, false)
    decreases |text|
  {
    if text != "" {
      QuietScan(depth, text[1..]);
    }
  }

  lemma {:induction false} CharsScan(depth: int, chars: seq<Char>)
    requires AreChars(chars)
    ensures ScanAll(Running(depth, true, false), CharsText(chars)) == Running(depth, true, false)
    decreases |chars|
  {
    if chars != [] {
      var inside := Running(depth, true, false);
      CharScan(depth, chars[0]);
      CharsScan(depth, chars[1..]);
      ScanConcat(inside, CharText(chars[0]), CharsText(chars[1..]));
    }
  }

  lemma CharScan(depth: int, c: Char)
    requires IsChar(c)
    ensures ScanAll(Running(depth, true, false), CharText(c)) == Running(depth, true, false)
  {
    var inside := Running(depth, true, false);
    match c
    case Plain(p) =>
    case Escape(e) => ScanTwo(inside, '\\', e);
    case Unicode(h1, h2, h3, h4) =>
      hide ScanAll;
      ScanConcat(inside, ['\\', 'u'], [h1, h2, h3, h4]);
      ScanConcat(inside, [h1, h2], [h3, h4]);
      ScanTwo(inside, '\\', 'u');
      ScanTwo(inside, h1, h2);
      ScanTwo(inside, h3, h4);
      assert [h1, h2] + [h3, h4] == [h1, h2, h3, h4];
      assert ['\\', 'u'] + [h1, h2, h3, h4] == ['\\', 'u', h1, h2, h3, h4];
  }

  lemma ScanTwo(s: Scan, a: char, b: char)
    ensures ScanAll(s, [a, b]) == ScanStep(ScanStep(s, a), b)
  {
    assert [a, b][1..] == [b] && [b][1..] == "";
    assert ScanAll(ScanStep(s, a), [b]) == ScanStep(ScanStep(s, a), b);
  }

  lemma QuotedScan(depth: int, chars: seq<Char>)
    requires AreChars(chars)
    ensures ScanAll(Running(depth, false, false), Quoted(chars)) == Running(depth, false, false)
  {
    var outside := Running(depth, false, false);
    CharsScan(depth, chars);
    ScanConcat(outside, "\"" + CharsText(chars), "\"");
    ScanConcat(outside, "\"", CharsText(chars));
  }

  lemma OneCharacterScans(depth: int)
    ensures var s := Running(depth, false, false);
            ScanAll(s, "[") == s && ScanAll(s, "]") == s && ScanAll(s, ",") == s && ScanAll(s, ":") == s
    ensures ScanAll(Running(depth, false, false), "{") == Running(depth + 1, false, false)
    ensures depth >= 1 ==> ScanAll(Running(depth + 1, false, false), "}") == Running(depth, false, false)
  {
  }

  lemma NumberIsQuiet(v: Value)
    requires v.Number? && IsValue(v)
    ensures IsQuiet(NumberText(v))
  {
  }

  /** Inside an object, any value brings the scanner back to its depth. */
  lemma {:induction false} ValueScan(depth: int, v: Value)
    requires depth >= 1 && IsValue(v)
    ensures ScanAll(Running(depth, false, false), ValueText(v)) == Running(depth, false, false)
    decreases v
  {
    hide NumberText, Quoted, ScanAll;
    var s := Running(depth, false, false);
    OneCharacterScans(depth);
    match v
    case Literal(text) => QuietScan(depth, text);
    case Number(_, _, _, _) => NumberIsQuiet(v); QuietScan(depth, NumberText(v));
    case Text(chars) => QuotedScan(depth, chars);
    case Array(elements) =>
      ElementsScan(depth, elements);
      ScanConcat(s, "[" + ElementsText(elements), "]");
      ScanConcat(s, "[", ElementsText(elements));
    case Object(members) =>
      ObjectBodyScan(depth, members);
      ScanConcat(s, "{" + MembersText(members), "}");
  }

  lemma {:induction false} ObjectBodyScan(depth: int, members: Members)
    requires depth >= 0 && AreMembers(members)
    ensures ScanAll(Running(depth, false, false), "{" + MembersText(members)) == Running(depth + 1, false, false)
    decreases members, 2
  {
    hide ScanAll, MembersText;
    OneCharacterScans(depth);
    MembersScan(depth + 1, members);
    ScanConcat(Running(depth, false, false), "{", MembersText(members));
  }

  lemma {:induction false} ElementScan(depth: int, e: Element)
    requires depth >= 1 && IsElement(e)
    ensures ScanAll(Running(depth, false, false), ElementText(e)) == Running(depth, false, false)
    decreases e
  {
    hide ScanAll, ValueText;
    var s := Running(depth, false, false);
    QuietScan(depth, e.before);
    ValueScan(depth, e.value);
    QuietScan(depth, e.after);
    ScanConcat(s, e.before + ValueText(e.value), e.after);
    ScanConcat(s, e.before, ValueText(e.value));
  }

  lemma {:induction false} ElementsScan(depth: int, es: Elements)
    requires depth >= 1 && AreElements(es)
    ensures ScanAll(Running(depth, false, false), ElementsText(es)) == Running(depth, false, false)
    decreases es
  {
    hide ScanAll, ElementText;
    var s := Running(depth, false, false);
    OneCharacterScans(depth);
    match es
    case NoElements(blank) => QuietScan(depth, blank);
    case LastElement(e) => ElementScan(depth, e);
    case MoreElements(e, rest) =>
      ElementScan(depth, e);
      ElementsScan(depth, rest);
      ScanConcat(s, ElementText(e) + ",", ElementsText(rest));
      ScanConcat(s, ElementText(e), ",");
  }

  lemma {:induction false} MemberScan(depth: int, m: Member)
    requires depth >= 1 && IsMember(m)
    ensures ScanAll(Running(depth, false, false), MemberText(m)) == Running(depth, false, false)
    decreases m
  {
    hide ScanAll, Quoted, ElementText;
    var s := Running(depth, false, false);
    OneCharacterScans(depth);
    QuietScan(depth, m.before);
    QuotedScan(depth, m.name);
    QuietScan(depth, m.afterName);
    ElementScan(depth, m.element);
    ScanConcat(s, m.before, Quoted(m.name));
    ScanConcat(s, m.before + Quoted(m.name), m.afterName);
    ScanConcat(s, m.before + Quoted(m.name) + m.afterName, ":");
    ScanConcat(s, m.before + Quoted(m.name) + m.afterName + ":", ElementText(m.element));
  }

  lemma {:induction false} MembersScan(depth: int, ms: Members)
    requires depth >= 1 && AreMembers(ms)
    ensures ScanAll(Running(depth, false, false), MembersText(ms)) == Running(depth, false, false)
    decreases ms, 1
  {
    hide ScanAll, MemberText;
    var s := Running(depth, false, false);
    OneCharacterScans(depth);
    match ms
    case NoMembers(blank) => QuietScan(depth, blank);
    case LastMember(m) => MemberScan(depth, m);
    case MoreMembers(m, rest) =>
      MemberScan(depth, m);
      MembersScan(depth, rest);
      ScanConcat(s, MemberText(m) + ",", MembersText(rest));
      ScanConcat(s, MemberText(m), ",");
  }

  // ---- The first end of the scan is the object's own closing brace ----

  lemma {:induction false} EndIsHere(before: string, body: string, rest: string, s: Scan)
    requires s.Running? && ScanAll(s, body).Running? && ScanAll(s, body).depth == 1
    requires !ScanAll(s, body).inString && !ScanAll(s, body).escape
    ensures FirstEnd(before + body + "}" + rest, |before|, s) == Some(|before| + |body|)
    decreases |body|
  {
    var text := before + body + "}" + rest;
    if body != "" {
      FoundStays(ScanStep(s, body[0]), body[1..]);
      EndIsHere(before + [body[0]], body[1..], rest, ScanStep(s, body[0]));
      assert before + [body[0]] + body[1..] == before + body;
      assert text[|before|] == body[0];
    }
  }

  lemma {:induction false} FoundStays(s: Scan, text: string)
    ensures s.Found? ==> ScanAll(s, text).Found?
    decreases |text|
  {
    if text != "" {
      FoundStays(ScanStep(s, text[0]), text[1..]);
    }
  }

  /** Scanning any text whose first '{' opens a well-formed object yields that object. */
  lemma ScannedIsObject(before: string, members: Members, rest: string)
    requires AreMembers(members) && '{' !in before
    ensures Scanned(before + ValueText(Object(members)) + rest) == Ok(ValueText(Object(members)))
  {
    var o, body := ValueText(Object(members)), "{" + MembersText(members);
    var text := before + o + rest;
    assert o == body + "}";
    assert text == before + body + "}" + rest;
    assert text[|before|] == '{';
    assert Find(text, '{') == |before|;
    ObjectBodyScan(0, members);
    EndIsHere(before, body, rest, START);
    assert text[|before|..|before| + |body| + 1] == o;
  }

  // ---- What surrounds the object ----

  lemma {:induction false} StripLeftConcat(a: string, b: string)
    ensures StripLeft(a + b) == if StripLeft(a) == "" then StripLeft(b) else StripLeft(a) + b
    decreases |a|
  {
    if a == "" {
      assert a + b == b;
    } else {
      assert (a + b)[1..] == a[1..] + b;
      StripLeftConcat(a[1..], b);
    }
  }

  lemma {:induction false} StripRightConcat(a: string, b: string)
    ensures StripRight(a + b) == if StripRight(b) == "" then StripRight(a) else a + StripRight(b)
    decreases |b|
  {
    if b == "" {
      assert a + b == a;
    } else {
      assert (a + b)[..|a + b| - 1] == a + b[..|b| - 1];
      StripRightConcat(a, b[..|b| - 1]);
    }
  }

  lemma {:induction false} StripLeftIsSuffix(s: string)
    ensures |StripLeft(s)| <= |s| && StripLeft(s) == s[|s| - |StripLeft(s)|..]
    ensures StripLeft(s) != "" ==> !IsSpace(StripLeft(s)[0])
    decreases |s|
  {
    if s != "" {
      StripLeftIsSuffix(s[1..]);
    }
  }

  lemma SolidEndsStay(s: string)
    requires s != ""
    ensures !IsSpace(s[0]) ==> StripLeft(s) == s
    ensures !IsSpace(s[|s| - 1]) ==> StripRight(s) == s
  {
  }

  /** Stripping the whole text strips its two ends, since an object has solid ones. */
  lemma StripAround(prefix: string, o: string, suffix: string)
    requires "{" <= o && EndsWithBrace(o)
    ensures Strip(prefix + o + suffix) == StripLeft(prefix) + o + StripRight(suffix)
  {
    hide IsSpace, StripLeft, StripRight;
    SolidCharacters();
    var left, tail, head := StripLeft(prefix), o + suffix, StripLeft(prefix) + o;
    assert prefix + o + suffix == prefix + tail && left + tail == head + suffix;
    assert tail[0] == '{' && head[|head| - 1] == '}';
    StripLeftConcat(prefix, tail);
    SolidEndsStay(tail);
    StripRightConcat(head, suffix);
    SolidEndsStay(head);
    assert head + "" == head && (left == "" ==> left + tail == tail);
  }

  lemma SolidCharacters()
    ensures !IsSpace('{') && !IsSpace('}') && !IsSpace('`')
    ensures !IsLineBreak('{') && !IsLineBreak('}') && !IsLineBreak('`')
  {
  }

  lemma ExtractOfUnfenced(raw: string)
    requires !(FENCE <= Strip(raw))
    ensures Extract(raw) == if "{" <= Strip(raw) && EndsWithBrace(Strip(raw))
            then Ok(Strip(raw)) else Scanned(Strip(raw))
  {
    hide Strip, Scanned;
  }

  /**
    Free text around an object. Without a '{' or a code fence in front, the
    object comes back unchanged exactly when something solid stands in front of
    it, or nothing follows it, or what follows does not end with '}'. In the one
    remaining case the code returns the whole text.
   */
  lemma ExtractIsTransparent(prefix: string, members: Members, suffix: string)
    requires AreMembers(members) && '{' !in prefix && !(FENCE <= StripLeft(prefix))
    ensures var o := ValueText(Object(members));
            Extract(prefix + o + suffix) == Ok(o) <==>
            StripLeft(prefix) != "" || StripRight(suffix) == "" || !EndsWithBrace(StripRight(suffix))
  {
    hide StripLeft, StripRight, Strip, Scanned, Extract, MembersText;
    var o := ValueText(Object(members));
    var left, right := StripLeft(prefix), StripRight(suffix);
    var text := left + o + right;
    StripAround(prefix, o, suffix);
    NoFenceBeforeBrace(left, o + right);
    assert text == left + (o + right);
    ExtractOfUnfenced(prefix + o + suffix);
    StripLeftIsSuffix(prefix);
    ScannedIsObject(left, members, right);
    if left == "" {
      assert EndsWithBrace(text) <==> right == "" || EndsWithBrace(right);
      assert |text| == |o| + |right|;
    } else {
      assert text[0] == left[0];
    }
  }

  lemma NoFenceBeforeBrace(left: string, rest: string)
    requires "{" <= rest && !(FENCE <= left)
    ensures !(FENCE <= left + rest)
  {
    if |left| < 3 {
      assert (left + rest)[|left|] == '{' && FENCE[|left|] == '`';
    }
  }

  // ---- Fenced objects ----

  ghost predicate OneLine(s: string) {
    forall i | 0 <= i < |s| :: !IsLineBreak(s[i])
  }

  /** The only line breaks are plain newlines. */
  ghost predicate OnlyNewlines(s: string) {
    forall i | 0 <= i < |s| && IsLineBreak(s[i]) :: s[i] == '\n'
  }

  lemma BreakIndexIs(s: string, i: nat, n: nat)
    requires i <= n < |s| && IsLineBreak(s[n]) && forall k | i <= k < n :: !IsLineBreak(s[k])
    ensures BreakIndex(s, i) == n
  {
  }

  lemma FirstLine(line: string, rest: string)
    requires OneLine(line)
    ensures SplitLines(line + "\n" + rest) == [line] + SplitLines(rest)
  {
    var s := line + "\n" + rest;
    assert s[|line|] == '\n' && forall k | 0 <= k < |line| :: s[k] == line[k];
    BreakIndexIs(s, 0, |line|);
    assert s[..|line|] == line && s[|line| + 1..] == rest;
  }

  /** A line break inside the text is found, and left behind, alike with and without what follows. */
  lemma BreakInside(o: string, after: string, n: nat)
    requires o != "" && n < |o| && n == BreakIndex(o, 0) && !IsLineBreak(o[|o| - 1])
    ensures var s, m := o + "\n" + after, AfterBreak(o, n);
            && BreakIndex(s, 0) == n && AfterBreak(s, n) == m && n < m < |o|
            && s[..n] == o[..n] && s[m..] == o[m..] + "\n" + after
  {
    var s, m := o + "\n" + after, AfterBreak(o, n);
    assert n < |o| - 1;
    SameBefore(o, after, n, m);
    BreakIndexIs(s, 0, n);
  }

  lemma SameBefore(o: string, after: string, n: nat, m: nat)
    requires n < |o| - 1 && m <= |o|
    ensures var s := o + "\n" + after;
            (forall k | 0 <= k <= n + 1 :: s[k] == o[k]) && s[..n] == o[..n] && s[m..] == o[m..] + "\n" + after
  {
  }

  /** Splitting "o, newline, fence": the fence is the last line, o the others. */
  lemma {:induction false} SplitBeforeFence(o: string)
    requires o != "" && !IsLineBreak(o[|o| - 1])
    ensures SplitLines(o + "\n" + FENCE) == SplitLines(o) + [FENCE]
    decreases |o|
  {
    var s := o + "\n" + FENCE;
    var n := BreakIndex(o, 0);
    if n == |o| {
      FirstLine(o, FENCE);
      assert SplitLines(FENCE) == [FENCE] by { assert OneLine(FENCE); }
    } else {
      BreakInside(o, FENCE, n);
      hide BreakIndex, AfterBreak, IsLineBreak;
      var m := AfterBreak(o, n);
      assert o[m..] != "" && o[m..][|o[m..]| - 1] == o[|o| - 1];
      SplitBeforeFence(o[m..]);
    }
  }

  lemma OnlyNewlinesAround(line: string, rest: string)
    requires OneLine(line)
    ensures OnlyNewlines(line + "\n" + rest) <==> OnlyNewlines(rest)
  {
    var s := line + "\n" + rest;
    assert forall i | 0 <= i < |rest| :: s[|line| + 1 + i] == rest[i];
    assert forall i | 0 <= i < |line| :: s[i] == line[i];
    assert s[|line|] == '\n';
    hide IsLineBreak;
    if OnlyNewlines(rest) {
      forall i | 0 <= i < |s| && IsLineBreak(s[i])
        ensures s[i] == '\n'
      {
        if i > |line| {
          assert s[i] == rest[i - |line| - 1];
        }
      }
    }
  }

  /** Splitting and joining changes a text exactly when it holds another line break than newline. */
  lemma {:induction false} JoinOfSplit(o: string)
    requires o != "" && !IsLineBreak(o[|o| - 1])
    ensures SplitLines(o) != [] && OnlyNewlines(JoinLines(SplitLines(o)))
    ensures OnlyNewlines(o) ==> JoinLines(SplitLines(o)) == o
    decreases |o|
  {
    var n := BreakIndex(o, 0);
    if n < |o| {
      AfterBreakIsInside(o, n);
      var m := AfterBreak(o, n);
      var line, rest := o[..n], o[m..];
      assert SplitLines(o) == [line] + SplitLines(rest);
      assert OnlyNewlines(o) ==> m == n + 1 && o == line + "\n" + rest;
      assert OneLine(line);
      hide *;
      JoinOfSplit(rest);
      JoinCons(line, SplitLines(rest));
      OnlyNewlinesAround(line, JoinLines(SplitLines(rest)));
      OnlyNewlinesAround(line, rest);
    }
  }

  lemma {:induction false} JoinKeepsEnds(o: string)
    requires o != "" && !IsLineBreak(o[|o| - 1])
    ensures var j := JoinLines(SplitLines(o));
            SplitLines(o) != [] && j != "" && j[|j| - 1] == o[|o| - 1] && (!IsLineBreak(o[0]) ==> j[0] == o[0])
    decreases |o|
  {
    hide IsLineBreak;
    var n := BreakIndex(o, 0);
    if n < |o| {
      AfterBreakIsInside(o, n);
      var line, rest := o[..n], o[AfterBreak(o, n)..];
      assert SplitLines(o) == [line] + SplitLines(rest);
      hide SplitLines, JoinLines;
      JoinKeepsEnds(rest);
      JoinCons(line, SplitLines(rest));
    }
  }

  lemma JoinCons(line: string, lines: seq<string>)
    requires lines != []
    ensures JoinLines([line] + lines) == line + "\n" + JoinLines(lines)
  {
    assert ([line] + lines)[1..] == lines;
  }

  /** An object inside a code fence, with any language tag on the opening line. */
  lemma FencedObject(tag: string, members: Members)
    requires AreMembers(members) && OneLine(tag)
    ensures var o := ValueText(Object(members));
            Extract(FENCE + tag + "\n" + o + "\n" + FENCE) == Ok(o) <==> OnlyNewlines(o)
  {
    var o := ValueText(Object(members));
    var raw := FENCE + tag + "\n" + o + "\n" + FENCE;
    hide MembersText, SplitLines, JoinLines, StripLeft, StripRight, IsSpace;
    var joined := JoinLines(SplitLines(o));
    FencedLines(tag, o);
    SolidCharacters();
    SolidEndsStay(raw);
    JoinOfSplit(o);
    JoinKeepsEnds(o);
    SolidEndsStay(joined);
  }

  predicate IsIndent(s: string) {
    forall i | 0 <= i < |s| :: s[i] == ' ' || s[i] == '\t'
  }

  lemma {:induction false} IndentStrips(s: string)
    requires IsIndent(s)
    ensures StripLeft(s) == StripRight(s) == ""
    decreases |s|
  {
    if s != "" {
      IndentStrips(s[1..]);
      IndentStrips(s[..|s| - 1]);
    }
  }

  lemma IndentedOnlyNewlines(a: string, o: string, b: string)
    requires IsIndent(a) && IsIndent(b) && OnlyNewlines(o)
    ensures OnlyNewlines(a + o + b)
  {
    var s := a + o + b;
    forall i | 0 <= i < |s|
      ensures IsLineBreak(s[i]) ==> s[i] == '\n'
    {
      assert s[i] == if i < |a| then a[i] else if i < |a| + |o| then o[i - |a|] else b[i - |a| - |o|];
    }
  }

  /** Blanks around the object inside the fence do no harm. */
  lemma IndentedFence(tag: string, a: string, members: Members, b: string)
    requires AreMembers(members) && OneLine(tag) && IsIndent(a) && IsIndent(b)
    requires OnlyNewlines(ValueText(Object(members)))
    ensures var o := ValueText(Object(members));
            Extract(FENCE + tag + "\n" + (a + o + b) + "\n" + FENCE) == Ok(o)
  {
    var o := ValueText(Object(members));
    var body := a + o + b;
    var raw := FENCE + tag + "\n" + body + "\n" + FENCE;
    assert "{" <= o && EndsWithBrace(o);
    hide *;
    IndentedOnlyNewlines(a, o, b);
    SolidEnds(a, o, b, tag);
    FencedLines(tag, body);
    JoinOfSplit(body);
    IndentStrips(a);
    IndentStrips(b);
    StripAround(a, o, b);
    assert "" + o + "" == o;
    FenceUnfolds(raw, o);
  }

  lemma SolidEnds(a: string, o: string, b: string, tag: string)
    requires EndsWithBrace(o) && IsIndent(b)
    ensures var body := a + o + b; body != "" && !IsLineBreak(body[|body| - 1])
    ensures var raw := FENCE + tag + "\n" + (a + o + b) + "\n" + FENCE; Strip(raw) == raw && FENCE <= raw
  {
    var body := a + o + b;
    var raw := FENCE + tag + "\n" + body + "\n" + FENCE;
    assert body[|body| - 1] == if b == "" then o[|o| - 1] else b[|b| - 1];
    SolidCharacters();
    assert raw[0] == '`' && raw[|raw| - 1] == '`';
    hide StripLeft, StripRight, IsSpace;
    SolidEndsStay(raw);
  }

  lemma FenceUnfolds(raw: string, o: string)
    requires Strip(raw) == raw && FENCE <= raw && Strip(JoinLines(DropFences(SplitLines(raw)))) == o
    requires "{" <= o && EndsWithBrace(o)
    ensures Extract(raw) == Ok(o)
  {
    hide Strip, JoinLines, DropFences, SplitLines;
  }

  lemma FencedLines(tag: string, o: string)
    requires OneLine(tag) && o != "" && !IsLineBreak(o[|o| - 1])
    ensures DropFences(SplitLines(FENCE + tag + "\n" + o + "\n" + FENCE)) == SplitLines(o)
  {
    hide *;
    var opening, rest := FENCE + tag, o + "\n" + FENCE;
    OpeningIsOneLine(tag);
    assert FENCE + tag + "\n" + o + "\n" + FENCE == opening + "\n" + rest;
    FirstLine(opening, rest);
    SplitBeforeFence(o);
    DropBoth(opening, SplitLines(o));
  }

  lemma OpeningIsOneLine(tag: string)
    requires OneLine(tag)
    ensures OneLine(FENCE + tag) && FENCE <= FENCE + tag
  {
    hide IsLineBreak;
    SolidCharacters();
    var opening := FENCE + tag;
    forall i | 0 <= i < |opening|
      ensures !IsLineBreak(opening[i])
    {
      assert i < 3 ==> opening[i] == '`';
      assert i >= 3 ==> opening[i] == tag[i - 3];
    }
  }

  lemma DropBoth(opening: string, lines: seq<string>)
    requires FENCE <= opening
    ensures DropFences([opening] + (lines + [FENCE])) == lines
  {
    assert ([opening] + (lines + [FENCE]))[1..] == lines + [FENCE];
    assert (lines + [FENCE])[..|lines|] == lines;
  }

  lemma AfterBreakIsInside(o: string, n: nat)
    requires n < |o| && IsLineBreak(o[n]) && !IsLineBreak(o[|o| - 1])
    ensures AfterBreak(o, n) < |o|
  {
  }

  /** The two character classes, code by code. */
  lemma SpacesAndBreaks(c: char)
    ensures IsSpace(c) <==> c as int in {9, 10, 11, 12, 13, 28, 29, 30, 31, 32, 0x85, 0xa0, 0x1680, 0x2000, 0x2001,
      0x2002, 0x2003, 0x2004, 0x2005, 0x2006, 0x2007, 0x2008, 0x2009, 0x200a, 0x2028, 0x2029, 0x202f, 0x205f, 0x3000}
    ensures IsLineBreak(c) <==> c as int in {10, 11, 12, 13, 28, 29, 30, 0x85, 0x2028, 0x2029}
    ensures IsLineBreak(c) ==> IsSpace(c)
  {
  }

  /** Outside an escape: a backslash protects what follows it; in a string only a quote counts; else only braces. */
  lemma ScannerLaws(depth: int, inString: bool, c: char)
    ensures var s := Running(depth, inString, false);
            && ScanStep(ScanStep(s, '\\'), c) == s
            && ScanStep(s, '"') == Running(depth, !inString, false)
            && (inString && c != '"' && c != '\\' ==> ScanStep(s, c) == s)
            && (!inString && c !in {'"', '\\', '{', '}'} ==> ScanStep(s, c) == s)
            && (!inString ==> ScanStep(s, '{') == Running(depth + 1, false, false))
            && (!inString && depth > 1 ==> ScanStep(s, '}') == Running(depth - 1, false, false))
            && (!inString && depth == 1 ==> ScanStep(s, '}') == Found)
  {
  }

  // ---- Texts without a whole object ----

  lemma {:induction false} StripLeftKeeps(s: string, c: char)
    requires !IsSpace(c)
    ensures c in StripLeft(s) <==> c in s
    decreases |s|
  {
    if s != "" && IsSpace(s[0]) {
      assert s == [s[0]] + s[1..];
      StripLeftKeeps(s[1..], c);
    }
  }

  lemma {:induction false} StripRightKeeps(s: string, c: char)
    requires !IsSpace(c)
    ensures c in StripRight(s) <==> c in s
    decreases |s|
  {
    if s != "" && IsSpace(s[|s| - 1]) {
      assert s == s[..|s| - 1] + [s[|s| - 1]];
      StripRightKeeps(s[..|s| - 1], c);
    }
  }

  lemma StripKeeps(s: string, c: char)
    requires !IsSpace(c)
    ensures c in Strip(s) <==> c in s
  {
    hide StripLeft, StripRight, IsSpace;
    StripLeftKeeps(s, c);
    StripRightKeeps(StripLeft(s), c);
  }

  lemma {:induction false} LinesHoldItsCharacters(s: string)
    ensures forall line, c | line in SplitLines(s) && c in line :: c in s
    decreases |s|
  {
    if s != "" {
      var i := BreakIndex(s, 0);
      if i < |s| {
        LinesHoldItsCharacters(s[AfterBreak(s, i)..]);
      }
    }
  }

  lemma {:induction false} JoinHoldsNoMore(lines: seq<string>, c: char)
    requires c != '\n' && forall line | line in lines :: c !in line
    ensures c !in JoinLines(lines)
  {
    if |lines| > 1 {
      JoinHoldsNoMore(lines[1..], c);
    }
  }

  lemma UnfencedHoldsNoMore(text: string, c: char)
    requires c !in text && !IsSpace(c)
    ensures c !in Unfenced(text)
  {
    hide IsSpace, SplitLines, JoinLines, Strip;
    assert IsSpace('\n') by { NewlineIsSpace(); }
    LinesHoldItsCharacters(text);
    JoinHoldsNoMore(DropFences(SplitLines(text)), c);
    StripKeeps(JoinLines(DropFences(SplitLines(text))), c);
  }

  lemma NewlineIsSpace()
    ensures IsSpace('\n')
  {
  }

  lemma NothingToScan(text: string)
    requires '{' !in text
    ensures !("{" <= text) && Scanned(text) == NoObject
  {
    assert text != "" ==> text[0] in text;
  }

  /** "No object" is the answer for a text without an opening brace, and unless a fence hides it only for that. */
  lemma NoObjectExactly(raw: string)
    ensures '{' !in raw ==> Extract(raw) == NoObject
    ensures !(FENCE <= Strip(raw)) ==> (Extract(raw) == NoObject <==> '{' !in raw)
  {
    hide Strip, Unfenced, IsSpace;
    SolidCharacters();
    StripKeeps(raw, '{');
    if '{' !in Strip(raw) {
      UnfencedHoldsNoMore(Strip(raw), '{');
      NothingToScan(Unfenced(Strip(raw)));
    }
    if !(FENCE <= Strip(raw)) {
      ExtractOfUnfenced(raw);
    }
  }

  lemma {:induction false} EndIsABrace(text: string, i: nat, s: Scan)
    requires i <= |text| && FirstEnd(text, i, s).Some? && s.Running?
    ensures text[FirstEnd(text, i, s).value] == '}'
    decreases |text| - i
  {
    if !ScanStep(s, text[i]).Found? {
      EndIsABrace(text, i + 1, ScanStep(s, text[i]));
    }
  }

  /** What is cut out of a text runs from its first opening brace to some closing brace. */
  lemma CutOutIsBraced(text: string)
    requires Scanned(text).Ok?
    ensures exists start, end | 0 <= start <= end < |text| ::
              Scanned(text).text == text[start..end + 1] && '{' !in text[..start]
              && text[start] == '{' && text[end] == '}'
  {
    var start := Find(text, '{');
    EndIsABrace(text, start, START);
    var end := FirstEnd(text, start, START).value;
    assert text[start..end + 1] == Scanned(text).text;
  }

  /** A text cut off before the end of the scan has no end. */
  lemma {:induction false} NoEndBeforeTheEnd(text: string, m: nat, i: nat, s: Scan)
    requires i <= m <= |text| && FirstEnd(text, i, s).Some? && m <= FirstEnd(text, i, s).value
    ensures FirstEnd(text[..m], i, s) == None
    decreases |text| - i
  {
    if i < m {
      assert text[..m][i] == text[i];
      NoEndBeforeTheEnd(text, m, i + 1, ScanStep(s, text[i]));
    }
  }

  lemma CutOffScan(left: string, members: Members, m: nat)
    requires AreMembers(members) && '{' !in left && 0 < m < |ValueText(Object(members))|
    ensures Scanned(left + ValueText(Object(members))[..m]) == Incomplete
  {
    var o, body := ValueText(Object(members)), "{" + MembersText(members);
    var text, cut := left + o, left + o[..m];
    assert o == body + "}";
    assert text == left + body + "}" + "";
    assert cut == text[..|left| + m] && cut[|left|] == '{';
    assert Find(cut, '{') == |left|;
    ObjectBodyScan(0, members);
    EndIsHere(left, body, "", START);
    NoEndBeforeTheEnd(text, |left| + m, |left|, START);
  }

  lemma {:induction false} StripRightIsPrefix(s: string)
    requires s != "" && !IsSpace(s[0])
    ensures 0 < |StripRight(s)| <= |s| && StripRight(s) == s[..|StripRight(s)|]
    decreases |s|
  {
    if IsSpace(s[|s| - 1]) {
      StripRightIsPrefix(s[..|s| - 1]);
    }
  }

  lemma {:induction false} SolidStripLeft(prefix: string, tail: string)
    requires tail != "" && !IsSpace(tail[0])
    ensures StripLeft(prefix + tail) == StripLeft(prefix) + tail
  {
    hide StripLeft, IsSpace;
    StripLeftConcat(prefix, tail);
    SolidEndsStay(tail);
    assert StripLeft(prefix) == "" ==> StripLeft(prefix) + tail == tail;
  }

  /**
    An answer that breaks off inside its object is reported as incomplete, unless
    nothing stands in front and it happens to break off at a closing brace: then
    the code takes the torn text for an object.
   */
  lemma CutOffObject(prefix: string, members: Members, n: nat)
    requires AreMembers(members) && '{' !in prefix && !(FENCE <= StripLeft(prefix))
    requires 0 < n < |ValueText(Object(members))|
    ensures var torn := StripRight(ValueText(Object(members))[..n]);
            Extract(prefix + ValueText(Object(members))[..n]) ==
              if StripLeft(prefix) == "" && EndsWithBrace(torn) then Ok(torn) else Incomplete
  {
    hide StripLeft, StripRight, Strip, Scanned, Extract, MembersText, IsSpace;
    var cut := ValueText(Object(members))[..n];
    var left, torn := StripLeft(prefix), StripRight(cut);
    SolidCharacters();
    assert cut[0] == '{';
    StripRightIsPrefix(cut);
    StripOfCut(prefix, cut);
    StripLeftIsSuffix(prefix);
    NoFenceBeforeBrace(left, torn);
    ExtractOfUnfenced(prefix + cut);
    CutOffScan(left, members, |torn|);
    assert torn == ValueText(Object(members))[..|torn|];
    if left == "" {
      assert left + torn == torn;
    } else {
      assert (left + torn)[0] == left[0];
    }
  }

  lemma StripOfCut(prefix: string, cut: string)
    requires cut != "" && !IsSpace(cut[0])
    ensures Strip(prefix + cut) == StripLeft(prefix) + StripRight(cut)
  {
    hide StripLeft, StripRight, IsSpace;
    SolidStripLeft(prefix, cut);
    StripRightConcat(StripLeft(prefix), cut);
    StripRightIsPrefix(cut);
  }

  /** A fence that is never closed loses only its opening line. */
  lemma UnclosedFence(tag: string, members: Members)
    requires AreMembers(members) && OneLine(tag)
    requires var lines := SplitLines(ValueText(Object(members))); lines != [] && !(FENCE <= lines[|lines| - 1])
    ensures var o := ValueText(Object(members));
            Extract(FENCE + tag + "\n" + o) == Ok(o) <==> OnlyNewlines(o)
  {
    var o := ValueText(Object(members));
    var raw := FENCE + tag + "\n" + o;
    hide MembersText, SplitLines, JoinLines, StripLeft, StripRight, IsSpace;
    var joined := JoinLines(SplitLines(o));
    OpeningIsOneLine(tag);
    assert raw == (FENCE + tag) + "\n" + o;
    FirstLine(FENCE + tag, o);
    DropFirst(FENCE + tag, SplitLines(o));
    SolidCharacters();
    SolidEndsStay(raw);
    JoinOfSplit(o);
    JoinKeepsEnds(o);
    SolidEndsStay(joined);
  }

  lemma DropFirst(opening: string, lines: seq<string>)
    requires FENCE <= opening && lines != [] && !(FENCE <= lines[|lines| - 1])
    ensures DropFences([opening] + lines) == lines
  {
    assert ([opening] + lines)[1..] == lines;
  }
}

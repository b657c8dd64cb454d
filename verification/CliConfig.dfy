/**
  The CLI's configuration file: eight known keys written as `key: value` lines,
  and a line reader that trims and unquotes. Strings are Unicode; the line limit
  counts the bytes of their UTF-8 form.
 */
module CliConfig {
  import opened Strings

  type Values = map<string, string>

  datatype ReadResult = Ok(values: Values) | BadLine(line: string) | TooLong

  const KEYS: seq<string> :=
    ["server_url", "username", "password", "token", "format", "timeout", "wait_interval", "wait_timeout"]

  const MAX_TOKEN := 65536

  // ---- Trimming ----

  predicate IsSpace(c: char) {
    || '\t' <= c <= '\r' || c == ' ' || c == '\U{85}' || c == '\U{A0}' || c == '\U{1680}'
        || '\U{2000}' <= c <= '\U{200A}'
    || c == '\U{2028}' || c == '\U{2029}' || c == '\U{202F}' || c == '\U{205F}' || c == '\U{3000}'
  }

  predicate IsQuote(c: char) {
    c == '"' || c == '\''
  }

  function TrimSpace(s: string): (t: string)
    ensures forall c | c in t :: c in s
  {
    Trim(s, c => IsSpace(c))
  }

  function TrimQuotes(s: string): (t: string)
    ensures forall c | c in t :: c in s
  {
    Trim(s, c => IsQuote(c))
  }

  // ---- Writing ----

  function Escaped(s: string): string {
    if s == "" then "" else (if s[0] == '"' then "\\\"" else [s[0]]) + Escaped(s[1..])
  }

  predicate NeedsQuotes(value: string) {
    value != "" && ('\n' in value || '#' in value || value[0] == ' ' || value[|value| - 1] == ' ')
  }

  function YamlScalar(value: string): string {
    if value == "" then "\"\"" else if NeedsQuotes(value) then "\"" + Escaped(value) + "\"" else value
  }

  function ConfigLine(key: string, value: string): string {
    key + ": " + YamlScalar(value)
  }

  function ConfigText(values: Values, keys: seq<string>): string {
    if keys == [] then ""
    else (if keys[0] in values then ConfigLine(keys[0], values[keys[0]]) + "\n" else "") + ConfigText(values, keys[1..])
  }

  lemma NextKey(values: Values, keys: seq<string>, i: nat)
    requires i < |keys|
    ensures ConfigText(values, keys[i..]) ==
              (if keys[i] in values then ConfigLine(keys[i], values[keys[i]]) + "\n" else "")
              + ConfigText(values, keys[i + 1..])
  {
    hide ConfigLine;
    assert keys[i..][1..] == keys[i + 1..];
  }

  method WriteLines(values: Values, keys: seq<string>) returns (text: string)
    ensures text == ConfigText(values, keys)
  {
    hide ConfigLine;
    text := "";
    assert keys[0..] == keys;
    for i := 0 to |keys|
      invariant ConfigText(values, keys) == text + ConfigText(values, keys[i..])
    {
      NextKey(values, keys, i);
      var key := keys[i];
      if key in values {
        text := text + ConfigLine(key, values[key]) + "\n";
      }
    }
    assert keys[|keys|..] == [];
  }

  method WriteConfig(values: Values) returns (text: string)
    ensures text == ConfigText(values, KEYS)
  {
    text := WriteLines(values, KEYS);
  }

  // ---- Reading ----

  function IndexOf(s: string, c: char): (i: nat)
    ensures i <= |s| && c !in s[..i] && (i < |s| ==> s[i] == c)
  {
    if s == "" || s[0] == c then 0
    else
      assert s == [s[0]] + s[1..];
      var i := 1 + IndexOf(s[1..], c);
      assert s[..i] == [s[0]] + s[1..][..i - 1];
      i
  }

  function Lines(s: string): seq<string>
    decreases |s|
  {
    if s == "" then []
    else
      var i := IndexOf(s, '\n');
      [s[..i]] + if i < |s| then Lines(s[i + 1..]) else []
  }

  function Utf8Length(s: string): nat {
    if s == "" then 0
    else
      (if s[0] < '\U{80}' then 1 else if s[0] < '\U{800}' then 2 else if s[0] < '\U{10000}' then 3 else 4)
      + Utf8Length(s[1..])
  }

  /** The UTF-8 form of one character (section 3 of RFC 3629). */
  function Utf8(n: nat): (bytes: seq<nat>)
    requires n < 0x11_0000
  {
    if n < 0x80 then [n]
    else if n < 0x800 then [0xc0 + n / 0x40, 0x80 + n % 0x40]
    else if n < 0x1_0000 then [0xe0 + n / 0x1000, 0x80 + n / 0x40 % 0x40, 0x80 + n % 0x40]
    else [0xf0 + n / 0x4_0000, 0x80 + n / 0x1000 % 0x40, 0x80 + n / 0x40 % 0x40, 0x80 + n % 0x40]
  }

  /** The first byte tells how many bytes there are; they give the character back, and fewer would not hold it. */
  lemma Utf8ReadsBack(n: nat)
    requires n < 0x11_0000
    ensures var b := Utf8(n);
            match |b|
            case 1 => b[0] < 0x80 && n == b[0]
            case 2 => 0xc2 <= b[0] < 0xe0 && n == (b[0] - 0xc0) * 0x40 + (b[1] - 0x80) && n >= 0x80
            case 3 => 0xe0 <= b[0] < 0xf0 && n >= 0x800
                      && n == (b[0] - 0xe0) * 0x1000 + (b[1] - 0x80) * 0x40 + (b[2] - 0x80)
            case _ => |b| == 4 && 0xf0 <= b[0] < 0xf5 && n >= 0x1_0000
                      && n == (b[0] - 0xf0) * 0x4_0000 + (b[1] - 0x80) * 0x1000 + (b[2] - 0x80) * 0x40 + (b[3] - 0x80)
    ensures forall i | 0 < i < |Utf8(n)| :: 0x80 <= Utf8(n)[i] < 0xc0
  {
    var a, b := n / 0x40, n / 0x1000;
    assert n == a * 0x40 + n % 0x40 && a / 0x40 == b && a == b * 0x40 + a % 0x40;
    assert b / 0x40 == n / 0x4_0000 && b == n / 0x4_0000 * 0x40 + b % 0x40;
  }

  function Utf8Text(s: string): seq<nat> {
    if s == "" then [] else Utf8(s[0] as int) + Utf8Text(s[1..])
  }

  /** The length of a line is that of its UTF-8 form. */
  lemma {:induction false} Utf8LengthIs(s: string)
    ensures Utf8Length(s) == |Utf8Text(s)|
  {
    if s != "" {
      Utf8LengthIs(s[1..]);
    }
  }

  /** One line of the file added to what was read before it. */
  function ReadLine(raw: string, values: Values): ReadResult {
    var line := TrimSpace(raw);
    if line == "" || line[0] == '#' then Ok(values)
    else
      var i := IndexOf(line, ':');
      if i == |line| then BadLine(line)
      else
        var key, value := TrimSpace(line[..i]), TrimQuotes(TrimSpace(line[i + 1..]));
        Ok(if key != "" then values[key := value] else values)
  }

  function ReadLines(lines: seq<string>, values: Values): ReadResult {
    if lines == [] then Ok(values)
    else if Utf8Length(lines[0]) >= MAX_TOKEN then TooLong
    else
      var r := ReadLine(lines[0], values);
      if r.Ok? then ReadLines(lines[1..], r.values) else r
  }

  /** The carriage return a line scanner drops is a space to the trimming that follows. */
  method ReadConfig(text: string) returns (r: ReadResult)
    ensures r == ReadLines(Lines(text), map[])
  {
    var values: Values := map[];
    var lines := Lines(text);
    for n := 0 to |lines|
      invariant ReadLines(lines, map[]) == ReadLines(lines[n..], values)
    {
      assert lines[n..][1..] == lines[n + 1..] && lines[n..][0] == lines[n];
      if Utf8Length(lines[n]) >= MAX_TOKEN {
        return TooLong;
      }
      var line := TrimSpace(lines[n]);
      if line != "" && line[0] != '#' {
        var idx := IndexOf(line, ':');
        if idx == |line| {
          return BadLine(line);
        }
        var key := TrimSpace(line[..idx]);
        var value := TrimSpace(line[idx + 1..]);
        value := TrimQuotes(value);
        if key != "" {
          values := values[key := value];
        }
      }
    }
    r := Ok(values);
  }

  // ---- Reading one written line ----

  predicate IsKey(key: string) {
    key != "" && forall c | c in key :: 'a' <= c <= 'z' || c == '_'
  }

  lemma KeysAreKeys()
    ensures forall k | k in KEYS :: IsKey(k)
  {
  }

  function ReadBack(value: string): string {
    TrimQuotes(TrimSpace(YamlScalar(value)))
  }

  lemma {:induction false} IndexAfter(key: string, c: char, rest: string)
    requires c !in key
    ensures IndexOf(key + [c] + rest, c) == |key|
  {
    var s := key + [c] + rest;
    if key != "" {
      assert s[0] == key[0] && key[0] in key;
      assert s[1..] == key[1..] + [c] + rest;
      IndexAfter(key[1..], c, rest);
    }
  }

  lemma BlankScalar(key: string, scalar: string)
    requires IsKey(key) && All(scalar, c => IsSpace(c))
    ensures TrimSpace(key + ": " + scalar) == key + ":"
  {
    var cut: char -> bool := c => IsSpace(c);
    hide Trim;
    assert key[0] in key && !IsSpace(key[0]);
    TrimBetween("", key + ":", " " + scalar, cut);
    assert "" + (key + ":") + (" " + scalar) == key + ": " + scalar;
  }

  lemma SolidScalar(key: string, a: string, t: string, b: string)
    requires IsKey(key) && t != "" && Tight(t, c => IsSpace(c)) && All(a, c => IsSpace(c)) && All(b, c => IsSpace(c))
    ensures TrimSpace(key + ": " + (a + t + b)) == key + ": " + a + t
    ensures TrimSpace(" " + a + t) == t
  {
    var cut: char -> bool := c => IsSpace(c);
    hide Trim;
    var core := key + ": " + a + t;
    assert key[0] in key && !IsSpace(key[0]);
    assert core[0] == key[0] && core[|core| - 1] == t[|t| - 1];
    TrimBetween("", core, b, cut);
    assert "" + core + b == key + ": " + (a + t + b);
    TrimBetween(" " + a, t, "", cut);
    assert (" " + a) + t + "" == " " + a + t;
  }

  /** Trimming a line keeps everything up to the value, and the value's own trimmed part. */
  lemma TrimmedLine(key: string, scalar: string)
    requires IsKey(key)
    ensures var line := TrimSpace(key + ": " + scalar);
            && |line| > |key| && line[..|key| + 1] == key + ":" && TrimSpace(line[|key| + 1..]) == TrimSpace(scalar)
  {
    var cut: char -> bool := c => IsSpace(c);
    var a, b := TrimSplits(scalar, cut);
    var t := Trim(scalar, cut);
    if t == "" {
      BlankScalar(key, scalar);
      assert (key + ":")[|key| + 1..] == "";
    } else {
      hide Trim, IsSpace;
      SolidScalar(key, a, t, b);
      assert (key + ": " + a + t)[|key| + 1..] == " " + a + t;
    }
  }

  lemma WrittenLineReads(key: string, value: string, values: Values)
    requires IsKey(key)
    ensures ReadLine(ConfigLine(key, value), values) == Ok(values[key := ReadBack(value)])
  {
    var scalar := YamlScalar(value);
    var line := TrimSpace(key + ": " + scalar);
    TrimmedLine(key, scalar);
    hide YamlScalar, TrimSpace;
    assert line == key + ":" + line[|key| + 1..];
    assert line[0] == key[0] && key[0] in key;
    IndexAfter(key, ':', line[|key| + 1..]);
    assert line[..|key|] == key;
    KeyTrims(key);
  }

  lemma KeyTrims(key: string)
    requires IsKey(key)
    ensures TrimSpace(key) == key
  {
    var cut: char -> bool := c => IsSpace(c);
    assert key[0] in key && key[|key| - 1] in key;
    TightTrims(key, cut);
  }

  lemma LineThenRest(line: string, rest: string)
    requires '\n' !in line
    ensures Lines(line + "\n" + rest) == [line] + Lines(rest)
  {
    var s := line + "\n" + rest;
    IndexAfter(line, '\n', rest);
    assert s[..|line|] == line && s[|line| + 1..] == rest;
  }

  // ---- Which values survive ----

  /**
    A value survives when it has no line break and its ends are neither quotes
    nor, unless they make the writer quote it, blanks; a quoted one must hold no
    double quote.
   */
  predicate Faithful(value: string) {
    && '\n' !in value
    && (value != "" ==>
          && !IsQuote(value[0]) && !IsQuote(value[|value| - 1])
          && (if NeedsQuotes(value) then '"' !in value else !IsSpace(value[0]) && !IsSpace(value[|value| - 1])))
  }

  lemma {:induction false} EscapedGrows(s: string)
    ensures |Escaped(s)| >= |s| && ('"' in s ==> |Escaped(s)| > |s|) && ('"' !in s ==> Escaped(s) == s)
    ensures s != "" && s[0] != '"' ==> Escaped(s)[0] == s[0]
    ensures s != "" ==> Escaped(s) != "" && Escaped(s)[|Escaped(s)| - 1] == s[|s| - 1]
  {
    if s != "" {
      EscapedGrows(s[1..]);
      assert s == [s[0]] + s[1..];
    }
  }

  lemma QuotedReadsBack(value: string)
    requires NeedsQuotes(value)
    ensures ReadBack(value) == TrimQuotes(Escaped(value))
  {
    var space: char -> bool := c => IsSpace(c);
    var quote: char -> bool := c => IsQuote(c);
    var scalar := "\"" + Escaped(value) + "\"";
    TightTrims(scalar, space);
    var a, b := TrimSplits(Escaped(value), quote);
    var t := Trim(Escaped(value), quote);
    assert scalar == ("\"" + a) + t + (b + "\"");
    TrimBetween("\"" + a, t, b + "\"", quote);
  }

  /** A value without line breaks is read back as written exactly when it is faithful. */
  lemma FaithfulReadsBack(value: string)
    requires '\n' !in value
    ensures ReadBack(value) == value <==> Faithful(value)
  {
    var space: char -> bool := c => IsSpace(c);
    var quote: char -> bool := c => IsQuote(c);
    if value == "" {
      assert YamlScalar(value) == "\"\"";
      TightTrims("\"\"", space);
      TrimBetween("\"", "", "\"", quote);
      assert "\"" + "" + "\"" == "\"\"";
    } else if NeedsQuotes(value) {
      QuotedReadsBack(value);
      EscapedGrows(value);
      TightTrims(Escaped(value), quote);
      TightTrims(value, quote);
      TrimIsTight(Escaped(value), quote);
      TrimShrinks(Escaped(value), quote);
    } else {
      PlainReadsBack(value);
    }
  }

  lemma TrimIsTight(s: string, cut: char -> bool)
    ensures Tight(Trim(s, cut), cut)
  {
    var a, b := TrimSplits(s, cut);
  }

  lemma {:induction false} TrimShrinks(s: string, cut: char -> bool)
    ensures |Trim(s, cut)| <= |s|
  {
    var a, b := TrimSplits(s, cut);
  }

  lemma PlainReadsBack(value: string)
    requires value != "" && !NeedsQuotes(value) && '\n' !in value
    ensures ReadBack(value) == value <==> Faithful(value)
  {
    var space: char -> bool := c => IsSpace(c);
    var quote: char -> bool := c => IsQuote(c);
    TightTrims(value, space);
    TightTrims(value, quote);
    TrimShrinks(value, space);
    TrimShrinks(Trim(value, space), quote);
    TightTrims(Trim(value, space), quote);
    var a, b := TrimSplits(value, space);
    if ReadBack(value) == value {
      assert |Trim(value, space)| == |value|;
      assert a == "" && b == "";
    }
  }

  // ---- The whole file ----

  predicate SomeLineTooLong(values: Values, keys: seq<string>) {
    exists k | k in keys :: k in values && Utf8Length(ConfigLine(k, values[k])) >= MAX_TOKEN
  }

  lemma {:induction false} EscapedHasNoBreak(s: string)
    requires '\n' !in s
    ensures '\n' !in Escaped(s)
  {
    if s != "" {
      EscapedHasNoBreak(s[1..]);
    }
  }

  lemma LineHasNoBreak(key: string, value: string)
    requires IsKey(key) && '\n' !in value
    ensures '\n' !in ConfigLine(key, value)
  {
    EscapedHasNoBreak(value);
  }

  ghost predicate Adds(before: Values, after: Values, values: Values, keys: seq<string>) {
    && (forall k :: k in after <==> k in before || (k in keys && k in values))
    && (forall k | k in after :: after[k] == if k in keys && k in values then ReadBack(values[k]) else before[k])
  }

  lemma TooLongFirst(values: Values, keys: seq<string>)
    requires keys != []
    ensures SomeLineTooLong(values, keys) <==>
              (keys[0] in values && Utf8Length(ConfigLine(keys[0], values[keys[0]])) >= MAX_TOKEN)
                  || SomeLineTooLong(values, keys[1..])
  {
    hide Utf8Length, ConfigLine;
    assert keys == [keys[0]] + keys[1..];
  }

  lemma AddsFirst(before: Values, after: Values, values: Values, keys: seq<string>)
    requires keys != []
    requires var next := if keys[0] in values then before[keys[0] := ReadBack(values[keys[0]])] else before;
             Adds(next, after, values, keys[1..])
    ensures Adds(before, after, values, keys)
  {
    hide ReadBack;
    assert keys == [keys[0]] + keys[1..];
  }

  lemma ReadFirst(line: string, more: seq<string>, before: Values)
    ensures ReadLines([line] + more, before) ==
              if Utf8Length(line) >= MAX_TOKEN then TooLong
              else if ReadLine(line, before).Ok? then ReadLines(more, ReadLine(line, before).values)
              else ReadLine(line, before)
  {
    hide Utf8Length, ReadLine;
    assert ([line] + more)[1..] == more;
  }

  lemma TextFirst(values: Values, keys: seq<string>)
    requires keys != [] && IsKey(keys[0]) && (keys[0] in values ==> '\n' !in values[keys[0]])
    ensures Lines(ConfigText(values, keys)) ==
              (if keys[0] in values then [ConfigLine(keys[0], values[keys[0]])] else [])
              + Lines(ConfigText(values, keys[1..]))
  {
    hide ConfigLine, Lines, IsKey;
    var rest := ConfigText(values, keys[1..]);
    if keys[0] in values {
      var line := ConfigLine(keys[0], values[keys[0]]);
      LineHasNoBreak(keys[0], values[keys[0]]);
      LineThenRest(line, rest);
      assert line + "\n" + rest == ConfigText(values, keys);
    } else {
      assert "" + rest == rest && [] + Lines(rest) == Lines(rest);
    }
  }

  /** The scanner's limit is 64 KiB of UTF-8, without the newline. */
  lemma TooLongMeans(values: Values, keys: seq<string>)
    ensures SomeLineTooLong(values, keys) <==>
              exists k | k in keys :: k in values && |Utf8Text(ConfigLine(k, values[k]))| >= 64 * 1024
  {
    hide Utf8Length, Utf8Text, ConfigLine;
    forall k | k in values
      ensures Utf8Length(ConfigLine(k, values[k])) == |Utf8Text(ConfigLine(k, values[k]))|
    {
      Utf8LengthIs(ConfigLine(k, values[k]));
    }
  }

  /** Reading what was written, when no value breaks its line. */
  lemma {:induction false} ReadWritten(values: Values, keys: seq<string>, before: Values)
    requires forall k | k in keys :: IsKey(k)
    requires forall k | k in keys && k in values :: '\n' !in values[k]
    ensures var r := ReadLines(Lines(ConfigText(values, keys)), before);
            if SomeLineTooLong(values, keys) then r == TooLong else r.Ok? && Adds(before, r.values, values, keys)
  {
    if keys == [] {
      assert Lines("") == [];
    } else {
      hide ReadBack, Utf8Length, ReadLine, Lines, IsKey, SomeLineTooLong, ConfigLine, ReadLines, ConfigText, Adds;
      var k, rest := keys[0], keys[1..];
      var more := Lines(ConfigText(values, rest));
      var next := if k in values then before[k := ReadBack(values[k])] else before;
      TooLongFirst(values, keys);
      TextFirst(values, keys);
      ReadWritten(values, rest, next);
      if k in values {
        WrittenLineReads(k, values[k], before);
        ReadFirst(ConfigLine(k, values[k]), more, before);
      } else {
        assert [] + more == more;
      }
      var r := ReadLines(more, next);
      if r.Ok? && !SomeLineTooLong(values, keys) {
        AddsFirst(before, r.values, values, keys);
      }
    }
  }

  lemma {:induction false} LinesHaveNoBreak(s: string)
    ensures forall l | l in Lines(s) :: '\n' !in l
    decreases |s|
  {
    if s != "" {
      var i := IndexOf(s, '\n');
      if i < |s| {
        LinesHaveNoBreak(s[i + 1..]);
      }
    }
  }

  lemma {:induction false} ReadValuesHaveNoBreak(lines: seq<string>, before: Values)
    requires (forall l | l in lines :: '\n' !in l) && forall k | k in before :: '\n' !in before[k]
    ensures var r := ReadLines(lines, before); r.Ok? ==> forall k | k in r.values :: '\n' !in r.values[k]
    decreases |lines|
  {
    if lines != [] && Utf8Length(lines[0]) < MAX_TOKEN {
      var r := ReadLine(lines[0], before);
      if r.Ok? {
        ReadLineHasNoBreak(lines[0], before);
        ReadValuesHaveNoBreak(lines[1..], r.values);
      }
    }
  }

  lemma ReadLineHasNoBreak(raw: string, before: Values)
    requires '\n' !in raw && (forall k | k in before :: '\n' !in before[k]) && ReadLine(raw, before).Ok?
    ensures forall k | k in ReadLine(raw, before).values :: '\n' !in ReadLine(raw, before).values[k]
  {
    var line := TrimSpace(raw);
    var i := IndexOf(line, ':');
    if i < |line| {
      var value := TrimQuotes(TrimSpace(line[i + 1..]));
      assert '\n' !in line[i + 1..];
      assert '\n' !in value;
    }
  }

  predicate AllFaithful(values: Values) {
    && (forall k | k in values :: k in KEYS && Faithful(values[k]))
    && !SomeLineTooLong(values, KEYS)
  }

  /**
    A configuration survives writing and reading exactly when all its keys are known,
    its values faithful and its lines short enough.
   */
  lemma RoundTrip(values: Values)
    ensures ReadLines(Lines(ConfigText(values, KEYS)), map[]) == Ok(values) <==> AllFaithful(values)
  {
    KeysAreKeys();
    var text := ConfigText(values, KEYS);
    var r := ReadLines(Lines(text), map[]);
    hide Faithful, ReadBack, ConfigText, Lines, ReadLines, SomeLineTooLong;
    if k :| k in KEYS && k in values && '\n' in values[k] {
      LinesHaveNoBreak(text);
      ReadValuesHaveNoBreak(Lines(text), map[]);
      FaithfulHasNoBreak(values[k]);
    } else {
      ReadWritten(values, KEYS, map[]);
      forall k | k in values && k in KEYS
        ensures ReadBack(values[k]) == values[k] <==> Faithful(values[k])
      {
        FaithfulReadsBack(values[k]);
      }
    }
  }

  lemma FaithfulHasNoBreak(value: string)
    ensures Faithful(value) ==> '\n' !in value
  {
  }

  // ---- What is written ----

  lemma {:induction false} EscapedConcat(a: string, b: string)
    ensures Escaped(a + b) == Escaped(a) + Escaped(b)
    ensures Escaped("\"") == "\\\""
    ensures '"' !in a ==> Escaped(a) == a
    decreases |a|
  {
    assert "\""[1..] == "" && "\\\"" + "" == "\\\"";
    if a == "" {
      assert a + b == b;
    } else {
      assert (a + b)[1..] == a[1..] + b && a == [a[0]] + a[1..];
      EscapedConcat(a[1..], b);
    }
  }

  /** A value is quoted only when empty, with a line break or a '#', or with a space at an end. */
  lemma WrittenScalar(value: string)
    ensures value != "" && '\n' !in value && '#' !in value && value[0] != ' ' && value[|value| - 1] != ' ' ==>
              YamlScalar(value) == value
    ensures value == "" || '\n' in value || '#' in value || value[0] == ' ' || value[|value| - 1] == ' ' ==>
              YamlScalar(value) == "\"" + Escaped(value) + "\""
  {
    assert "\"" + "" + "\"" == "\"\"";
  }

  // ---- What a hand-written line means ----

  lemma {:induction false} IndexOfAbsent(s: string, c: char)
    requires c !in s
    ensures IndexOf(s, c) == |s|
  {
    if s != "" {
      IndexOfAbsent(s[1..], c);
    }
  }

  lemma BlanksTrim(a: string, core: string, b: string)
    requires IsBlank(a) && IsBlank(b) && IsTrimmed(core)
    ensures TrimSpace(a + core + b) == core
  {
    TrimBetween(a, core, b, c => IsSpace(c));
  }

  predicate IsBlank(s: string) {
    forall c | c in s :: IsSpace(c)
  }

  predicate IsTrimmed(s: string) {
    s == "" || (!IsSpace(s[0]) && !IsSpace(s[|s| - 1]))
  }

  /** Blank lines and comments say nothing; any other line without a colon fails the whole file. */
  lemma LineWithoutColon(a: string, core: string, b: string, values: Values)
    requires IsBlank(a) && IsBlank(b) && IsTrimmed(core)
    ensures core == "" || core[0] == '#' ==> ReadLine(a + core + b, values) == Ok(values)
    ensures core != "" && core[0] != '#' && ':' !in core ==> ReadLine(a + core + b, values) == BadLine(core)
  {
    hide TrimSpace, TrimQuotes, IsSpace, IsBlank, IsTrimmed;
    BlanksTrim(a, core, b);
    if ':' !in core {
      IndexOfAbsent(core, ':');
    }
  }

  /**
    `key : value` sets the key to the value, without the blanks around both and the
    quotes around the value; the first colon divides them, and a line without a key
    sets nothing.
   */
  lemma LineWithColon(a: string, key: string, b: string, c: string, q: string, value: string, r: string, d: string,
                      values: Values)
    requires IsBlank(a) && IsBlank(b) && IsBlank(c) && IsBlank(d) && IsTrimmed(key) && IsTrimmed(q + value + r)
    requires ':' !in key && (key != "" ==> key[0] != '#')
    requires All(q, x => IsQuote(x)) && All(r, x => IsQuote(x)) && Tight(value, x => IsQuote(x))
    ensures ReadLine(a + key + b + ":" + (c + (q + value + r) + d), values) ==
              Ok(if key == "" then values else values[key := value])
  {
    var quoted := q + value + r;
    var left, right := if key == "" then "" else key + b, if quoted == "" then "" else c + quoted;
    QuotesTrim(q, value, r);
    hide *;
    ColonSurvives(a, key, b, c, quoted, d);
    SidesTrim(key, b, c, quoted);
    var line := TrimSpace(a + key + b + ":" + (c + quoted + d));
    assert line == left + [':'] + right;
    IndexAfter(left, ':', right);
    assert line[..|left|] == left && line[|left| + 1..] == right;
    ReadsSides(a + key + b + ":" + (c + quoted + d), left, right, values);
  }

  lemma ReadsSides(raw: string, left: string, right: string, values: Values)
    requires TrimSpace(raw) == left + [':'] + right && ':' !in left && (left != "" ==> left[0] != '#')
    ensures ReadLine(raw, values) ==
              Ok(if TrimSpace(left) == "" then values
                 else values[TrimSpace(left) := TrimQuotes(TrimSpace(right))])
  {
    hide TrimSpace, TrimQuotes;
    var line := TrimSpace(raw);
    IndexAfter(left, ':', right);
    assert line[..|left|] == left && line[|left| + 1..] == right;
    assert line[0] == if left == "" then ':' else left[0];
  }

  lemma ColonSurvives(a: string, key: string, b: string, c: string, quoted: string, d: string)
    requires IsBlank(a) && IsBlank(b) && IsBlank(c) && IsBlank(d) && IsTrimmed(key) && IsTrimmed(quoted)
    ensures TrimSpace(a + key + b + ":" + (c + quoted + d)) ==
              (if key == "" then "" else key + b) + ":" + if quoted == "" then "" else c + quoted
  {
    hide TrimSpace;
    var left, right := if key == "" then "" else key + b, if quoted == "" then "" else c + quoted;
    var before, after := if key == "" then a + b else a, if quoted == "" then c + d else d;
    var core := left + ":" + right;
    assert core[0] == if key == "" then ':' else key[0];
    assert core[|core| - 1] == if quoted == "" then ':' else quoted[|quoted| - 1];
    assert a + key + b + ":" + (c + quoted + d) == before + core + after;
    BlanksTrim(before, core, after);
  }

  /** The blanks next to the colon do not count, and neither side hides another colon or a comment sign. */
  lemma SidesTrim(key: string, b: string, c: string, quoted: string)
    requires IsBlank(b) && IsBlank(c) && IsTrimmed(key) && IsTrimmed(quoted)
    requires ':' !in key && (key != "" ==> key[0] != '#')
    ensures var left, right := if key == "" then "" else key + b, if quoted == "" then "" else c + quoted;
            && TrimSpace(left) == key && TrimSpace(right) == quoted
            && ':' !in left && (left != "" ==> left[0] != '#')
  {
    hide TrimSpace;
    BlanksTrim("", key, b);
    BlanksTrim(c, quoted, "");
    BlanksTrim("", "", "");
    assert "" + key + b == key + b && c + quoted + "" == c + quoted && "" + "" + "" == "";
    BlankHasNoColon(b);
  }

  lemma QuotesTrim(q: string, value: string, r: string)
    requires All(q, x => IsQuote(x)) && All(r, x => IsQuote(x)) && Tight(value, x => IsQuote(x))
    ensures TrimQuotes(q + value + r) == value
  {
    TrimBetween(q, value, r, x => IsQuote(x));
  }

  lemma BlankHasNoColon(b: string)
    requires IsBlank(b)
    ensures ':' !in b
  {
  }
}

/**
  JSON texts as RFC 8259 writes them: concrete syntax trees that keep every
  blank and every escape, and the text each tree stands for.
 */
module JsonText {
  import opened Options

  /** One character of a string (section 7). */
  datatype Char =
    | Plain(c: char)
    | Escape(c: char)
    | Unicode(h1: char, h2: char, h3: char, h4: char)

  datatype Exponent = Exponent(mark: char, sign: string, digits: string)

  datatype Value =
    | Literal(text: string)
    | Number(minus: bool, whole: string, fraction: Option<string>, exponent: Option<Exponent>)
    | Text(chars: seq<Char>)
    | Array(elements: Elements)
    | Object(members: Members)

  datatype Element = Element(before: string, value: Value, after: string)

  datatype Elements =
    | NoElements(blank: string)
    | LastElement(element: Element)
    | MoreElements(element: Element, rest: Elements)

  datatype Member = Member(before: string, name: seq<Char>, afterName: string, element: Element)

  datatype Members = NoMembers(blank: string) | LastMember(member: Member) | MoreMembers(member: Member, rest: Members)

  // ---- Well-formedness ----

  predicate IsBlank(s: string) {
    forall i | 0 <= i < |s| :: s[i] in " \t\n\r"
  }

  predicate IsDigits(s: string) {
    s != "" && forall i | 0 <= i < |s| :: '0' <= s[i] <= '9'
  }

  predicate IsHex(c: char) {
    '0' <= c <= '9' || 'a' <= c <= 'f' || 'A' <= c <= 'F'
  }

  predicate IsChar(c: Char) {
    match c
    case Plain(p) => p >= ' ' && p != '"' && p != '\\'
    case Escape(e) => e in "\"\\/bfnrt"
    case Unicode(h1, h2, h3, h4) => IsHex(h1) && IsHex(h2) && IsHex(h3) && IsHex(h4)
  }

  predicate AreChars(chars: seq<Char>) {
    forall i | 0 <= i < |chars| :: IsChar(chars[i])
  }

  predicate IsValue(v: Value) {
    match v
    case Literal(text) => text == "true" || text == "false" || text == "null"
    case Number(_, whole, fraction, exponent) =>
      && IsDigits(whole) && (whole[0] == '0' ==> |whole| == 1)
      && (fraction.Some? ==> IsDigits(fraction.value))
      && (exponent.Some? ==> exponent.value.mark in "eE" && exponent.value.sign in ["", "+", "-"]
                             && IsDigits(exponent.value.digits))
    case Text(chars) => AreChars(chars)
    case Array(elements) => AreElements(elements)
    case Object(members) => AreMembers(members)
  }

  predicate IsElement(e: Element) {
    IsBlank(e.before) && IsValue(e.value) && IsBlank(e.after)
  }

  predicate AreElements(es: Elements) {
    match es
    case NoElements(blank) => IsBlank(blank)
    case LastElement(e) => IsElement(e)
    case MoreElements(e, rest) => IsElement(e) && !rest.NoElements? && AreElements(rest)
  }

  predicate IsMember(m: Member) {
    IsBlank(m.before) && AreChars(m.name) && IsBlank(m.afterName) && IsElement(m.element)
  }

  predicate AreMembers(ms: Members) {
    match ms
    case NoMembers(blank) => IsBlank(blank)
    case LastMember(m) => IsMember(m)
    case MoreMembers(m, rest) => IsMember(m) && !rest.NoMembers? && AreMembers(rest)
  }

  // ---- The text of a tree ----

  function CharText(c: Char): string {
    match c
    case Plain(p) => [p]
    case Escape(e) => ['\\', e]
    case Unicode(h1, h2, h3, h4) => ['\\', 'u', h1, h2, h3, h4]
  }

  function CharsText(chars: seq<Char>): string {
    if chars == [] then "" else CharText(chars[0]) + CharsText(chars[1..])
  }

  function Quoted(chars: seq<Char>): string {
    "\"" + CharsText(chars) + "\""
  }

  function NumberText(v: Value): string
    requires v.Number?
  {
    (if v.minus then "-" else "") + v.whole
    + (if v.fraction.Some? then "." + v.fraction.value else "")
    + (if v.exponent.Some? then [v.exponent.value.mark] + v.exponent.value.sign + v.exponent.value.digits else "")
  }

  function ValueText(v: Value): string {
    match v
    case Literal(text) => text
    case Number(_, _, _, _) => NumberText(v)
    case Text(chars) => Quoted(chars)
    case Array(elements) => "[" + ElementsText(elements) + "]"
    case Object(members) => "{" + MembersText(members) + "}"
  }

  function ElementText(e: Element): string {
    e.before + ValueText(e.value) + e.after
  }

  function ElementsText(es: Elements): string {
    match es
    case NoElements(blank) => blank
    case LastElement(e) => ElementText(e)
    case MoreElements(e, rest) => ElementText(e) + "," + ElementsText(rest)
  }

  function MemberText(m: Member): string {
    m.before + Quoted(m.name) + m.afterName + ":" + ElementText(m.element)
  }

  function MembersText(ms: Members): string {
    match ms
    case NoMembers(blank) => blank
    case LastMember(m) => MemberText(m)
    case MoreMembers(m, rest) => MemberText(m) + "," + MembersText(rest)
  }
}

/** Ordered JSON trees and the text that cJSON prints for them. */
module JsonTree {
  import opened Digits

  datatype Member = Member(key: string, value: Json)

  datatype Json =
    | Null
    | False
    | True
    | Number(value: real)
    | String(text: string)
    | Array(items: seq<Json>)
    | Object(members: seq<Member>)

  const INT_MIN: int := -0x8000_0000
  const INT_MAX: int := 0x7fff_ffff

  /** A C string: bytes other than NUL. */
  predicate IsText(s: string) {
    forall i :: 0 <= i < |s| ==> 0 < s[i] as int < 256
  }

  /** A 32-bit integer value, which is printed and read back exactly. */
  predicate IsInt(v: real) {
    v == v.Floor as real && INT_MIN <= v.Floor <= INT_MAX
  }

  /** The trees considered: C strings and 32-bit integers throughout. */
  predicate WellFormed(j: Json)
    decreases j
  {
    match j
    case Number(v) => IsInt(v)
    case String(s) => IsText(s)
    case Array(items) => forall i :: 0 <= i < |items| ==> WellFormed(items[i])
    case Object(ms) => forall i :: 0 <= i < |ms| ==> IsText(ms[i].key) && WellFormed(ms[i].value)
    case _ => true
  }

  // Strings

  function HexDigit(d: nat): char
    requires d < 16
  {
    if d < 10 then ('0' as int + d) as char else ('a' as int + d - 10) as char
  }

  predicate IsPlain(c: char) {
    c as int > 31 && c != '\"' && c != '\\'
  }

  const BACKSPACE: char := 8 as char
  const FORM_FEED: char := 12 as char

  /** One character of a string as `print_string_ptr` writes it. */
  function EscapeChar(c: char): (e: string)
    ensures |e| > 0
  {
    if IsPlain(c) then [c]
    else if c == '\\' then "\\\\"
    else if c == '\"' then "\\\""
    else if c == BACKSPACE then "\\b"
    else if c == FORM_FEED then "\\f"
    else if c == '\n' then "\\n"
    else if c == '\r' then "\\r"
    else if c == '\t' then "\\t"
    else "\\u00" + [HexDigit(c as int / 16), HexDigit(c as int % 16)]
  }

  function Escape(s: string): string {
    if s == [] then [] else EscapeChar(s[0]) + Escape(s[1..])
  }

  function RenderString(s: string): string {
    "\"" + Escape(s) + "\""
  }

  // Values

  function Spaces(n: nat): (s: string)
    ensures |s| == n
  {
    seq(n, _ => ' ')
  }

  // Layout: nothing in the unformatted text

  function Indent(depth: nat, fmt: bool): (w: string)
    ensures forall i :: 0 <= i < |w| ==> w[i] == ' '
  {
    if fmt then Spaces(depth) else ""
  }

  function Blank(fmt: bool): string {
    if fmt then " " else ""
  }

  function Eol(fmt: bool): string {
    if fmt then "\n" else ""
  }

  function Comma(last: bool): string {
    if last then "" else ","
  }

  /** `print_number` of a 32-bit integer. */
  function RenderNumber(v: real): string {
    DecimalInt(v.Floor)
  }

  /** The text of `j` at nesting depth `depth`, formatted or not. */
  function Render(j: Json, depth: nat, fmt: bool): (s: string)
    ensures |s| > 0
    decreases j
  {
    match j
    case Null => "null"
    case False => "false"
    case True => "true"
    case Number(v) => RenderNumber(v)
    case String(s) => RenderString(s)
    case Array(items) => if items == [] then "[]" else "[" + RenderItems(items, depth + 1, fmt) + "]"
    case Object(ms) =>
      ("{" + Eol(fmt)) + RenderMembers(ms, depth + 1, fmt) + Indent(depth, fmt) + "}"
  }

  function RenderItems(items: seq<Json>, depth: nat, fmt: bool): string
    decreases items
  {
    if items == [] then []
    else
      Render(items[0], depth, fmt)
      + (if |items| == 1 then "" else "," + Blank(fmt))
      + RenderItems(items[1..], depth, fmt)
  }

  function RenderMembers(ms: seq<Member>, depth: nat, fmt: bool): string
    decreases ms
  {
    if ms == [] then []
    else RenderMember(ms[0], depth, fmt, |ms| == 1) + RenderMembers(ms[1..], depth, fmt)
  }

  function RenderMember(m: Member, depth: nat, fmt: bool, last: bool): string
    decreases m
  {
    Indent(depth, fmt) + RenderString(m.key) + (":" + Blank(fmt)) + Render(m.value, depth, fmt)
    + Comma(last) + Eol(fmt)
  }
}

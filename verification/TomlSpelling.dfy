/** Values as they are written in TOML: arrays over several lines with comments, and inline tables. */
module TomlSpelling {
  import opened Numerals

  // Gaps

  /** A blank, the end of a line, or a comment with the end of its line. */
  datatype Piece = White(c: char) | Break | Comment(text: string)

  predicate PieceOk(p: Piece) {
    match p
    case White(c) => c in [' ', '\t', '\r']
    case Break => true
    case Comment(text) => '\n' !in text
  }

  predicate GapOk(g: seq<Piece>) {
    forall i :: 0 <= i < |g| ==> PieceOk(g[i])
  }

  function PieceText(p: Piece): string {
    match p
    case White(c) => [c]
    case Break => "\n"
    case Comment(text) => "#" + text + "\n"
  }

  function GapTo(g: seq<Piece>, rest: string): string {
    if g == [] then rest else PieceText(g[0]) + GapTo(g[1..], rest)
  }

  predicate Whites(w: string) {
    forall i :: 0 <= i < |w| ==> w[i] in [' ', '\t', '\r']
  }

  // String tokens

  predicate IsBareChar(c: char) {
    'A' <= c <= 'Z' || 'a' <= c <= 'z' || '0' <= c <= '9' || c in ['+', '-', '_', '.']
  }

  /** Four digits, a hyphen, two digits, a hyphen, two digits. */
  predicate DateShape(x: string) {
    && |x| >= 10 && x[4] == '-' && x[7] == '-'
    && forall i :: i in {0, 1, 2, 3, 5, 6, 8, 9} ==> '0' <= x[i] <= '9'
  }

  /** Two digits, a colon, two digits, a colon, two digits. */
  predicate TimeShape(x: string) {
    |x| >= 8 && x[2] == ':' && x[5] == ':' && forall i :: i in {0, 1, 3, 4, 6, 7} ==> '0' <= x[i] <= '9'
  }

  /** A bare word: a name, a number or a truth value; in keys a point is no part of it. */
  predicate IsBare(x: string, dots: bool) {
    && x != [] && !DateShape(x)
    && forall i :: 0 <= i < |x| ==> IsBareChar(x[i]) && (x[i] == '.' ==> dots)
  }

  /** A date, a time, or both. */
  predicate IsStamp(x: string) {
    && (DateShape(x) || TimeShape(x)) && x[|x| - 1] != ' '
    && forall i :: 0 <= i < |x| ==> '0' <= x[i] <= '9' || x[i] in ['.', ':', '+', '-', 'T', 't', ' ', 'Z', 'z']
  }

  /** Single quotes around anything on one line. */
  predicate IsLiteralString(x: string) {
    && |x| >= 2 && x[0] == '\'' && x[|x| - 1] == '\''
    && forall i :: 1 <= i < |x| - 1 ==> x[i] != '\'' && x[i] != '\n'
  }

  predicate IsCapitalHex(h: string) {
    forall i :: 0 <= i < |h| ==> exists d: nat :: d < 16 && h[i] == UPPER[d]
  }

  /** What may stand between double quotes: characters, escape sequences, but not three single quotes in a row. */
  ghost predicate IsBasicBody(s: string)
    decreases |s|
  {
    || s == []
    || (s[0] !in ['\"', '\\', '\n'] && !("\'\'\'" <= s) && IsBasicBody(s[1..]))
    || (|s| >= 2 && s[0] == '\\' && s[1] in ['b', 't', 'n', 'f', 'r', '\"', '\\'] && IsBasicBody(s[2..]))
    || (|s| >= 6 && s[0] == '\\' && s[1] == 'u' && IsCapitalHex(s[2..6]) && IsBasicBody(s[6..]))
    || (|s| >= 10 && s[0] == '\\' && s[1] == 'U' && IsCapitalHex(s[2..10]) && IsBasicBody(s[10..]))
  }

  ghost predicate IsBasicString(x: string) {
    |x| >= 2 && x[0] == '\"' && x[|x| - 1] == '\"' && IsBasicBody(x[1..|x| - 1])
  }

  predicate ThreeIn(x: string, i: nat, quote: char) {
    i + 3 <= |x| && x[i] == x[i + 1] == x[i + 2] == quote
  }

  /** All from an index on are quotes. */
  predicate QuotesFrom(x: string, i: nat, quote: char) {
    forall j :: i <= j < |x| ==> x[j] == quote
  }

  /** Three single quotes around anything; more of them may stand at the end. */
  predicate IsLongLiteral(x: string) {
    && |x| >= 6 && ThreeIn(x, 0, '\'') && ThreeIn(x, |x| - 3, '\'')
    && forall i :: 3 <= i < |x| && ThreeIn(x, i, '\'') ==> QuotesFrom(x, i, '\'')
  }

  /** What may stand between three double quotes: anything with escape sequences, where a backslash may end a line. */
  ghost predicate IsLongBody(s: string)
    decreases |s|
  {
    || s == []
    || (s[0] != '\\' && IsLongBody(s[1..]))
    || (|s| >= 2 && s[0] == '\\' && s[1] in ['b', 't', 'n', 'f', 'r', '\"', '\\'] && IsLongBody(s[2..]))
    || (|s| >= 6 && s[0] == '\\' && s[1] == 'u' && IsCapitalHex(s[2..6]) && IsLongBody(s[6..]))
    || (|s| >= 10 && s[0] == '\\' && s[1] == 'U' && IsCapitalHex(s[2..10]) && IsLongBody(s[10..]))
    || (|s| >= 2 && s[0] == '\\' && EndsLine(s[1..]) && IsLongBody(s[2..]))
  }

  /** Blanks up to the end of a line. */
  predicate EndsLine(s: string) {
    s != [] && (s[0] == '\n' || (s[0] in [' ', '\t', '\r'] && EndsLine(s[1..])))
  }

  /** Three double quotes around such a text; more of them may stand at the end. A backslash must not. */
  ghost predicate IsLongString(x: string) {
    && |x| >= 6 && ThreeIn(x, 0, '\"') && ThreeIn(x, |x| - 3, '\"') && IsLongBody(x[3..|x| - 3])
    && x[|x| - 4] != '\\'
    && forall i :: 3 <= i < |x| && ThreeIn(x, i, '\"') && x[i - 1] != '\\' ==> QuotesFrom(x, i, '\"')
  }

  /** A string token; with points in bare words, dates, and strings over several lines, where a value is expected. */
  ghost predicate IsWord(x: string, isValue: bool) {
    || IsBare(x, isValue) || IsLiteralString(x) || IsBasicString(x)
    || (isValue && (IsStamp(x) || IsLongLiteral(x) || IsLongString(x)))
  }

  // Values

  datatype Element = Element(before: seq<Piece>, value: Val, after: seq<Piece>)

  datatype Entry = Entry(before: string, key: string, mid: string, left: string, value: Val, behind: string)

  /**
   A token, an array or an inline table. `comma` says that a comma follows the last element, and what stands in front
   of the closing bracket then, or if there are no elements, is `close` or `blank`.
   */
  datatype Val =
    | Raw(text: string)
    | List(items: seq<Element>, comma: bool, close: seq<Piece>)
    | Table(entries: seq<Entry>, comma: bool, blank: string)

  function ValTo(v: Val, rest: string): string
    decreases v, 1
  {
    match v
    case Raw(x) => x + rest
    case List(items, comma, close) => "[" + ItemsTo(items, comma, close, rest)
    case Table(es, comma, close) => "{" + EntriesTo(es, comma, close, rest)
  }

  function ItemsTo(items: seq<Element>, comma: bool, close: seq<Piece>, rest: string): string
    decreases items, 0
  {
    if items == [] then GapTo(close, "]" + rest)
    else GapTo(items[0].before, ValTo(items[0].value, GapTo(items[0].after, ItemEnd(items, comma, close, rest))))
  }

  /** What follows the first of some elements. */
  function ItemEnd(items: seq<Element>, comma: bool, close: seq<Piece>, rest: string): string
    requires items != []
    decreases items[1..], 1
  {
    if |items| == 1 && !comma then "]" + rest else "," + ItemsTo(items[1..], comma, close, rest)
  }

  function EntriesTo(es: seq<Entry>, comma: bool, close: string, rest: string): string
    decreases es, 0
  {
    if es == [] then close + ("}" + rest)
    else EntryTo(es[0], EntryEnd(es, comma, close, rest))
  }

  function EntryEnd(es: seq<Entry>, comma: bool, close: string, rest: string): string
    requires es != []
    decreases es[1..], 1
  {
    if |es| == 1 && !comma then "}" + rest else "," + EntriesTo(es[1..], comma, close, rest)
  }

  function EntryTo(e: Entry, rest: string): string
    decreases e, 2
  {
    e.before + (e.key + (e.mid + ("=" + (e.left + ValTo(e.value, e.behind + rest)))))
  }

  /** Tokens and gaps are spelled as they may be. */
  ghost predicate ValOk(v: Val)
    decreases v
  {
    match v
    case Raw(x) => IsWord(x, true)
    case List(items, _, close) => GapOk(close) && forall i :: 0 <= i < |items| ==> ElementOk(items[i])
    case Table(es, _, close) => Whites(close) && forall i :: 0 <= i < |es| ==> EntryOk(es[i])
  }

  ghost predicate ElementOk(item: Element)
    decreases item
  {
    GapOk(item.before) && GapOk(item.after) && ValOk(item.value)
  }

  ghost predicate EntryOk(e: Entry)
    decreases e
  {
    && Whites(e.before) && Whites(e.mid) && Whites(e.left) && Whites(e.behind)
    && IsWord(e.key, false) && ValOk(e.value)
  }
}

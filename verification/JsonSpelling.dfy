/**
 JSON texts as RFC 8259 allows them: any blanks between tokens, any spelling of characters and numbers; and the values
 that they denote, without regard to how they are read.
 */
module JsonSpelling {
  import opened Digits
  import opened JsonTree
  import opened Numerals
  import opened Options
  import Utf8Codecs

  // Strings (RFC 8259 section 7)

  /** A byte as it is, a letter behind a backslash, one `\u` escape, or a surrogate pair of two. */
  datatype Ch =
    | Plain(byte: char)
    | Short(letter: char)
    | Unit(code: nat, hex: string)
    | Pair(code: nat, high: string, low: string)

  const LETTERS: string := "\"\\/bfnrt"

  predicate IsSurrogate(code: nat) {
    0xD800 <= code <= 0xDFFF
  }

  /** Code points are in range, and spelled with the digits of section 7 or, as a pair, of RFC 2781 section 2.1. */
  predicate ChOk(ch: Ch) {
    match ch
    case Plain(c) => 0 < c as int < 256 && c != '\"' && c != '\\'
    case Short(letter) => letter in LETTERS
    case Unit(code, hex) => code > 0 && !IsSurrogate(code) && SpellsUnit(hex, code)
    case Pair(code, high, low) =>
      0x1_0000 <= code <= 0x10_FFFF
      && SpellsUnit(high, 0xD800 + (code - 0x1_0000) / 0x400) && SpellsUnit(low, 0xDC00 + (code - 0x1_0000) % 0x400)
  }

  function Written(ch: Ch): string {
    match ch
    case Plain(c) => [c]
    case Short(letter) => ['\\', letter]
    case Unit(_, hex) => "\\u" + hex
    case Pair(_, high, low) => "\\u" + high + "\\u" + low
  }

  /** The bytes as characters. */
  function Chars(bytes: seq<Utf8Codecs.Byte>): (s: string)
    ensures |s| == |bytes|
  {
    seq(|bytes|, i requires 0 <= i < |bytes| => bytes[i] as char)
  }

  function LetterMeans(letter: char): char {
    match letter
    case 'b' => 8 as char
    case 'f' => 12 as char
    case 'n' => 10 as char
    case 'r' => 13 as char
    case 't' => 9 as char
    case _ => letter
  }

  /** The bytes that a character stands for. */
  function Means(ch: Ch): string
    requires ChOk(ch)
  {
    match ch
    case Plain(c) => [c]
    case Short(letter) => [LetterMeans(letter)]
    case Unit(code, _) => Chars(Utf8Codecs.Encode(code))
    case Pair(code, _, _) => Chars(Utf8Codecs.Encode(code))
  }

  predicate AllOk(chs: seq<Ch>) {
    forall i :: 0 <= i < |chs| ==> ChOk(chs[i])
  }

  function CharsTo(chs: seq<Ch>, rest: string): string {
    if chs == [] then rest else Written(chs[0]) + CharsTo(chs[1..], rest)
  }

  function TextMeans(chs: seq<Ch>): string
    requires AllOk(chs)
  {
    if chs == [] then [] else Means(chs[0]) + TextMeans(chs[1..])
  }

  function LiteralTo(chs: seq<Ch>, rest: string): string {
    "\"" + CharsTo(chs, "\"" + rest)
  }

  // Numbers (section 6)

  datatype Sign = NoSign | Plus | Minus

  datatype Exponent = Exponent(letter: char, sign: Sign, digits: string)

  datatype Num = Num(negative: bool, whole: string, fraction: Option<string>, exponent: Option<Exponent>)

  predicate NumOk(n: Num) {
    && AllDigits(n.whole) && n.whole != [] && (|n.whole| > 1 ==> n.whole[0] != '0')
    && (n.fraction.Some? ==> AllDigits(n.fraction.value) && n.fraction.value != [])
    && (n.exponent.Some? ==> n.exponent.value.letter in ['e', 'E']
                             && AllDigits(n.exponent.value.digits) && n.exponent.value.digits != [])
  }

  function SignText(sign: Sign): string {
    match sign
    case NoSign => ""
    case Plus => "+"
    case Minus => "-"
  }

  function ExponentTo(e: Option<Exponent>, rest: string): string {
    if e.None? then rest else [e.value.letter] + (SignText(e.value.sign) + (e.value.digits + rest))
  }

  function FractionTo(f: Option<string>, rest: string): string {
    if f.None? then rest else "." + (f.value + rest)
  }

  function NumTo(n: Num, rest: string): string {
    (if n.negative then "-" else "") + (n.whole + FractionTo(n.fraction, ExponentTo(n.exponent, rest)))
  }

  /** Ten to a power. */
  function TenTo(k: nat): real {
    if k == 0 then 1.0 else 10.0 * TenTo(k - 1)
  }

  lemma {:induction false} TenToPositive(k: nat)
    ensures TenTo(k) > 0.0
    decreases k
  {
    if k > 0 {
      TenToPositive(k - 1);
    }
  }

  /** The number in front of the exponent. */
  function Mantissa(n: Num): real
    requires NumOk(n)
  {
    var whole := DecimalValue(n.whole) as real;
    if n.fraction.None? then whole
    else
      TenToPositive(|n.fraction.value|);
      whole + DecimalValue(n.fraction.value) as real / TenTo(|n.fraction.value|)
  }

  function Size(n: Num): real
    requires NumOk(n)
  {
    if n.exponent.None? then Mantissa(n)
    else
      var k := DecimalValue(n.exponent.value.digits);
      TenToPositive(k);
      if n.exponent.value.sign == Minus then Mantissa(n) / TenTo(k) else Mantissa(n) * TenTo(k)
  }

  function NumMeans(n: Num): real
    requires NumOk(n)
  {
    if n.negative then -Size(n) else Size(n)
  }

  // Values (sections 2 to 5)

  datatype Element = Element(before: string, value: Val, after: string)

  datatype Entry = Entry(before: string, key: seq<Ch>, mid: string, value: Element)

  /** A value; a list or an object without elements has a gap between its brackets. */
  datatype Val =
    | WNull
    | WFalse
    | WTrue
    | WNumber(n: Num)
    | WString(chs: seq<Ch>)
    | WArray(items: seq<Element>, gap: string)
    | WObject(entries: seq<Entry>, gap: string)

  function ValTo(v: Val, rest: string): string
    decreases v, 1
  {
    match v
    case WNull => "null" + rest
    case WFalse => "false" + rest
    case WTrue => "true" + rest
    case WNumber(n) => NumTo(n, rest)
    case WString(chs) => LiteralTo(chs, rest)
    case WArray(items, gap) => "[" + (if items == [] then gap + ("]" + rest) else ElementsTo(items, "]" + rest))
    case WObject(es, gap) => "{" + (if es == [] then gap + ("}" + rest) else EntriesTo(es, "}" + rest))
  }

  function ElementTo(e: Element, rest: string): string
    decreases e, 2
  {
    e.before + ValTo(e.value, e.after + rest)
  }

  function ElementsTo(items: seq<Element>, rest: string): string
    requires items != []
    decreases items, 0
  {
    ElementTo(items[0], if |items| == 1 then rest else "," + ElementsTo(items[1..], rest))
  }

  function EntryTo(e: Entry, rest: string): string
    decreases e, 3
  {
    e.before + LiteralTo(e.key, e.mid + (":" + ElementTo(e.value, rest)))
  }

  function EntriesTo(es: seq<Entry>, rest: string): string
    requires es != []
    decreases es, 0
  {
    EntryTo(es[0], if |es| == 1 then rest else "," + EntriesTo(es[1..], rest))
  }

  /** Numbers and strings are spelled as they may be, and gaps hold what a gap may hold. */
  predicate ValOk(v: Val, isGap: string -> bool)
    decreases v
  {
    match v
    case WNumber(n) => NumOk(n)
    case WString(chs) => AllOk(chs)
    case WArray(items, gap) => isGap(gap) && forall i :: 0 <= i < |items| ==> ElementOk(items[i], isGap)
    case WObject(es, gap) => isGap(gap) && forall i :: 0 <= i < |es| ==> EntryOk(es[i], isGap)
    case _ => true
  }

  predicate ElementOk(e: Element, isGap: string -> bool)
    decreases e
  {
    isGap(e.before) && isGap(e.after) && ValOk(e.value, isGap)
  }

  predicate EntryOk(e: Entry, isGap: string -> bool)
    decreases e
  {
    isGap(e.before) && isGap(e.mid) && AllOk(e.key) && ElementOk(e.value, isGap)
  }

  /** The tree that a text denotes. */
  function ValMeans(v: Val, isGap: string -> bool): Json
    requires ValOk(v, isGap)
    decreases v
  {
    match v
    case WNull => Null
    case WFalse => False
    case WTrue => True
    case WNumber(n) => Number(NumMeans(n))
    case WString(chs) => String(TextMeans(chs))
    case WArray(items, _) => Array(ElementsMean(items, isGap))
    case WObject(es, _) => Object(EntriesMean(es, isGap))
  }

  function ElementsMean(items: seq<Element>, isGap: string -> bool): seq<Json>
    requires forall i :: 0 <= i < |items| ==> ElementOk(items[i], isGap)
    decreases items
  {
    if items == [] then [] else [ElementMeans(items[0], isGap)] + ElementsMean(items[1..], isGap)
  }

  function ElementMeans(e: Element, isGap: string -> bool): Json
    requires ElementOk(e, isGap)
    decreases e
  {
    ValMeans(e.value, isGap)
  }

  function EntryMeans(e: Entry, isGap: string -> bool): Member
    requires EntryOk(e, isGap)
    decreases e
  {
    Member(TextMeans(e.key), ElementMeans(e.value, isGap))
  }

  function EntriesMean(es: seq<Entry>, isGap: string -> bool): seq<Member>
    requires forall i :: 0 <= i < |es| ==> EntryOk(es[i], isGap)
    decreases es
  {
    if es == [] then [] else [EntryMeans(es[0], isGap)] + EntriesMean(es[1..], isGap)
  }
}

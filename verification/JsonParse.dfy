/** What the recursive-descent parser of cJSON makes of a text: the tree and the unread rest. */
module JsonParse {
  import opened CStrings
  import opened Digits
  import opened JsonTree
  import opened Options

  function Drop(s: string, k: nat): (r: string)
    ensures |r| <= |s| && (k > 0 && |s| > 0 ==> |r| < |s|)
  {
    if k <= |s| then s[k..] else []
  }

  /** `skip`: past blanks and control characters. */
  function Skip(s: string): (r: string)
    ensures |r| <= |s|
  {
    if s != [] && s[0] as int <= 32 then Skip(s[1..]) else s
  }

  // Strings

  function HexValue(c: char): (v: int)
    ensures -1 <= v < 16
  {
    if '0' <= c <= '9' then c as int - '0' as int
    else if 'A' <= c <= 'F' then 10 + c as int - 'A' as int
    else if 'a' <= c <= 'f' then 10 + c as int - 'a' as int
    else -1
  }

  /** The value of `k` hexadecimal digits, or -1 if there are not as many. */
  function HexDigits(s: string, i: nat, k: nat): (h: int)
    ensures -1 <= h
    decreases k, s
  {
    if k == 0 then 0
    else
      var high, low := HexDigits(s, i, k - 1), HexValue(At(s, i + k - 1));
      if high < 0 || low < 0 then -1 else high * 16 + low
  }

  /** `parse_hex4`: four hexadecimal digits, or 0 if there are not four. */
  function Hex4(s: string, i: nat): (h: nat)
    ensures h < 0x10000
  {
    var h := HexDigits(s, i, 4);
    HexDigitsBound(s, i);
    if h < 0 then 0 else h
  }

  lemma HexDigitsBound(s: string, i: nat)
    ensures HexDigits(s, i, 4) < 0x10000
  {
    assert HexDigits(s, i, 0) < 1;
    assert HexDigits(s, i, 1) < 16;
    assert HexDigits(s, i, 2) < 256;
    assert HexDigits(s, i, 3) < 4096;
  }

  /** The UTF-8 bytes of a code point, as `parse_string` writes them. */
  function Utf8(code: nat): (s: string)
    requires code < 0x11_0000
    ensures 1 <= |s| <= 4
  {
    if code < 0x80 then [code as char]
    else if code < 0x800 then [(0xC0 + code / 64) as char, (0x80 + code % 64) as char]
    else if code < 0x1_0000 then
      [(0xE0 + code / 4096) as char, (0x80 + code / 64 % 64) as char, (0x80 + code % 64) as char]
    else
      [(0xF0 + code / 262144) as char, (0x80 + code / 4096 % 64) as char, (0x80 + code / 64 % 64) as char,
       (0x80 + code % 64) as char]
  }

  /** The first pass over a string literal: how far it is to the closing quote or to the end of the text. */
  function ScanLength(s: string): (n: Option<nat>)
    ensures n.Some? ==> n.value <= |s|
  {
    if s == [] || s[0] == '\"' then Some(0)
    else if s[0] == '\\' && |s| == 1 then None
    else
      var step := if s[0] == '\\' then 2 else 1;
      match ScanLength(s[step..])
      case None => None
      case Some(n) => Some(step + n)
  }

  /** The buffer length that the first pass counts for the next `n` characters. */
  function Counted(s: string, n: nat): nat
    requires n <= |s|
    decreases n
  {
    if n == 0 then 0
    else if s[0] == '\\' && n > 1 then 1 + Counted(s[2..], n - 2)
    else 1 + Counted(s[1..], n - 1)
  }

  /** A decoded piece of a string literal and the number of characters it was written with. */
  datatype Piece = Piece(text: string, used: nat)

  /** `\\uXXXX`, or a surrogate pair of two, in a literal of which `n` characters are left. */
  function DecodeUnicode(s: string, n: nat): (r: Option<Piece>)
    ensures r.Some? ==> r.value.used >= 6 && 1 <= |r.value.text| <= 4
  {
    var uc := Hex4(s, 2);
    if 5 >= n then None
    else if 0xDC00 <= uc <= 0xDFFF || uc == 0 then None
    else if 0xD800 <= uc <= 0xDBFF then
      var uc2 := Hex4(s, 8);
      if 11 > n then None
      else if At(s, 6) != '\\' || At(s, 7) != 'u' then None
      else if uc2 < 0xDC00 || uc2 > 0xDFFF then None
      else Some(Piece(Utf8(0x1_0000 + (uc - 0xD800) * 0x400 + (uc2 - 0xDC00)), 12))
    else Some(Piece(Utf8(uc), 6))
  }

  /** One turn of the second pass over a string literal. */
  function DecodeStep(s: string, n: nat): (r: Option<Piece>)
    requires 0 < n <= |s|
    ensures r.Some? ==> r.value.used > 0 && 1 <= |r.value.text| <= 4
  {
    if s[0] != '\\' then Some(Piece([s[0]], 1))
    else
      var c := At(s, 1);
      if c == 'b' then Some(Piece([BACKSPACE], 2))
      else if c == 'f' then Some(Piece([FORM_FEED], 2))
      else if c == 'n' then Some(Piece("\n", 2))
      else if c == 'r' then Some(Piece("\r", 2))
      else if c == 't' then Some(Piece("\t", 2))
      else if c == '\"' || c == '\\' || c == '/' then Some(Piece([c], 2))
      else if c == 'u' then DecodeUnicode(s, n)
      else None
  }

  /** The second pass over a literal of `n` characters: the decoded text and the characters read. */
  function Decode(s: string, n: nat): (r: Option<Piece>)
    requires n <= |s|
    decreases n
  {
    if n == 0 then Some(Piece([], 0))
    else match DecodeStep(s, n)
      case None => None
      case Some(p) =>
        if p.used > n then Some(p)
        else match Decode(s[p.used..], n - p.used)
          case None => None
          case Some(q) => Some(Piece(p.text + q.text, p.used + q.used))
  }

  datatype Parsed<+T> = Parsed(value: T, rest: string)

  /** `parse_string`; a text that ends inside the literal closes it. */
  function ParseString(s: string): (r: Option<Parsed<string>>)
    ensures r.Some? ==> |r.value.rest| < |s|
  {
    if s == [] || s[0] != '\"' then None
    else match ScanLength(s[1..])
      case None => None
      case Some(n) =>
        match Decode(s[1..], n)
        case None => None
        case Some(p) =>
          Some(Parsed(p.text, Drop(s[1..], if At(s[1..], p.used) == '\"' then p.used + 1 else p.used)))
  }

  // Numbers

  /** The number of digits at the beginning of a text. */
  function DigitRun(s: string): (k: nat)
    ensures k <= |s| && AllDigits(s[..k]) && (k < |s| ==> !IsDigit(s[k]))
  {
    if s == [] || !IsDigit(s[0]) then 0
    else
      var k := DigitRun(s[1..]);
      assert s[..k + 1] == [s[0]] + s[1..][..k];
      k + 1
  }

  /** `n` times ten to the power `k`. */
  function Scaled(n: nat, k: int): real
    decreases if k < 0 then -k else k
  {
    if k == 0 then n as real else if k > 0 then 10.0 * Scaled(n, k - 1) else Scaled(n, k + 1) / 10.0
  }

  /** The digits before the point: one leading zero is passed over, then a run not starting with zero. */
  function NumberWhole(s: string): (r: Parsed<string>)
    ensures AllDigits(r.value) && |r.rest| <= |s| && (s != [] && IsDigit(s[0]) ==> |r.rest| < |s|)
  {
    var t := if At(s, 0) == '0' then s[1..] else s;
    var k := if '1' <= At(t, 0) <= '9' then DigitRun(t) else 0;
    Parsed(t[..k], t[k..])
  }

  function NumberFraction(s: string): (r: Parsed<string>)
    ensures AllDigits(r.value) && |r.rest| <= |s|
  {
    if At(s, 0) == '.' && IsDigit(At(s, 1)) then
      var f := DigitRun(s[1..]);
      Parsed(s[1..][..f], s[1..][f..])
    else Parsed("", s)
  }

  function NumberExponent(s: string): (r: Parsed<int>)
    ensures |r.rest| <= |s|
  {
    if At(s, 0) == 'e' || At(s, 0) == 'E' then
      var signed := At(s, 1) == '+' || At(s, 1) == '-';
      var t := if signed then s[2..] else s[1..];
      var x := DigitRun(t);
      var value: int := DecimalValue(t[..x]);
      Parsed(if At(s, 1) == '-' then -value else value, t[x..])
    else Parsed(0, s)
  }

  /** The value of a numeral from its parts. */
  function NumberOf(negative: bool, whole: string, fraction: string, exponent: int): real
    requires AllDigits(whole) && AllDigits(fraction)
  {
    var n := Scaled(DecimalValue(whole + fraction), exponent - |fraction|);
    if negative then -n else n
  }

  /** `parse_number`, in exact arithmetic. */
  function ParseNumber(s: string): (r: Parsed<real>)
    ensures |r.rest| <= |s| && (s != [] && (s[0] == '-' || IsDigit(s[0])) ==> |r.rest| < |s|)
  {
    var negative := At(s, 0) == '-';
    var whole := NumberWhole(if negative then s[1..] else s);
    var fraction := NumberFraction(whole.rest);
    var exponent := NumberExponent(fraction.rest);
    Parsed(NumberOf(negative, whole.value, fraction.value, exponent.value), exponent.rest)
  }

  // Values

  /** `parse_value` */
  function ParseValue(s: string): (r: Option<Parsed<Json>>)
    ensures r.Some? ==> |r.value.rest| < |s|
    decreases |s|, 2
  {
    if "null" <= s then Some(Parsed(Null, s[4..]))
    else if "false" <= s then Some(Parsed(False, s[5..]))
    else if "true" <= s then Some(Parsed(True, s[4..]))
    else
      var c := At(s, 0);
      if c == '\"' then
        match ParseString(s)
        case None => None
        case Some(p) => Some(Parsed(String(p.value), p.rest))
      else if c == '-' || IsDigit(c) then
        var p := ParseNumber(s);
        Some(Parsed(Number(p.value), p.rest))
      else if c == '[' then ParseArray(s)
      else if c == '{' then ParseObject(s)
      else None
  }

  /** `parse_array` */
  function ParseArray(s: string): (r: Option<Parsed<Json>>)
    requires s != []
    ensures r.Some? ==> |r.value.rest| < |s|
    decreases |s|, 1
  {
    var v := Skip(s[1..]);
    if At(v, 0) == ']' then Some(Parsed(Array([]), v[1..]))
    else match ParseItems(v)
      case None => None
      case Some(p) => if At(p.rest, 0) == ']' then Some(Parsed(Array(p.value), p.rest[1..])) else None
  }

  /** `parse_object` */
  function ParseObject(s: string): (r: Option<Parsed<Json>>)
    requires s != []
    ensures r.Some? ==> |r.value.rest| < |s|
    decreases |s|, 1
  {
    var v := Skip(s[1..]);
    if At(v, 0) == '}' then Some(Parsed(Object([]), v[1..]))
    else match ParseMembers(v)
      case None => None
      case Some(p) => if At(p.rest, 0) == '}' then Some(Parsed(Object(p.value), p.rest[1..])) else None
  }

  /** The elements of an array, from the first one up to what follows the last. */
  function ParseItems(s: string): (r: Option<Parsed<seq<Json>>>)
    ensures r.Some? ==> |r.value.rest| < |s|
    decreases |s|, 3
  {
    match ParseValue(Skip(s))
    case None => None
    case Some(p) =>
      var v := Skip(p.rest);
      if At(v, 0) != ',' then Some(Parsed([p.value], v))
      else match ParseItems(v[1..])
        case None => None
        case Some(q) => Some(Parsed([p.value] + q.value, q.rest))
  }

  /** The members of an object, from the first key up to what follows the last value. */
  function ParseMembers(s: string): (r: Option<Parsed<seq<Member>>>)
    ensures r.Some? ==> |r.value.rest| < |s|
    decreases |s|, 3
  {
    match ParseMember(s)
    case None => None
    case Some(p) =>
      if At(p.rest, 0) != ',' then Some(Parsed([p.value], p.rest))
      else match ParseMembers(p.rest[1..])
        case None => None
        case Some(q) => Some(Parsed([p.value] + q.value, q.rest))
  }

  function ParseMember(s: string): (r: Option<Parsed<Member>>)
    ensures r.Some? ==> |r.value.rest| < |s|
    decreases |s|, 2
  {
    match ParseString(Skip(s))
    case None => None
    case Some(key) =>
      var v := Skip(key.rest);
      if At(v, 0) != ':' then None
      else match ParseValue(Skip(v[1..]))
        case None => None
        case Some(p) => Some(Parsed(Member(key.value, p.value), Skip(p.rest)))
  }

  /** `cJSON_Parse`: the tree and where reading stopped. */
  function Parse(text: string): Option<Parsed<Json>> {
    ParseValue(Skip(text))
  }
}

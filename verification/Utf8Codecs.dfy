/** The UTF-8 printer and the two readers of characters that undo it. */
module Utf8Codecs {
  import opened Options

  type Byte = b: int | 0 <= b < 256

  /** The byte at an index, with the terminating NUL behind the end. */
  function At(s: seq<Byte>, i: nat): Byte {
    if i < |s| then s[i] else 0
  }

  /** A continuation byte: `0x80 | (c & 0x3F)`. */
  function Tail(c: nat): (b: Byte)
    ensures b / 64 == 2 && b % 64 == c % 64
  {
    0x80 + c % 64
  }

  /** The unescaped branch of `printUtf8`. */
  function Encode(chr: nat): (s: seq<Byte>)
    requires chr < 0x20_0000
    ensures 1 <= |s| <= 4
  {
    if chr < 0x80 then [chr]
    else if chr < 0x800 then [0xC0 + chr / 64, Tail(chr)]
    else if chr < 0x1_0000 then [0xE0 + chr / 4096, Tail(chr / 64), Tail(chr)]
    else [0xF0 + chr / 262144, Tail(chr / 4096), Tail(chr / 64), Tail(chr)]
  }

  const BACKSLASH: Byte := 0x5C

  /** The letter behind the backslash for a character that is printed as an escape sequence. */
  function EscapeLetter(chr: nat): (letter: nat)
    ensures letter < 0x80
  {
    match chr
    case 0 => 0x30
    case 0x0A => 0x6E
    case 0x09 => 0x74
    case 0x0B => 0x76
    case 0x0D => 0x72
    case 0x07 => 0x61
    case 0x08 => 0x62
    case 0x22 => 0x22
    case 0x5C => 0x5C
    case 0x27 => 0x27
    case _ => 0
  }

  /** `printUtf8` */
  function Print(chr: nat, escaped: bool): (s: seq<Byte>)
    requires chr < 0x20_0000
    ensures 1 <= |s| <= 4
  {
    if escaped && EscapeLetter(chr) != 0 then [BACKSLASH, EscapeLetter(chr)] else Encode(chr)
  }

  datatype Char = Char(code: nat, used: nat)

  function Join(high: nat, s: seq<Byte>, i: nat): nat {
    high * 64 + At(s, i) % 64
  }

  /** `decodeUtf8Char`, which takes an invalid first byte as it is. */
  function Decode(s: seq<Byte>): (r: Char)
    ensures 1 <= r.used <= 4
  {
    var b := At(s, 0);
    if b < 0x80 then Char(b, 1)
    else if b / 32 == 6 then Char(Join(b % 32, s, 1), 2)
    else if b / 16 == 14 then Char(Join(Join(b % 16, s, 1), s, 2), 3)
    else if b / 8 == 30 then Char(Join(Join(Join(b % 8, s, 1), s, 2), s, 3), 4)
    else Char(b, 1)
  }

  /** Decoding what was printed gives the character back, whatever follows. */
  lemma DecodeUndoesPrint(chr: nat, rest: seq<Byte>)
    requires chr < 0x20_0000
    ensures Decode(Print(chr, false) + rest) == Char(chr, |Print(chr, false)|)
  {
    var t := Encode(chr) + rest;
    assert forall i :: 0 <= i < |Encode(chr)| ==> t[i] == Encode(chr)[i];
    Digits64(chr);
  }

  /** A number in base 64. */
  lemma Digits64(n: nat)
    ensures n == n / 64 * 64 + n % 64
    ensures n / 64 == n / 4096 * 64 + n / 64 % 64
    ensures n / 4096 == n / 262144 * 64 + n / 4096 % 64
  {
  }

  /** The bytes that were decoded are the shortest form of the character. */
  predicate Shortest(s: seq<Byte>, c: Char) {
    c.used <= |s| && (forall i :: 1 <= i < c.used ==> s[i] / 64 == 2)
    && match c.used
       case 1 => s[0] < 0x80
       case 2 => c.code >= 0x80
       case 3 => c.code >= 0x800
       case _ => c.code >= 0x1_0000
  }

  lemma TwoBytes(b: Byte, x: Byte, code: nat)
    requires b / 32 == 6 && code == b % 32 * 64 + x % 64
    ensures code < 0x800
    ensures Encode(code) == [b, x] <==> x / 64 == 2 && code >= 0x80
  {
  }

  lemma ThreeBytes(b: Byte, x: Byte, y: Byte, code: nat)
    requires b / 16 == 14 && code == (b % 16 * 64 + x % 64) * 64 + y % 64
    ensures code < 0x1_0000
    ensures Encode(code) == [b, x, y] <==> x / 64 == 2 && y / 64 == 2 && code >= 0x800
  {
    assert code / 64 == b % 16 * 64 + x % 64 && code / 4096 == b % 16;
  }

  lemma FourBytes(b: Byte, x: Byte, y: Byte, z: Byte, code: nat)
    requires b / 8 == 30 && code == ((b % 8 * 64 + x % 64) * 64 + y % 64) * 64 + z % 64
    ensures code < 0x20_0000
    ensures Encode(code) == [b, x, y, z] <==> x / 64 == 2 && y / 64 == 2 && z / 64 == 2 && code >= 0x1_0000
  {
    assert code / 64 == (b % 8 * 64 + x % 64) * 64 + y % 64;
    assert code / 4096 == b % 8 * 64 + x % 64 && code / 262144 == b % 8;
  }

  /** Conversely, printing what was decoded gives the bytes back exactly if they are the shortest form. */
  lemma PrintUndoesDecode(s: seq<Byte>)
    requires s != []
    ensures var c := Decode(s);
            c.code < 0x20_0000
            && ((c.used <= |s| && Print(c.code, false) == s[..c.used]) <==> Shortest(s, c))
  {
    hide Encode;
    var c := Decode(s);
    var b := s[0];
    if c.used == 2 {
      TwoBytes(b, At(s, 1), c.code);
      assert |s| >= 2 ==> s[..2] == [b, s[1]];
    } else if c.used == 3 {
      ThreeBytes(b, At(s, 1), At(s, 2), c.code);
      assert |s| >= 3 ==> s[..3] == [b, s[1], s[2]];
    } else if c.used == 4 {
      FourBytes(b, At(s, 1), At(s, 2), At(s, 3), c.code);
      assert |s| >= 4 ==> s[..4] == [b, s[1], s[2], s[3]];
    } else {
      OneByte(b);
      assert s[..1] == [b];
    }
  }

  lemma OneByte(b: Byte)
    ensures Encode(b) == [b] <==> b < 0x80
  {
  }

  // `readChar`

  /** What `strtoul` makes of a text in a base: the value, the characters read, and whether it was out of range. */
  datatype Ordinal = Ordinal(value: nat, count: nat, outOfRange: bool)

  type Strtoul = (seq<Byte>, nat) -> Ordinal

  predicate IsOctal(b: Byte) {
    0x30 <= b <= 0x37
  }

  /** `convertStrToCharOrd`: the value as an `unsigned int`, accepted up to 255. */
  function CharOrd(s: seq<Byte>, base: nat, strtoul: Strtoul): Char {
    var r := strtoul(s, base);
    var ord := r.value % 0x1_0000_0000;
    Char(ord, if ord <= 255 && !r.outOfRange then r.count else 0)
  }

  /** The number of leading one bits. */
  function LeadingOnes(b: Byte): (n: nat)
    ensures n <= 8
  {
    if b < 0x80 then 0 else if b < 0xC0 then 1 else if b < 0xE0 then 2 else if b < 0xF0 then 3
    else if b < 0xF8 then 4 else if b < 0xFC then 5 else if b < 0xFE then 6 else if b < 0xFF then 7 else 8
  }

  /** `convertStrToUtf32` of a byte above 0x7F; other lengths than 2, 3 and 4 stop the program. */
  function ToUtf32(s: seq<Byte>): Option<Char> {
    var b := At(s, 0);
    match LeadingOnes(b)
    case 2 => Some(Char(Join(b % 32, s, 1), 2))
    case 3 => Some(Char(Join(Join(b % 16, s, 1), s, 2), 3))
    case 4 => Some(Char(Join(Join(Join(b % 8, s, 1), s, 2), s, 3), 4))
    case _ => None
  }

  function HexValue(b: Byte): (v: int)
    ensures -1 <= v < 16
  {
    if 0x30 <= b <= 0x39 then b - 0x30
    else if 0x61 <= b <= 0x66 then b - 0x61 + 10
    else if 0x41 <= b <= 0x46 then b - 0x41 + 10
    else -1
  }

  /** The value of `k` hexadecimal digits from index 2 on. */
  function HexDigits(s: seq<Byte>, k: nat): Option<nat>
    decreases k, |s|
  {
    if k == 0 then Some(0)
    else
      var v := HexValue(At(s, k + 1));
      match HexDigits(s, k - 1)
      case None => None
      case Some(high) => if v < 0 then None else Some(high * 16 + v)
  }

  const FAILED: Char := Char(0, 0)

  /** `parseUnicodeEscape` */
  function UnicodeEscape(s: seq<Byte>, n: nat, digits: nat): Char {
    if n < digits + 2 then FAILED
    else match HexDigits(s, digits)
      case None => FAILED
      case Some(v) => if v > 0x10FFFF || 0xD800 <= v <= 0xDFFF then FAILED else Char(v, 2 + digits)
  }

  function Plus(k: nat, c: Char): Char {
    Char(c.code, k + c.used)
  }

  /** The escape sequences of two characters. */
  function SimpleEscape(letter: Byte): Option<nat> {
    match letter
    case 0x6E => Some(0x0A)
    case 0x74 => Some(0x09)
    case 0x76 => Some(0x0B)
    case 0x72 => Some(0x0D)
    case 0x61 => Some(0x07)
    case 0x62 => Some(0x08)
    case 0x66 => Some(0x0C)
    case 0x24 => Some(0x24)
    case 0x22 => Some(0x22)
    case 0x27 => Some(0x27)
    case 0x5C => Some(0x5C)
    case _ => None
  }

  /** The cases of `convertEscapeSeq` that begin with a backslash. */
  function Escape(s: seq<Byte>, n: nat, strtoul: Strtoul): Char {
    var c := At(s, 1);
    if n <= 1 then FAILED
    else if SimpleEscape(c).Some? then Char(SimpleEscape(c).value, 2)
    else if c == 0x78 then
      if n <= 2 then FAILED else Plus(2, CharOrd(s[if |s| < 2 then |s| else 2..], 16, strtoul))
    else if c == 0x30 && (!IsOctal(At(s, 2)) || !IsOctal(At(s, 3))) then Char(0, 2)
    else if 0x30 <= c <= 0x39 then Plus(1, CharOrd(s[if |s| < 1 then |s| else 1..], 8, strtoul))
    else if c == 0x75 then UnicodeEscape(s, n, 4)
    else if c == 0x55 then UnicodeEscape(s, n, 8)
    else FAILED
  }

  /** `readChar`; nothing if one of its assertions stops the program. */
  function Read(s: seq<Byte>, len: nat, strtoul: Strtoul): Option<Char> {
    var b := At(s, 0);
    if b >= 0x80 then if LeadingOnes(b) > len then None else ToUtf32(s)
    else if len == 0 then Some(FAILED)
    else if b == BACKSLASH then Some(Escape(s, len, strtoul))
    else Some(Char(b, 1))
  }

  /** `strtoul` in base 8 reads at least the octal digits at the beginning. */
  ghost predicate ReadsOctal(strtoul: Strtoul) {
    forall s: seq<Byte> :: |s| >= 3 && IsOctal(s[0]) && IsOctal(s[1]) && IsOctal(s[2]) ==> strtoul(s, 8).count >= 3
  }

  /** A NUL is printed as a backslash and a zero, which two octal digits behind it turn into something else. */
  predicate Ambiguous(chr: nat, rest: seq<Byte>) {
    chr == 0 && IsOctal(At(rest, 0)) && IsOctal(At(rest, 1))
  }

  /** Reading what was printed gives the character back, except for that. */
  lemma ReadUndoesPrint(chr: nat, rest: seq<Byte>, len: nat, strtoul: Strtoul)
    requires chr < 0x20_0000 && len >= |Print(chr, true)| && ReadsOctal(strtoul)
    ensures Read(Print(chr, true) + rest, len, strtoul) == Some(Char(chr, |Print(chr, true)|))
            <==> !Ambiguous(chr, rest)
  {
    var p := Print(chr, true);
    var t := p + rest;
    assert forall i :: 0 <= i < |p| ==> t[i] == p[i];
    if chr == 0 {
      ReadNul(rest, len, strtoul);
    } else if EscapeLetter(chr) != 0 {
      assert SimpleEscape(EscapeLetter(chr)) == Some(chr);
    } else if chr < 0x80 {
      assert t[0] == chr;
    } else {
      DecodeUndoesPrint(chr, rest);
      SameAsDecode(t, len);
    }
  }

  lemma ReadNul(rest: seq<Byte>, len: nat, strtoul: Strtoul)
    requires len >= 2 && ReadsOctal(strtoul)
    ensures Read([BACKSLASH, 0x30] + rest, len, strtoul) == Some(Char(0, 2)) <==> !Ambiguous(0, rest)
  {
    var t := [BACKSLASH, 0x30] + rest;
    assert At(t, 2) == At(rest, 0) && At(t, 3) == At(rest, 1);
    if Ambiguous(0, rest) {
      var u := t[1..];
      assert |u| >= 3 && u[0] == 0x30 && u[1] == rest[0] && u[2] == rest[1];
      assert strtoul(u, 8).count >= 3;
    }
  }

  /** On a first byte of a longer character, both readers do the same. */
  lemma SameAsDecode(s: seq<Byte>, len: nat)
    requires 0xC0 <= At(s, 0) < 0xF8 && len >= Decode(s).used
    ensures LeadingOnes(At(s, 0)) <= len && ToUtf32(s) == Some(Decode(s))
  {
  }
}

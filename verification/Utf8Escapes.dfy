/** Escape sequences in source text: every code point that is spelled out is read as that code point. */
module Utf8Escapes {
  import opened Numerals
  import opened Options
  import opened Utf8Codecs

  predicate IsAscii(s: string) {
    forall i :: 0 <= i < |s| ==> s[i] as int < 0x80
  }

  /** The bytes of ASCII text. */
  function Codes(s: string): (b: seq<Byte>)
    requires IsAscii(s)
    ensures |b| == |s| && forall i :: 0 <= i < |s| ==> b[i] == s[i] as int
  {
    seq(|s|, i requires 0 <= i < |s| => s[i] as int)
  }

  lemma HexByte(c: char, d: nat)
    requires IsDigitOf(c, d) && d < 16
    ensures c as int < 0x80 && HexValue(c as int) == d
  {
    DigitIs(d);
  }

  /** `k` hexadecimal digits behind a backslash and a letter. */
  lemma {:induction false} SpelledHex(s: seq<Byte>, h: string, ds: seq<nat>, k: nat)
    requires IsAscii(h) && Spells(h, ds) && DigitsBelow(ds, 16) && k <= |h| && |s| >= |h| + 2
    requires forall i :: 0 <= i < |h| ==> s[i + 2] == h[i] as int
    ensures HexDigits(s, k) == Some(Horner(ds[..k], 16))
    decreases k
  {
    if k > 0 {
      SpelledHex(s, h, ds, k - 1);
      HexByte(h[k - 1], ds[k - 1]);
      assert s[k + 1] == h[k - 1] as int;
      assert ds[..k] == ds[..k - 1] + [ds[k - 1]];
      HornerOneMore(ds[..k - 1], ds[k - 1], 16);
    }
  }

  /** `\u` with four digits or `\U` with eight. */
  datatype Escaped = Escaped(capital: bool, digits: string)

  function Written(e: Escaped): string {
    (if e.capital then "\\U" else "\\u") + e.digits
  }

  predicate IsCodePoint(c: nat) {
    c <= 0x10_FFFF && !(0xD800 <= c <= 0xDFFF)
  }

  /** A code point in either form is read as that code point, with as many characters as it was written with. */
  lemma EscapedIsRead(e: Escaped, ds: seq<nat>, c: nat, rest: seq<Byte>, len: nat, strtoul: Strtoul)
    requires IsCodePoint(c) && Spells(e.digits, ds) && DigitsBelow(ds, 16) && Horner(ds, 16) == c
    requires |e.digits| == if e.capital then 8 else 4
    requires len >= |Written(e)|
    ensures IsAscii(Written(e))
    ensures Read(Codes(Written(e)) + rest, len, strtoul) == Some(Char(c, |Written(e)|))
  {
    WrittenIs(e, ds);
    var s := Codes(Written(e)) + rest;
    assert forall i :: 0 <= i < |e.digits| ==> s[i + 2] == e.digits[i] as int;
    SpelledHex(s, e.digits, ds, |e.digits|);
    assert ds[..|e.digits|] == ds;
    assert s[0] == BACKSLASH && s[1] == (if e.capital then 0x55 else 0x75);
    hide Spells, DigitsBelow, Horner, HexDigits, Codes, Written, IsAscii;
    UnicodeIsRead(s, len, e.capital, c, strtoul);
  }

  lemma UnicodeIsRead(s: seq<Byte>, len: nat, capital: bool, c: nat, strtoul: Strtoul)
    requires |s| >= 2 && s[0] == BACKSLASH && s[1] == (if capital then 0x55 else 0x75) && IsCodePoint(c)
    requires len >= (if capital then 10 else 6) && HexDigits(s, if capital then 8 else 4) == Some(c)
    ensures Read(s, len, strtoul) == Some(Char(c, if capital then 10 else 6))
  {
    hide HexDigits;
  }

  lemma WrittenIs(e: Escaped, ds: seq<nat>)
    requires Spells(e.digits, ds) && DigitsBelow(ds, 16)
    ensures IsAscii(e.digits) && IsAscii(Written(e)) && |Written(e)| == |e.digits| + 2
    ensures Written(e)[0] == '\\' && Written(e)[1] == (if e.capital then 'U' else 'u')
    ensures forall i :: 0 <= i < |e.digits| ==> Written(e)[i + 2] == e.digits[i]
  {
    forall i | 0 <= i < |e.digits|
      ensures e.digits[i] as int < 0x80
    {
      HexByte(e.digits[i], ds[i]);
    }
  }

  /** The escape sequences of one letter. */
  lemma LettersAreRead(rest: seq<Byte>, len: nat, strtoul: Strtoul)
    requires len >= 2
    ensures forall i :: 0 <= i < 11 ==>
              Read(Codes(['\\', "ntvrabf$\"\'\\"[i]]) + rest, len, strtoul)
              == Some(Char([10, 9, 11, 13, 7, 8, 12, '$' as int, '\"' as int, '\'' as int, '\\' as int][i], 2))
  {
    forall i | 0 <= i < 11
      ensures Read(Codes(['\\', "ntvrabf$\"\'\\"[i]]) + rest, len, strtoul)
              == Some(Char([10, 9, 11, 13, 7, 8, 12, '$' as int, '\"' as int, '\'' as int, '\\' as int][i], 2))
    {
      var c := "ntvrabf$\"\'\\"[i];
      var s := Codes(['\\', c]) + rest;
      assert s[0] == BACKSLASH && s[1] == c as int;
    }
  }

  /**
   Escape sequences with numbers, where `strtoul` reads `count` digits as `v`: behind `\x` in base 16, and from the
   first digit on in base 8, unless that is a zero without two octal digits behind it. Beyond 255 nothing is read but
   the `\x` or the backslash.
   */
  lemma NumbersAreRead(s: seq<Byte>, v: nat, count: nat, len: nat, strtoul: Strtoul)
    requires |s| >= 4 && s[0] == '\\' as int && len >= 3 && v < 0x1_0000_0000
    ensures s[1] == 'x' as int && strtoul(s[2..], 16) == Ordinal(v, count, false) ==>
              Read(s, len, strtoul) == Some(Char(v, 2 + if v <= 255 then count else 0))
    ensures '0' as int <= s[1] <= '9' as int && strtoul(s[1..], 8) == Ordinal(v, count, false)
            && (s[1] == '0' as int ==> '0' as int <= s[2] <= '7' as int && '0' as int <= s[3] <= '7' as int) ==>
              Read(s, len, strtoul) == Some(Char(v, 1 + if v <= 255 then count else 0))
    ensures s[1] == '0' as int && !('0' as int <= s[2] <= '7' as int && '0' as int <= s[3] <= '7' as int) ==>
              Read(s, len, strtoul) == Some(Char(0, 2))
  {
  }
}

/** String literals: how far the decoder reads, how much it writes, and that it keeps UTF-8 valid. */
module JsonDecode {
  import opened CStrings
  import opened JsonParse
  import opened JsonTree
  import opened Options
  import opened Utf8Text

  // The second pass follows the first

  predicate Ordinary(c: char) {
    c != '\"' && c != '\\'
  }

  /** Over a run without quotes and backslashes both passes advance alike. */
  lemma {:induction false} ScanRun(s: string, n: nat, k: nat)
    requires ScanLength(s) == Some(n)
    requires k <= |s| && forall i :: 0 <= i < k ==> Ordinary(s[i])
    ensures k <= n && ScanLength(s[k..]) == Some(n - k)
    ensures Counted(s, n) == k + Counted(s[k..], n - k)
    decreases k
  {
    if k > 0 {
      ScanRun(s[1..], n - 1, k - 1);
      assert s[1..][k - 1..] == s[k..];
    } else {
      assert s[0..] == s;
    }
  }

  lemma HexIsOrdinary(s: string, i: nat)
    requires HexValue(At(s, i)) >= 0
    ensures i < |s| && Ordinary(s[i])
  {
  }

  lemma HexDigitsAreOrdinary(s: string, i: nat)
    requires Hex4(s, i) != 0
    ensures i + 4 <= |s| && forall k :: i <= k < i + 4 ==> Ordinary(s[k])
  {
    assert HexDigits(s, i, 4) > 0;
    assert HexDigits(s, i, 3) >= 0 && HexDigits(s, i, 2) >= 0 && HexDigits(s, i, 1) >= 0;
    HexIsOrdinary(s, i);
    HexIsOrdinary(s, i + 1);
    HexIsOrdinary(s, i + 2);
    HexIsOrdinary(s, i + 3);
  }

  /** What one turn of the second pass leaves is again a literal that the first pass has measured. */
  ghost predicate Aligned(s: string, n: nat, p: Piece)
    requires n <= |s|
  {
    p.used <= n && ScanLength(s[p.used..]) == Some(n - p.used)
    && |p.text| + Counted(s[p.used..], n - p.used) <= Counted(s, n)
  }

  /** A backslash, one more character, and four digits of a code unit. */
  lemma ScanUnit(s: string, n: nat)
    requires ScanLength(s) == Some(n) && n > 0 && s[0] == '\\' && Hex4(s, 2) != 0
    ensures 6 <= n && ScanLength(s[6..]) == Some(n - 6)
    ensures Counted(s, n) == 5 + Counted(s[6..], n - 6)
  {
    HexDigitsAreOrdinary(s, 2);
    var t := s[2..];
    forall i | 0 <= i < 4
      ensures Ordinary(t[i])
    {
      assert t[i] == s[2 + i];
    }
    ScanRun(t, n - 2, 4);
    assert t[4..] == s[6..];
  }

  lemma HexShifted(s: string, i: nat, k: nat)
    requires k <= i && k <= |s|
    ensures Hex4(s, i) == Hex4(s[k..], i - k)
  {
    var t := s[k..];
    assert forall j :: i <= j ==> At(s, j) == At(t, j - k);
    assert HexDigits(s, i, 1) == HexDigits(t, i - k, 1);
    assert HexDigits(s, i, 2) == HexDigits(t, i - k, 2);
    assert HexDigits(s, i, 3) == HexDigits(t, i - k, 3);
  }

  lemma UnicodeAligned(s: string, n: nat, p: Piece)
    requires ScanLength(s) == Some(n) && n > 0 && s[0] == '\\'
    requires DecodeUnicode(s, n) == Some(p)
    ensures Aligned(s, n, p)
  {
    ScanUnit(s, n);
    if p.used == 12 {
      var t := s[6..];
      HexShifted(s, 8, 6);
      assert Hex4(s, 8) != 0;
      HexDigitsAreOrdinary(s, 8);
      assert t[0] == '\\';
      ScanUnit(t, n - 6);
      assert t[6..] == s[12..];
    }
  }

  lemma StepAligned(s: string, n: nat, p: Piece)
    requires ScanLength(s) == Some(n) && n > 0 && DecodeStep(s, n) == Some(p)
    ensures Aligned(s, n, p)
  {
    if s[0] != '\\' {
      assert p == Piece([s[0]], 1);
    } else if At(s, 1) == 'u' {
      UnicodeAligned(s, n, p);
    } else {
      assert p.used == 2 && |p.text| == 1;
    }
  }

  /** Decoding stops exactly where the literal ends and never outgrows the counted length. */
  lemma {:induction false} DecodeFits(s: string, n: nat)
    requires ScanLength(s) == Some(n)
    ensures Decode(s, n).Some? ==>
              Decode(s, n).value.used == n && |Decode(s, n).value.text| <= Counted(s, n)
    decreases n
  {
    if n > 0 && DecodeStep(s, n).Some? {
      var p := DecodeStep(s, n).value;
      StepAligned(s, n, p);
      DecodeFits(s[p.used..], n - p.used);
    }
  }

  /** So a literal that ends with a quote is left right behind that quote. */
  lemma ParseStringStopsAtQuote(s: string, n: nat)
    requires s != [] && s[0] == '\"' && ScanLength(s[1..]) == Some(n)
    ensures ParseString(s).Some? ==> ParseString(s).value.rest == Drop(s, if At(s, n + 1) == '\"' then n + 2 else n + 1)
  {
    DecodeFits(s[1..], n);
    if n + 1 < |s| {
      assert s[1..][n] == s[n + 1];
      assert s[1..][n + 1..] == s[n + 2..];
    }
    assert s[1..][n..] == s[n + 1..];
  }

  // UTF-8

  /** Every code point that is not a surrogate is written as one well-formed character. */
  lemma Utf8IsOneChar(code: nat)
    requires code < 0x11_0000 && !(0xD800 <= code <= 0xDFFF)
    ensures CharLength(Utf8(code)) == |Utf8(code)|
    ensures !IsTail(Utf8(code)[0])
    ensures code > 0 ==> '\0' !in Utf8(code)
  {
    var t := Utf8(code);
    if code < 0x800 {
    } else if code < 0x1_0000 {
      ThreeBytes(code, t);
    } else {
      FourBytes(code, t);
    }
  }

  lemma ThreeBytes(code: nat, t: string)
    requires 0x800 <= code < 0x1_0000 && !(0xD800 <= code <= 0xDFFF)
    requires t == Utf8(code)
    ensures CharLength(t) == 3
  {
    var a, b := code / 4096, code / 64 % 64;
    assert code / 64 == 64 * a + b;
    assert a == 0 ==> b >= 0x20;
    assert a == 0xD ==> b < 0x20;
  }

  lemma FourBytes(code: nat, t: string)
    requires 0x1_0000 <= code < 0x11_0000
    requires t == Utf8(code)
    ensures CharLength(t) == 4
  {
    var a, b := code / 262144, code / 4096 % 64;
    assert code / 4096 == 64 * a + b;
    assert a == 0 ==> b >= 0x10;
    assert a == 4 ==> b < 0x10;
  }

  /** An escape sequence is ASCII and stands for one whole character other than NUL. */
  lemma EscapeIsOneChar(s: string, n: nat, p: Piece)
    requires IsText(s) && ScanLength(s) == Some(n) && n > 0
    requires s[0] == '\\' && DecodeStep(s, n) == Some(p)
    ensures p.used <= n && IsReplacement(Chunk(s[..p.used], p.text)) && '\0' !in p.text
  {
    StepAligned(s, n, p);
    if At(s, 1) == 'u' {
      UnicodeIsAscii(s, n, p);
      UnicodeIsOneChar(s, n, p);
    }
  }

  lemma UnicodeIsOneChar(s: string, n: nat, p: Piece)
    requires DecodeUnicode(s, n) == Some(p)
    ensures CharLength(p.text) == |p.text| && !IsTail(p.text[0]) && '\0' !in p.text
  {
    var uc, uc2 := Hex4(s, 2), Hex4(s, 8);
    if 0xD800 <= uc <= 0xDBFF {
      Utf8IsOneChar(0x1_0000 + (uc - 0xD800) * 0x400 + (uc2 - 0xDC00));
    } else {
      Utf8IsOneChar(uc);
    }
  }

  lemma HexIsAscii(s: string, i: nat)
    requires Hex4(s, i) != 0
    ensures i + 4 <= |s| && forall k :: i <= k < i + 4 ==> s[k] as int < 0x80
  {
    assert HexDigits(s, i, 4) > 0;
    assert HexDigits(s, i, 3) >= 0 && HexDigits(s, i, 2) >= 0 && HexDigits(s, i, 1) >= 0;
    assert HexValue(At(s, i)) >= 0 && HexValue(At(s, i + 1)) >= 0;
    assert HexValue(At(s, i + 2)) >= 0 && HexValue(At(s, i + 3)) >= 0;
  }

  lemma UnicodeIsAscii(s: string, n: nat, p: Piece)
    requires s != [] && s[0] == '\\' && At(s, 1) == 'u' && DecodeUnicode(s, n) == Some(p) && p.used <= |s|
    ensures forall i :: 0 <= i < p.used ==> s[i] as int < 0x80
  {
    HexIsAscii(s, 2);
    if p.used == 12 {
      HexIsAscii(s, 8);
    }
  }

  /** The literal cut into single bytes and escape sequences, with what each of them becomes. */
  lemma {:induction false} DecodeInChunks(s: string, n: nat, t: string) returns (cs: seq<Chunk>)
    requires IsText(s) && ScanLength(s) == Some(n) && Decode(s, n) == Some(Piece(t, n))
    ensures Chunks(cs) && Raw(cs) == s[..n] && Text(cs) == t && '\0' !in t
    decreases n
  {
    cs := [];
    if n > 0 {
      var p, more := DecodeOneStep(s, n, t);
      var k := p.used;
      StepIsChunk(s, n, p);
      var rest := DecodeInChunks(s[k..], n - k, more);
      cs := [Chunk(s[..k], p.text)] + rest;
      OneMoreChunk(Chunk(s[..k], p.text), rest);
      TakeInTwo(s, k, n);
    }
  }

  lemma TakeInTwo(s: string, k: nat, n: nat)
    requires k <= n <= |s|
    ensures s[..n] == s[..k] + s[k..][..n - k]
  {
  }

  lemma DecodeOneStep(s: string, n: nat, t: string) returns (p: Piece, more: string)
    requires n > 0 && ScanLength(s) == Some(n) && Decode(s, n) == Some(Piece(t, n))
    ensures DecodeStep(s, n) == Some(p) && 0 < p.used <= n && t == p.text + more
    ensures ScanLength(s[p.used..]) == Some(n - p.used)
    ensures Decode(s[p.used..], n - p.used) == Some(Piece(more, n - p.used))
  {
    p := DecodeStep(s, n).value;
    StepAligned(s, n, p);
    more := Decode(s[p.used..], n - p.used).value.text;
    DecodeFits(s[p.used..], n - p.used);
  }

  lemma StepIsChunk(s: string, n: nat, p: Piece)
    requires IsText(s) && ScanLength(s) == Some(n) && n > 0 && DecodeStep(s, n) == Some(p)
    ensures p.used <= n && '\0' !in p.text
    ensures var c := Chunk(s[..p.used], p.text); IsCopy(c) || IsReplacement(c)
  {
    if s[0] == '\\' {
      EscapeIsOneChar(s, n, p);
    } else {
      assert s[..1] == [s[0]];
    }
  }

  /** The decoded string is valid UTF-8 exactly if the literal is, and holds no NUL. */
  lemma DecodeKeepsUtf8(s: string, n: nat)
    requires IsText(s) && ScanLength(s) == Some(n) && Decode(s, n).Some?
    ensures ValidUtf8(Decode(s, n).value.text) <==> ValidUtf8(s[..n])
    ensures '\0' !in Decode(s, n).value.text
  {
    var t := Decode(s, n).value.text;
    DecodeFits(s, n);
    var cs := DecodeInChunks(s, n, t);
    KeepsUtf8(cs);
  }
}

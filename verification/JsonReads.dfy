/** The parser reads every JSON text as the tree that it denotes. */
module JsonReads {
  import Utf8Codecs
  import opened CStrings
  import opened JsonParse
  import opened JsonRoundTrip
  import opened JsonSpelling
  import opened JsonText
  import opened Numerals
  import opened Options

  // Characters

  lemma HexSpelled(c: char, d: nat)
    requires IsDigitOf(c, d) && d < 16
    ensures HexValue(c) == d && c != '\"' && c != '\\'
  {
    DigitIs(d);
  }

  lemma UnitSpelled(h: string, u: nat)
    requires SpellsUnit(h, u)
    ensures HexValue(h[0]) == u / 4096 && HexValue(h[1]) == u / 256 % 16
    ensures HexValue(h[2]) == u / 16 % 16 && HexValue(h[3]) == u % 16
    ensures forall i :: 0 <= i < 4 ==> h[i] != '\"' && h[i] != '\\'
  {
    HexSpelled(h[0], u / 4096);
    HexSpelled(h[1], u / 256 % 16);
    HexSpelled(h[2], u / 16 % 16);
    HexSpelled(h[3], u % 16);
  }

  lemma HexJoins(u: nat)
    ensures u / 4096 * 16 + u / 256 % 16 == u / 256
    ensures u / 256 * 16 + u / 16 % 16 == u / 16
    ensures u / 16 * 16 + u % 16 == u
  {
  }

  /** Four digits at an index. */
  lemma UnitIsRead(s: string, i: nat, h: string, u: nat)
    requires SpellsUnit(h, u) && i + 4 <= |s| && s[i..i + 4] == h
    ensures Hex4(s, i) == u
  {
    UnitSpelled(h, u);
    HexJoins(u);
    assert At(s, i) == s[i..i + 4][0] && At(s, i + 1) == s[i..i + 4][1];
    assert At(s, i + 2) == s[i..i + 4][2] && At(s, i + 3) == s[i..i + 4][3];
    hide HexValue, SpellsUnit, At;
    assert HexDigits(s, i, 0) == 0;
    assert HexDigits(s, i, 1) == u / 4096;
    assert HexDigits(s, i, 2) == u / 256;
    assert HexDigits(s, i, 3) == u / 16;
    assert HexDigits(s, i, 4) == u;
  }

  /** The bytes of a code point, as another encoder writes them. */
  lemma SameUtf8(code: nat)
    requires code <= 0x10_FFFF
    ensures Utf8(code) == Chars(Utf8Codecs.Encode(code))
  {
  }

  /** What stands where in an escape sequence. */
  lemma UnitAt(h: string, rest: string)
    requires |h| == 4
    ensures var s := "\\u" + h + rest;
            |s| == 6 + |rest| && s[0] == '\\' && s[1] == 'u' && s[2..6] == h && s[6..] == rest
  {
  }

  lemma DecodeUnit(ch: Ch, rest: string, n: nat)
    requires ch.Unit? && ChOk(ch) && 6 <= n <= |Written(ch) + rest|
    ensures DecodeStep(Written(ch) + rest, n) == Some(Piece(Means(ch), 6))
  {
    HexLengths(ch);
    hide DecodeUnicode, Hex4, Utf8, SpellsUnit, Chars, Utf8Codecs.Encode;
    UnitAt(ch.hex, rest);
    UnitStep("\\u" + ch.hex + rest, n, ch.hex, ch.code);
    SameUtf8(ch.code);
  }

  lemma UnitStep(s: string, n: nat, h: string, code: nat)
    requires 6 <= n <= |s| && s[0] == '\\' && s[1] == 'u' && s[2..6] == h
    requires SpellsUnit(h, code) && 0 < code < 0x1_0000 && !IsSurrogate(code)
    ensures DecodeStep(s, n) == Some(Piece(Utf8(code), 6))
  {
    hide DecodeUnicode, Hex4, Utf8, SpellsUnit;
    UnitIsRead(s, 2, h, code);
    UnitDecoded(s, n, code);
  }

  lemma UnitDecoded(s: string, n: nat, code: nat)
    requires 0 < code < 0x1_0000 && !IsSurrogate(code) && n >= 6 && Hex4(s, 2) == code
    ensures DecodeUnicode(s, n) == Some(Piece(Utf8(code), 6))
  {
    hide Hex4, Utf8;
  }

  lemma PairInTwo(high: string, low: string, rest: string)
    ensures "\\u" + high + "\\u" + low + rest == "\\u" + high + ("\\u" + low + rest)
  {
    Assoc("\\u" + high, "\\u", low);
    Assoc("\\u" + high, "\\u" + low, rest);
  }

  lemma PairAt(high: string, low: string, rest: string)
    requires |high| == 4 && |low| == 4
    ensures var s := "\\u" + high + "\\u" + low + rest;
            && |s| == 12 + |rest| && s[0] == '\\' && s[1] == 'u' && s[2..6] == high
            && s[6] == '\\' && s[7] == 'u' && s[8..12] == low
  {
    var s, t := "\\u" + high + "\\u" + low + rest, "\\u" + low + rest;
    PairInTwo(high, low, rest);
    UnitAt(low, rest);
    UnitAt(high, t);
    assert s[6] == s[6..][0] && s[7] == s[6..][1] && s[8..12] == s[6..][2..6];
  }

  lemma DecodePair(ch: Ch, rest: string, n: nat)
    requires ch.Pair? && ChOk(ch) && 12 <= n <= |Written(ch) + rest|
    ensures DecodeStep(Written(ch) + rest, n) == Some(Piece(Means(ch), 12))
  {
    hide DecodeUnicode, Utf8, SpellsUnit, Hex4;
    var s := Written(ch) + rest;
    assert |ch.high| == 4 && |ch.low| == 4 by { HexLengths(ch); }
    PairAt(ch.high, ch.low, rest);
    assert s == "\\u" + ch.high + "\\u" + ch.low + rest;
    hide Written;
    UnitIsRead(s, 2, ch.high, 0xD800 + (ch.code - 0x1_0000) / 0x400);
    UnitIsRead(s, 8, ch.low, 0xDC00 + (ch.code - 0x1_0000) % 0x400);
    PairDecoded(s, n, ch.code);
    SameUtf8(ch.code);
  }

  lemma HexLengths(ch: Ch)
    requires ChOk(ch)
    ensures ch.Unit? ==> |ch.hex| == 4
    ensures ch.Pair? ==> |ch.high| == 4 && |ch.low| == 4
    ensures |Written(ch)| == if ch.Plain? then 1 else if ch.Short? then 2 else if ch.Unit? then 6 else 12
  {
  }

  lemma PairDecoded(s: string, n: nat, code: nat)
    requires 0x1_0000 <= code <= 0x10_FFFF && n >= 12 && At(s, 6) == '\\' && At(s, 7) == 'u'
    requires Hex4(s, 2) == 0xD800 + (code - 0x1_0000) / 0x400 && Hex4(s, 8) == 0xDC00 + (code - 0x1_0000) % 0x400
    ensures DecodeUnicode(s, n) == Some(Piece(Utf8(code), 12))
  {
    hide Hex4, Utf8;
    var c := code - 0x1_0000;
    assert c == c / 0x400 * 0x400 + c % 0x400 && c / 0x400 < 0x400;
  }

  lemma DecodeCh(ch: Ch, rest: string, n: nat)
    requires ChOk(ch) && |Written(ch)| <= n <= |Written(ch) + rest|
    ensures |Written(ch)| > 0
    ensures DecodeStep(Written(ch) + rest, n) == Some(Piece(Means(ch), |Written(ch)|))
  {
    HexLengths(ch);
    hide DecodeStep, Means, Written, SpellsUnit;
    match ch
    case Plain(_) => DecodeSimple(ch, rest, n);
    case Short(_) => DecodeSimple(ch, rest, n);
    case Unit(_, _) => DecodeUnit(ch, rest, n);
    case Pair(_, _, _) => DecodePair(ch, rest, n);
  }

  lemma DecodeSimple(ch: Ch, rest: string, n: nat)
    requires ChOk(ch) && (ch.Plain? || ch.Short?) && |Written(ch)| <= n <= |Written(ch) + rest|
    ensures DecodeStep(Written(ch) + rest, n) == Some(Piece(Means(ch), |Written(ch)|))
  {
    hide DecodeUnicode, SpellsUnit;
    var s := Written(ch) + rest;
    assert s[0] == Written(ch)[0] && (ch.Short? ==> s[1] == ch.letter);
  }

  lemma {:induction false} ScanPlain(x: string, rest: string, n: nat)
    requires (forall i :: 0 <= i < |x| ==> x[i] != '\"' && x[i] != '\\') && ScanLength(rest) == Some(n)
    ensures ScanLength(x + rest) == Some(|x| + n)
    decreases |x|
  {
    if x == [] {
      assert x + rest == rest;
    } else {
      assert (x + rest)[0] == x[0] && (x + rest)[1..] == x[1..] + rest;
      ScanPlain(x[1..], rest, n);
    }
  }

  lemma ScanUnit(h: string, u: nat, rest: string, n: nat)
    requires SpellsUnit(h, u) && ScanLength(rest) == Some(n)
    ensures ScanLength("\\u" + h + rest) == Some(6 + n)
  {
    var s := "\\u" + h + rest;
    UnitSpelled(h, u);
    ScanPlain(h, rest, n);
    assert s[0] == '\\' && s[2..] == h + rest;
  }

  lemma ScanShort(letter: char, rest: string, n: nat)
    requires ScanLength(rest) == Some(n)
    ensures ScanLength(['\\', letter] + rest) == Some(2 + n)
  {
    var s := ['\\', letter] + rest;
    assert s[0] == '\\' && s[2..] == rest;
  }

  lemma ScanPair(ch: Ch, rest: string, n: nat)
    requires ch.Pair? && ChOk(ch) && ScanLength(rest) == Some(n)
    ensures ScanLength(Written(ch) + rest) == Some(12 + n)
  {
    hide ScanLength, SpellsUnit;
    PairInTwo(ch.high, ch.low, rest);
    ScanUnit(ch.low, 0xDC00 + (ch.code - 0x1_0000) % 0x400, rest, n);
    ScanUnit(ch.high, 0xD800 + (ch.code - 0x1_0000) / 0x400, "\\u" + ch.low + rest, 6 + n);
  }

  lemma ScanCh(ch: Ch, rest: string, n: nat)
    requires ChOk(ch) && ScanLength(rest) == Some(n)
    ensures ScanLength(Written(ch) + rest) == Some(|Written(ch)| + n)
  {
    HexLengths(ch);
    hide ScanLength, SpellsUnit;
    match ch
    case Plain(c) => ScanPlain([c], rest, n);
    case Short(letter) => ScanShort(letter, rest, n);
    case Unit(code, hex) => ScanUnit(hex, code, rest, n);
    case Pair(_, _, _) => ScanPair(ch, rest, n);
  }

  // Strings

  function Length(chs: seq<Ch>): nat {
    if chs == [] then 0 else |Written(chs[0])| + Length(chs[1..])
  }

  lemma ScanQuote(rest: string)
    ensures ScanLength("\"" + rest) == Some(0)
    ensures CharsTo([], "\"" + rest) == "\"" + rest && Length([]) == 0
  {
    assert ("\"" + rest)[0] == '\"';
  }

  lemma {:induction false} ScanChars(chs: seq<Ch>, rest: string)
    requires AllOk(chs)
    ensures ScanLength(CharsTo(chs, "\"" + rest)) == Some(Length(chs))
    decreases |chs|
  {
    if chs == [] {
      hide *;
      ScanQuote(rest);
    } else {
      hide ScanLength, Written, ChOk;
      ScanChars(chs[1..], rest);
      ScanCh(chs[0], CharsTo(chs[1..], "\"" + rest), Length(chs[1..]));
    }
  }

  lemma {:induction false} DecodeChars(chs: seq<Ch>, rest: string)
    requires AllOk(chs)
    ensures |CharsTo(chs, rest)| == Length(chs) + |rest| && CharsTo(chs, rest)[Length(chs)..] == rest
    ensures Decode(CharsTo(chs, rest), Length(chs)) == Some(Piece(TextMeans(chs), Length(chs)))
    decreases |chs|
  {
    if chs != [] {
      var x, y, n := Written(chs[0]), CharsTo(chs[1..], rest), Length(chs);
      DecodeChars(chs[1..], rest);
      assert (x + y)[n..] == y[n - |x|..];
      DecodeCh(chs[0], y, n);
      DecodeMore(x, y, n, Means(chs[0]), TextMeans(chs[1..]));
    }
  }

  /** Every spelling of a string is read as the bytes that it stands for, whatever follows it. */
  lemma LiteralIsRead(chs: seq<Ch>, rest: string)
    requires AllOk(chs)
    ensures ParseString(LiteralTo(chs, rest)) == Some(Parsed(TextMeans(chs), rest))
  {
    var e, n := CharsTo(chs, "\"" + rest), Length(chs);
    ScanChars(chs, rest);
    DecodeChars(chs, "\"" + rest);
    QuotesAround(e, n, rest);
    hide Decode, ScanLength, CharsTo, TextMeans, Length, AllOk, Drop, At, ParseString;
    ParsedLiteral(e, n, TextMeans(chs), rest);
  }

  lemma ParsedLiteral(e: string, n: nat, t: string, rest: string)
    requires ScanLength(e) == Some(n) && Decode(e, n) == Some(Piece(t, n))
    requires At(e, n) == '\"' && Drop(e, n + 1) == rest
    ensures ParseString("\"" + e) == Some(Parsed(t, rest))
  {
    hide Decode, ScanLength, Drop, At;
    assert ("\"" + e)[0] == '\"' && ("\"" + e)[1..] == e;
  }

  lemma QuotesAround(e: string, n: nat, rest: string)
    requires n <= |e| && e[n..] == "\"" + rest
    ensures At(e, n) == '\"' && Drop(e, n + 1) == rest
  {
    assert e[n] == e[n..][0] && e[n + 1..] == e[n..][1..];
  }

  // What a decoder that knows nothing of JSON makes of it

  predicate AreBytes(s: string) {
    forall i :: 0 <= i < |s| ==> s[i] as int < 256
  }

  function BytesOf(s: string): (b: seq<Utf8Codecs.Byte>)
    requires AreBytes(s)
    ensures |b| == |s|
  {
    seq(|s|, i requires 0 <= i < |s| => s[i] as int)
  }

  /**
   Every code point but NUL and the surrogates, written as one escape or as a surrogate pair, is read as bytes that
   are decoded to that code point, whatever comes behind them.
   */
  lemma CodePointIsRead(ch: Ch, rest: string, more: seq<Utf8Codecs.Byte>)
    requires ChOk(ch) && (ch.Unit? || ch.Pair?)
    ensures var r := ParseString("\"" + Written(ch) + "\"" + rest);
            && r.Some? && r.value.rest == rest && AreBytes(r.value.value)
            && Utf8Codecs.Decode(BytesOf(r.value.value) + more) == Utf8Codecs.Char(ch.code, |r.value.value|)
  {
    var t := Means(ch);
    OneCharacter(ch, rest);
    LiteralIsRead([ch], rest);
    hide ParseString, Means, Utf8Codecs.Decode;
    assert BytesOf(t) == Utf8Codecs.Encode(ch.code) by { MeansBytes(ch); }
    MeansBytes(ch);
    Utf8Codecs.DecodeUndoesPrint(ch.code, more);
  }

  lemma OneCharacter(ch: Ch, rest: string)
    requires ChOk(ch)
    ensures AllOk([ch]) && TextMeans([ch]) == Means(ch)
    ensures "\"" + Written(ch) + "\"" + rest == LiteralTo([ch], rest)
  {
    assert [ch][1..] == [] && TextMeans([]) == [] && CharsTo([], "\"" + rest) == "\"" + rest;
    assert Means(ch) + [] == Means(ch);
    Assoc("\"" + Written(ch), "\"", rest);
    Assoc("\"", Written(ch), "\"" + rest);
  }

  lemma MeansBytes(ch: Ch)
    requires ChOk(ch) && (ch.Unit? || ch.Pair?)
    ensures AreBytes(Means(ch)) && BytesOf(Means(ch)) == Utf8Codecs.Encode(ch.code)
  {
    hide Utf8Codecs.Encode, SpellsUnit;
  }

  // What is refused

  /** A NUL or the second half of a pair. */
  lemma NoCharacterIsRefused(h: string, u: nat, rest: string)
    requires SpellsUnit(h, u) && (u == 0 || 0xDC00 <= u <= 0xDFFF)
    ensures ParseString("\"" + ("\\u" + h + ("\"" + rest))) == None
  {
    var e := "\\u" + h + ("\"" + rest);
    HexFour(h, u);
    UnitAt(h, "\"" + rest);
    UnitIsRead(e, 2, h, u);
    ScanQuote(rest);
    ScanUnit(h, u, "\"" + rest, 0);
    hide Hex4, SpellsUnit, Utf8;
    assert DecodeUnicode(e, 6) == None;
    hide *;
    NotDecoded(e, 6);
  }

  lemma HexFour(h: string, u: nat)
    requires SpellsUnit(h, u)
    ensures |h| == 4
  {
  }

  lemma NotDecoded(e: string, n: nat)
    requires 2 <= n && ScanLength(e) == Some(n)
    requires |e| >= 2 && e[0] == '\\' && e[1] == 'u' && DecodeUnicode(e, n) == None
    ensures ParseString("\"" + e) == None
  {
    hide DecodeUnicode, ScanLength;
    assert DecodeStep(e, n) == None;
    hide DecodeStep;
    assert ("\"" + e)[0] == '\"' && ("\"" + e)[1..] == e;
  }

  /** The first half of a pair without a second one: at the end of the literal, or in front of another escape. */
  lemma FirstHalfIsRefused(h: string, u: nat, rest: string)
    requires SpellsUnit(h, u) && 0xD800 <= u <= 0xDBFF
    ensures ParseString("\"" + ("\\u" + h + ("\"" + rest))) == None
  {
    var e := "\\u" + h + ("\"" + rest);
    HexFour(h, u);
    UnitAt(h, "\"" + rest);
    UnitIsRead(e, 2, h, u);
    ScanQuote(rest);
    ScanUnit(h, u, "\"" + rest, 0);
    hide Hex4, SpellsUnit, Utf8;
    assert DecodeUnicode(e, 6) == None;
    hide *;
    NotDecoded(e, 6);
  }

  lemma OtherHalf(s: string, n: nat)
    requires 0xD800 <= Hex4(s, 2) <= 0xDBFF && !(0xDC00 <= Hex4(s, 8) <= 0xDFFF)
    ensures DecodeUnicode(s, n) == None
  {
    hide Hex4, Utf8;
  }

  lemma TwoUnits(h: string, u: nat, h2: string, u2: nat, rest: string)
    requires SpellsUnit(h, u) && SpellsUnit(h2, u2)
    ensures var e := "\\u" + h + "\\u" + h2 + ("\"" + rest);
            |e| >= 12 && e[0] == '\\' && e[1] == 'u' && Hex4(e, 2) == u && Hex4(e, 8) == u2
  {
    HexFour(h, u);
    HexFour(h2, u2);
    PairAt(h, h2, "\"" + rest);
    hide Hex4, SpellsUnit;
    UnitIsRead("\\u" + h + "\\u" + h2 + ("\"" + rest), 2, h, u);
    UnitIsRead("\\u" + h + "\\u" + h2 + ("\"" + rest), 8, h2, u2);
  }

  lemma TwoUnitsScanned(h: string, u: nat, h2: string, u2: nat, rest: string)
    requires SpellsUnit(h, u) && SpellsUnit(h2, u2)
    ensures ScanLength("\\u" + h + "\\u" + h2 + ("\"" + rest)) == Some(12)
  {
    hide ScanLength, SpellsUnit;
    ScanQuote(rest);
    ScanUnit(h2, u2, "\"" + rest, 0);
    ScanUnit(h, u, "\\u" + h2 + ("\"" + rest), 6);
    PairInTwo(h, h2, "\"" + rest);
  }

  lemma OtherHalfIsRefused(h: string, u: nat, h2: string, u2: nat, rest: string)
    requires SpellsUnit(h, u) && 0xD800 <= u <= 0xDBFF && SpellsUnit(h2, u2) && !(0xDC00 <= u2 <= 0xDFFF)
    ensures ParseString("\"" + ("\\u" + h + "\\u" + h2 + ("\"" + rest))) == None
  {
    TwoUnits(h, u, h2, u2, rest);
    TwoUnitsScanned(h, u, h2, u2, rest);
    OtherHalf("\\u" + h + "\\u" + h2 + ("\"" + rest), 12);
    hide *;
    NotDecoded("\\u" + h + "\\u" + h2 + ("\"" + rest), 12);
  }
}

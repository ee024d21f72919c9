/** Well-formed UTF-8, and texts copied byte by byte except for pieces that stand for whole characters. */
module Utf8Text {
  // The byte sequences of section 4 of RFC 3629

  predicate Within(s: string, i: nat, low: int, high: int) {
    i < |s| && low <= s[i] as int <= high
  }


  /** The number of bytes of the well-formed character that a text begins with, or 0. */
  function CharLength(s: string): (k: nat)
    ensures k <= |s| && k <= 4
  {
    if Within(s, 0, 0, 0x7F) then 1
    else if Within(s, 0, 0xC2, 0xDF) && Within(s, 1, 0x80, 0xBF) then 2
    else if Within(s, 0, 0xE0, 0xEF)
            && Within(s, 1, if s[0] as int == 0xE0 then 0xA0 else 0x80, if s[0] as int == 0xED then 0x9F else 0xBF)
            && Within(s, 2, 0x80, 0xBF) then 3
    else if Within(s, 0, 0xF0, 0xF4)
            && Within(s, 1, if s[0] as int == 0xF0 then 0x90 else 0x80, if s[0] as int == 0xF4 then 0x8F else 0xBF)
            && Within(s, 2, 0x80, 0xBF) && Within(s, 3, 0x80, 0xBF) then 4
    else 0
  }

  predicate ValidUtf8(s: string) {
    s == [] || (CharLength(s) > 0 && ValidUtf8(s[CharLength(s)..]))
  }

  predicate IsTail(c: char) {
    0x80 <= c as int <= 0xBF
  }

  lemma {:induction false} AsciiRun(s: string, k: nat)
    requires k <= |s| && forall i :: 0 <= i < k ==> s[i] as int < 0x80
    ensures ValidUtf8(s) <==> ValidUtf8(s[k..])
    decreases k
  {
    if k > 0 {
      AsciiRun(s[1..], k - 1);
      assert s[1..][k - 1..] == s[k..];
    } else {
      assert s[0..] == s;
    }
  }

  /** Part of a source text and what was written for it. */
  datatype Chunk = Chunk(raw: string, text: string)

  predicate IsCopy(c: Chunk) {
    |c.raw| == 1 && c.text == c.raw && 0 <= c.raw[0] as int < 256
  }

  /** Some ASCII characters that were replaced by one whole character. */
  predicate IsReplacement(c: Chunk) {
    c.raw != [] && (forall i :: 0 <= i < |c.raw| ==> c.raw[i] as int < 0x80)
    && c.text != [] && CharLength(c.text) == |c.text| && !IsTail(c.text[0])
  }

  predicate Chunks(cs: seq<Chunk>) {
    forall i :: 0 <= i < |cs| ==> IsCopy(cs[i]) || IsReplacement(cs[i])
  }

  function Raw(cs: seq<Chunk>): string {
    if cs == [] then [] else cs[0].raw + Raw(cs[1..])
  }

  function Text(cs: seq<Chunk>): string {
    if cs == [] then [] else cs[0].text + Text(cs[1..])
  }

  lemma OneMoreChunk(c: Chunk, cs: seq<Chunk>)
    requires Chunks(cs) && (IsCopy(c) || IsReplacement(c))
    ensures Chunks([c] + cs) && Raw([c] + cs) == c.raw + Raw(cs) && Text([c] + cs) == c.text + Text(cs)
  {
    assert ([c] + cs)[1..] == cs;
  }

  /** A whole character is recognised whatever follows it. */
  lemma OneCharFirst(c: string, rest: string)
    requires c != [] && CharLength(c) == |c|
    ensures CharLength(c + rest) == |c|
    ensures ValidUtf8(c + rest) <==> ValidUtf8(rest)
  {
    var t := c + rest;
    assert forall i :: 0 <= i < |c| ==> t[i] == c[i];
    assert CharLength(t) == |c|;
    assert t[|c|..] == rest;
  }

  lemma FirstByte(cs: seq<Chunk>)
    requires Chunks(cs) && cs != []
    ensures Raw(cs) != [] && Text(cs) != []
    ensures IsCopy(cs[0]) ==>
              Raw(cs)[0] == Text(cs)[0] && Raw(cs)[1..] == Raw(cs[1..]) && Text(cs)[1..] == Text(cs[1..])
    ensures !IsCopy(cs[0]) ==> Raw(cs)[0] as int < 0x80 && !IsTail(Text(cs)[0])
  {
  }

  predicate TailAt(s: string, i: nat) {
    i < |s| && IsTail(s[i])
  }

  /** The first `i` bytes are not ASCII. */
  predicate High(s: string, i: nat) {
    i <= |s| && forall j :: 0 <= j < i ==> s[j] as int >= 0x80
  }

  lemma HighRest(s: string, i: nat)
    requires High(s, i) && i > 0
    ensures s[0] as int >= 0x80 && High(s[1..], i - 1)
  {
  }

  /** The same first `i` bytes, and the same continuation byte behind them, if there is one. */
  predicate Alike(r: string, t: string, i: nat) {
    i <= |r| && i <= |t| && r[..i] == t[..i] && TailAt(r, i) == TailAt(t, i) && (TailAt(r, i) ==> r[i] == t[i])
  }

  /** Source and result agree on the continuation bytes that follow a first byte. */
  lemma {:induction false} SameTail(cs: seq<Chunk>, i: nat)
    requires Chunks(cs) && High(Raw(cs), i)
    ensures Alike(Raw(cs), Text(cs), i)
    decreases i
  {
    if cs != [] {
      FirstByte(cs);
      assert Chunks(cs[1..]);
      if i > 0 {
        hide *;
        HighRest(Raw(cs), i);
        SameTail(cs[1..], i - 1);
        AlikeLonger(Raw(cs), Text(cs), i);
      }
    }
  }

  lemma AlikeLonger(r: string, t: string, i: nat)
    requires r != [] && t != [] && r[0] == t[0] && 0 < i && Alike(r[1..], t[1..], i - 1)
    ensures Alike(r, t, i)
  {
    assert r[..i] == [r[0]] + r[1..][..i - 1] && t[..i] == [t[0]] + t[1..][..i - 1];
    assert i < |r| ==> r[i] == r[1..][i - 1];
    assert i < |t| ==> t[i] == t[1..][i - 1];
  }

  /** The length of a character depends on its first byte and the continuation bytes only. */
  lemma SameLength(r: string, t: string)
    requires r != [] && t != [] && r[0] == t[0] && r[0] as int >= 0x80
    requires TailAt(r, 1) == TailAt(t, 1) && (TailAt(r, 1) ==> r[1] == t[1])
    requires TailAt(r, 1) ==> TailAt(r, 2) == TailAt(t, 2)
    requires TailAt(r, 1) && TailAt(r, 2) ==> TailAt(r, 3) == TailAt(t, 3)
    ensures CharLength(r) == CharLength(t)
    ensures forall i :: 0 < i < CharLength(r) ==> IsTail(r[i])
  {
  }

  lemma SameCharacter(cs: seq<Chunk>)
    requires Chunks(cs) && cs != [] && Raw(cs) != [] && Raw(cs)[0] as int >= 0x80
    ensures CharLength(Raw(cs)) == CharLength(Text(cs))
    ensures High(Raw(cs), CharLength(Raw(cs)))
  {
    var r := Raw(cs);
    FirstByte(cs);
    SameTail(cs, 1);
    if TailAt(r, 1) {
      SameTail(cs, 2);
      if TailAt(r, 2) {
        SameTail(cs, 3);
      }
    }
    SameLength(r, Text(cs));
  }

  lemma {:induction false} CopiedRun(cs: seq<Chunk>, k: nat)
    requires Chunks(cs) && High(Raw(cs), k)
    ensures k <= |cs| && k <= |Text(cs)| && Raw(cs)[k..] == Raw(cs[k..]) && Text(cs)[k..] == Text(cs[k..])
    decreases k
  {
    if k > 0 {
      var r, t := Raw(cs), Text(cs);
      FirstByte(cs);
      assert Chunks(cs[1..]);
      hide *;
      HighRest(r, k);
      CopiedRun(cs[1..], k - 1);
      assert cs[1..][k - 1..] == cs[k..] && r[1..][k - 1..] == r[k..] && t[1..][k - 1..] == t[k..];
    } else {
      assert cs[0..] == cs && Raw(cs)[0..] == Raw(cs) && Text(cs)[0..] == Text(cs);
    }
  }

  /** Such a rewriting keeps what is valid UTF-8 valid, and what is not invalid. */
  lemma {:induction false} KeepsUtf8(cs: seq<Chunk>)
    requires Chunks(cs)
    ensures ValidUtf8(Raw(cs)) <==> ValidUtf8(Text(cs))
    decreases |cs|
  {
    if cs != [] {
      FirstByte(cs);
      var r := Raw(cs);
      if r[0] as int >= 0x80 {
        SameCharacter(cs);
        var k := CharLength(r);
        if k > 0 {
          CopiedRun(cs, k);
          KeepsUtf8(cs[k..]);
        }
      } else {
        KeepsUtf8(cs[1..]);
        AsciiFirst(cs[0].raw, Raw(cs[1..]));
        if IsCopy(cs[0]) {
          AsciiFirst(cs[0].text, Text(cs[1..]));
        } else {
          OneCharFirst(cs[0].text, Text(cs[1..]));
        }
      }
    }
  }

  lemma AsciiFirst(a: string, rest: string)
    requires forall i :: 0 <= i < |a| ==> a[i] as int < 0x80
    ensures ValidUtf8(a + rest) <==> ValidUtf8(rest)
  {
    AsciiRun(a + rest, |a|);
    assert (a + rest)[|a|..] == rest;
  }
}

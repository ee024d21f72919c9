/** Reading a spelled value makes of the document what the value stands for. */
module TomlReads {
  import opened Options
  import opened TomlRead
  import opened TomlSpelling
  import opened TomlTokens
  import opened TomlWords

  // Tokens by position

  /** The first token from position `p` on. */
  function From(r: Reader, p: nat, dot: bool): Option<Token>
    requires p <= |r.text|
  {
    NextOf(r.text, Token(STRING, p, 0, false), dot)
  }

  /** Only where a token ends matters for the next one. */
  lemma NextIsFrom(r: Reader, tok: Token, dot: bool)
    requires InText(tok, r.text) && From(r, tok.ptr + tok.len, dot).Some?
    ensures Next(r, tok, dot) == Eaten(true, From(r, tok.ptr + tok.len, dot).value)
  {
    hide StringLen, Gap;
  }

  lemma FromBlank(r: Reader, p: nat, dot: bool)
    requires p < |r.text| && IsBlank(r.text[p])
    ensures From(r, p, dot) == From(r, p + 1, dot)
  {
    hide StringLen;
    GapFrom(r.text, p);
    hide Gap;
  }

  lemma FromMark(r: Reader, p: nat, dot: bool)
    requires p < |r.text| && r.text[p] in [',', '=', '{', '}', '[', ']', '\n']
    ensures From(r, p, dot) == Some(Token(KindOf(r.text[p], dot), p, 1, false))
  {
    hide StringLen;
    GapFrom(r.text, p);
    hide Gap;
  }

  lemma {:induction false} LineEndIs(text: string, p: nat, q: nat)
    requires p <= q < |text| && text[q] == '\n' && forall i :: p <= i < q ==> text[i] != '\n'
    ensures LineEnd(text, p) == q
    decreases q - p
  {
    if p < q {
      LineEndIs(text, p + 1, q);
    }
  }

  lemma FromComment(r: Reader, p: nat, q: nat, dot: bool)
    requires p < q < |r.text| && r.text[p] == '#' && r.text[q] == '\n' && forall i :: p < i < q ==> r.text[i] != '\n'
    ensures From(r, p, dot) == From(r, q, dot)
  {
    hide StringLen;
    LineEndIs(r.text, p + 1, q);
    GapFrom(r.text, p);
    hide Gap;
  }

  lemma FromWord(r: Reader, p: nat, x: string, rest: string, isValue: bool)
    requires Has(r.text, p, x, rest) && IsWord(x, isValue) && Ends(rest, isValue) && (isValue ==> EndsStamp(rest))
    ensures From(r, p, !isValue) == Some(Token(STRING, p, |x|, false))
    ensures p + |x| <= |r.text| && r.text[p..p + |x|] == x
  {
    WordIsFound(r.text, p, x, rest, isValue);
    HasAt(r.text, p, x, rest, 0);
    HasBehind(r.text, p, x, rest);
    hide StringLen;
    GapFrom(r.text, p);
    hide Gap, IsWord, Ends, EndsStamp;
    assert r.text[p..][..|x|] == x;
    assert r.text[p..p + |x|] == r.text[p..][..|x|];
  }

  // Gaps

  /** The text from `p` on. */
  predicate Reads(r: Reader, p: nat, s: string) {
    p <= |r.text| && r.text[p..] == s
  }

  lemma ReadsOn(r: Reader, p: nat, x: string, s: string)
    requires Reads(r, p, x + s)
    ensures Reads(r, p + |x|, s)
    ensures x != [] ==> p < |r.text| && r.text[p] == x[0]
  {
    assert r.text[p + |x|..] == r.text[p..][|x|..];
  }

  lemma FirstOf(w: string, s: string)
    requires w != []
    ensures w + s == [w[0]] + (w[1..] + s)
  {
  }

  lemma {:induction false} PastWhites(r: Reader, p: nat, w: string, s: string, dot: bool)
    requires Whites(w) && Reads(r, p, w + s)
    ensures p + |w| <= |r.text| && Reads(r, p + |w|, s) && From(r, p, dot) == From(r, p + |w|, dot)
    decreases |w|
  {
    hide From;
    ReadsOn(r, p, w, s);
    if w != [] {
      FromBlank(r, p, dot);
      FirstOf(w, s);
      ReadsOn(r, p, [w[0]], w[1..] + s);
      PastWhites(r, p + 1, w[1..], s, dot);
    }
  }

  /** A gap is skipped, whichever token is behind it. */
  lemma {:induction false} PastGap(r: Reader, p: nat, g: seq<Piece>, s: string, dot: bool)
    requires GapOk(g) && Reads(r, p, GapTo(g, s)) && |s| <= |r.text|
    requires var q := |r.text| - |s|;
             From(r, q, false).Some? && From(r, q, false).value.kind != NEWLINE && From(r, q, dot) == From(r, q, false)
    ensures From(r, p, dot).Some? && InText(From(r, p, dot).value, r.text) && Regular(From(r, p, dot).value)
    ensures !From(r, p, dot).value.eof
    ensures SkipNewlines(r, From(r, p, dot).value) == Eaten(true, From(r, |r.text| - |s|, false).value)
    decreases |g|, 0
  {
    hide From, SkipNewlines, NextOf, Follows;
    if g == [] {
      FromIsToken(r, p, dot);
      EndsGap(r, p, s, dot);
    } else {
      GapBegins(r, p, g, s);
      hide GapTo, Reads;
      match g[0]
      case White(c) =>
        ReadsOn(r, p, [c], GapTo(g[1..], s));
        FromBlank(r, p, dot);
        PastGap(r, p + 1, g[1..], s, dot);
      case Break => PastBreak(r, p, g[1..], s, dot);
      case Comment(text) => PastComment(r, p, text, g[1..], s, dot);
    }
  }

  lemma GapBegins(r: Reader, p: nat, g: seq<Piece>, s: string)
    requires g != [] && GapOk(g) && Reads(r, p, GapTo(g, s))
    ensures PieceOk(g[0]) && GapOk(g[1..]) && Reads(r, p, PieceText(g[0]) + GapTo(g[1..], s))
  {
  }

  lemma EndsGap(r: Reader, p: nat, s: string, dot: bool)
    requires Reads(r, p, s) && From(r, p, dot).Some? && From(r, p, dot).value.kind != NEWLINE
    requires InText(From(r, p, dot).value, r.text) && Regular(From(r, p, dot).value)
    ensures p == |r.text| - |s|
    ensures SkipNewlines(r, From(r, p, dot).value) == Eaten(true, From(r, p, dot).value)
  {
    hide From;
  }

  lemma FromIsToken(r: Reader, p: nat, dot: bool)
    requires p <= |r.text| && From(r, p, dot).Some? && From(r, p, dot).value.kind != NEWLINE
    ensures InText(From(r, p, dot).value, r.text) && Regular(From(r, p, dot).value) && !From(r, p, dot).value.eof
  {
    hide StringLen, Gap;
  }

  lemma {:induction false} PastBreak(r: Reader, p: nat, g: seq<Piece>, s: string, dot: bool)
    requires GapOk(g) && Reads(r, p, "\n" + GapTo(g, s)) && |s| <= |r.text|
    requires var q := |r.text| - |s|; From(r, q, false).Some? && From(r, q, false).value.kind != NEWLINE
    ensures From(r, p, dot) == Some(Token(NEWLINE, p, 1, false))
    ensures SkipNewlines(r, Token(NEWLINE, p, 1, false)) == Eaten(true, From(r, |r.text| - |s|, false).value)
    decreases |g|, 1
  {
    hide From, NextOf, Follows;
    ReadsOn(r, p, "\n", GapTo(g, s));
    FromMark(r, p, dot);
    PastGap(r, p + 1, g, s, false);
    NextIsFrom(r, Token(NEWLINE, p, 1, false), false);
    hide Next;
  }

  lemma {:induction false} PastComment(r: Reader, p: nat, text: string, g: seq<Piece>, s: string, dot: bool)
    requires '\n' !in text && GapOk(g) && Reads(r, p, "#" + text + "\n" + GapTo(g, s)) && |s| <= |r.text|
    requires var q := |r.text| - |s|; From(r, q, false).Some? && From(r, q, false).value.kind != NEWLINE
    ensures From(r, p, dot) == Some(Token(NEWLINE, p + 1 + |text|, 1, false))
    ensures SkipNewlines(r, From(r, p, dot).value) == Eaten(true, From(r, |r.text| - |s|, false).value)
    decreases |g|, 2
  {
    hide From, NextOf, Follows, SkipNewlines, Reads;
    var q := p + 1 + |text|;
    CommentLies(r, p, text, GapTo(g, s));
    FromComment(r, p, q, dot);
    PastBreak(r, q, g, s, dot);
  }

  lemma CommentLies(r: Reader, p: nat, text: string, rest: string)
    requires '\n' !in text && Reads(r, p, "#" + text + "\n" + rest)
    ensures var q := p + 1 + |text|;
            && Reads(r, q, "\n" + rest) && q < |r.text| && r.text[p] == '#' && r.text[q] == '\n'
            && forall i :: p < i < q ==> r.text[i] != '\n'
  {
    var q := p + 1 + |text|;
    assert "#" + text + "\n" + rest == ("#" + text) + ("\n" + rest);
    ReadsOn(r, p, "#" + text, "\n" + rest);
    ReadsOn(r, q, "\n", rest);
    forall i | p < i < q
      ensures r.text[i] != '\n'
    {
      assert r.text[i] == r.text[p..][i - p] == text[i - p - 1];
    }
  }
}

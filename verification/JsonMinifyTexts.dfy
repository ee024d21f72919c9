/** Minifying takes the blanks and comments out of every JSON text, and nothing else. */
module JsonMinifyTexts {
  import opened Digits
  import opened JsonMinify
  import opened JsonReads
  import opened JsonSpelling
  import opened JsonText
  import opened Numerals
  import opened Options
  import opened JsonParse

  /**
   Blanks, comments to the end of a line, and comments in between. One in between ends with the first star and slash
   behind its own slash, so that a slash, a star and a slash are a whole comment.
   */
  ghost predicate Gap(g: string)
    decreases |g|
  {
    || g == []
    || (IsBlank(g[0]) && Gap(g[1..]))
    || (exists k: nat :: LineComment(g, k) && Gap(g[k..]))
    || exists k: nat :: BlockComment(g, k) && Gap(g[k..])
  }

  /** A comment of `k` characters in front of the end of its line. */
  predicate LineComment(g: string, k: nat) {
    2 <= k < |g| && g[0] == '/' && g[1] == '/' && g[k] == '\n' && forall i :: 2 <= i < k ==> g[i] != '\n'
  }

  predicate EndsComment(g: string, i: nat) {
    i + 1 < |g| && g[i] == '*' && g[i + 1] == '/'
  }

  /** A comment of `k` characters. */
  predicate BlockComment(g: string, k: nat) {
    3 <= k <= |g| && g[0] == '/' && g[1] == '*' && EndsComment(g, k - 2)
    && forall i :: 1 <= i < k - 2 ==> !EndsComment(g, i)
  }

  lemma {:induction false} LineIsPassed(s: string, k: nat)
    requires k < |s| && s[k] == '\n' && forall i :: 0 <= i < k ==> s[i] != '\n'
    ensures AfterLine(s) == s[k..]
    decreases k
  {
    if k > 0 {
      assert s[1..][k - 1..] == s[k..];
      LineIsPassed(s[1..], k - 1);
    }
  }

  lemma {:induction false} CommentIsPassed(s: string, k: nat)
    requires EndsComment(s, k) && forall i :: 0 <= i < k ==> !EndsComment(s, i)
    ensures AfterComment(s) == Some(s[k + 2..])
    decreases k
  {
    if k > 0 {
      assert !EndsComment(s, 0);
      forall i | 0 <= i < k - 1
        ensures !EndsComment(s[1..], i)
      {
        assert !EndsComment(s, i + 1);
      }
      assert s[1..][k + 1..] == s[k + 2..];
      CommentIsPassed(s[1..], k - 1);
    }
  }

  /** A gap leaves nothing. */
  lemma {:induction false} GapIsDropped(g: string, s: string)
    requires Gap(g)
    ensures Minify(g + s) == Minify(s)
    decreases |g|
  {
    if g == [] {
      assert g + s == s;
    } else if IsBlank(g[0]) && Gap(g[1..]) {
      assert (g + s)[0] == g[0] && (g + s)[1..] == g[1..] + s;
      GapIsDropped(g[1..], s);
    } else if k: nat :| LineComment(g, k) && Gap(g[k..]) {
      LineIsDropped(g, k, s);
      GapIsDropped(g[k..], s);
    } else {
      var k: nat :| BlockComment(g, k) && Gap(g[k..]);
      BlockIsDropped(g, k, s);
      GapIsDropped(g[k..], s);
    }
  }

  lemma LineIsDropped(g: string, k: nat, s: string)
    requires LineComment(g, k)
    ensures Minify(g + s) == Minify(g[k..] + s)
  {
    var t := g + s;
    assert t[0] == '/' && t[1] == '/';
    forall i | 0 <= i < k - 1
      ensures t[1..][i] != '\n'
    {
      assert t[1..][i] == g[i + 1];
    }
    assert t[1..][k - 1] == g[k];
    LineIsPassed(t[1..], k - 1);
    assert t[1..][k - 1..] == g[k..] + s;
  }

  lemma BlockIsDropped(g: string, k: nat, s: string)
    requires BlockComment(g, k)
    ensures Minify(g + s) == Minify(g[k..] + s)
  {
    var t := g + s;
    assert t[0] == '/' && t[1] == '*';
    forall i | 0 <= i < k - 2
      ensures !EndsComment(t, i)
    {
      if i > 0 {
        assert !EndsComment(g, i);
      }
    }
    CommentIsPassed(t, k - 2);
    assert t[k..] == g[k..] + s;
  }

  // Literals are copied

  lemma ChIsCopied(ch: Ch, s: string, value: string, rest: string)
    requires ChOk(ch) && CopyLiteral(s) == Some(Parsed(value, rest))
    ensures CopyLiteral(Written(ch) + s) == Some(Parsed(Written(ch) + value, rest))
  {
    HexLengths(ch);
    hide CopyLiteral, SpellsUnit;
    match ch
    case Plain(c) => CopyPlain([c], s, value, rest);
    case Short(letter) => EscapeIsCopied(letter, s, value, rest);
    case Unit(code, hex) => UnitIsCopied(hex, code, s, value, rest);
    case Pair(_, _, _) => PairIsCopied(ch, s, value, rest);
  }

  lemma PairIsCopied(ch: Ch, s: string, value: string, rest: string)
    requires ch.Pair? && ChOk(ch) && CopyLiteral(s) == Some(Parsed(value, rest))
    ensures CopyLiteral(Written(ch) + s) == Some(Parsed(Written(ch) + value, rest))
  {
    hide CopyLiteral, SpellsUnit;
    var high, low := ch.high, ch.low;
    UnitIsCopied(low, 0xDC00 + (ch.code - 0x1_0000) % 0x400, s, value, rest);
    UnitIsCopied(high, 0xD800 + (ch.code - 0x1_0000) / 0x400, "\\u" + low + s, "\\u" + low + value, rest);
    PairInTwo(high, low, s);
    PairInTwo(high, low, value);
    assert Written(ch) == "\\u" + high + "\\u" + low;
    hide *;
  }

  lemma EscapeIsCopied(letter: char, s: string, value: string, rest: string)
    requires CopyLiteral(s) == Some(Parsed(value, rest))
    ensures CopyLiteral(['\\', letter] + s) == Some(Parsed(['\\', letter] + value, rest))
  {
    var u := ['\\', letter] + s;
    assert u[0] == '\\' && u[..2] == ['\\', letter] && u[2..] == s;
  }

  lemma UnitIsCopied(h: string, code: nat, s: string, value: string, rest: string)
    requires SpellsUnit(h, code) && CopyLiteral(s) == Some(Parsed(value, rest))
    ensures CopyLiteral("\\u" + h + s) == Some(Parsed("\\u" + h + value, rest))
  {
    UnitSpelled(h, code);
    CopyPlain(h, s, value, rest);
    hide CopyLiteral;
    EscapeIsCopied('u', h + s, h + value, rest);
    assert "\\u" == ['\\', 'u'];
    Assoc("\\u", h, s);
    Assoc("\\u", h, value);
  }

  lemma {:induction false} CharsAreCopied(chs: seq<Ch>, rest: string)
    requires AllOk(chs)
    ensures CopyLiteral(CharsTo(chs, "\"" + rest)) == Some(Parsed(CharsTo(chs, "\""), rest))
    decreases |chs|
  {
    if chs == [] {
      assert ("\"" + rest)[0] == '\"' && ("\"" + rest)[1..] == rest;
    } else {
      CharsAreCopied(chs[1..], rest);
      ChIsCopied(chs[0], CharsTo(chs[1..], "\"" + rest), CharsTo(chs[1..], "\""), rest);
      hide CopyLiteral, Written;
    }
  }

  lemma {:induction false} CharsInFront(chs: seq<Ch>, a: string, b: string)
    ensures CharsTo(chs, a + b) == CharsTo(chs, a) + b
    decreases |chs|
  {
    if chs != [] {
      CharsInFront(chs[1..], a, b);
      Assoc(Written(chs[0]), CharsTo(chs[1..], a), b);
    }
  }

  lemma LiteralIsKept(chs: seq<Ch>, s: string, r: string)
    requires AllOk(chs) && Minify(s) == Some(r)
    ensures Minify(LiteralTo(chs, s)) == Some(LiteralTo(chs, r))
  {
    CharsAreCopied(chs, s);
    CharsInFront(chs, "\"", r);
    assert LiteralTo(chs, s)[0] == '\"' && LiteralTo(chs, s)[1..] == CharsTo(chs, "\"" + s);
    Assoc("\"", CharsTo(chs, "\""), r);
    hide CopyLiteral, CharsTo;
  }

  // Numbers are copied

  lemma {:induction false} PlainInFront(x: string, s: string, r: string)
    requires (forall i :: 0 <= i < |x| ==> IsDigit(x[i]) || x[i] in ['+', '-', '.', 'e', 'E']) && Minify(s) == Some(r)
    ensures Minify(x + s) == Some(x + r)
  {
    MinifyPlain(x, s, r);
  }

  lemma NumberIsKept(n: Num, s: string, r: string)
    requires NumOk(n) && Minify(s) == Some(r)
    ensures Minify(NumTo(n, s)) == Some(NumTo(n, r))
  {
    var u, u' := ExponentTo(n.exponent, s), ExponentTo(n.exponent, r);
    ExponentIsKept(n.exponent, s, r);
    FractionIsKept(n.fraction, u, u');
    PlainInFront(n.whole, FractionTo(n.fraction, u), FractionTo(n.fraction, u'));
    PlainInFront(if n.negative then "-" else "", n.whole + FractionTo(n.fraction, u),
                 n.whole + FractionTo(n.fraction, u'));
  }

  lemma FractionIsKept(f: Option<string>, s: string, r: string)
    requires (f.Some? ==> AllDigits(f.value)) && Minify(s) == Some(r)
    ensures Minify(FractionTo(f, s)) == Some(FractionTo(f, r))
  {
    if f.Some? {
      PlainInFront(f.value, s, r);
      PlainInFront(".", f.value + s, f.value + r);
    }
  }

  lemma ExponentIsKept(e: Option<Exponent>, s: string, r: string)
    requires (e.Some? ==> e.value.letter in ['e', 'E'] && AllDigits(e.value.digits)) && Minify(s) == Some(r)
    ensures Minify(ExponentTo(e, s)) == Some(ExponentTo(e, r))
  {
    if e.Some? {
      var sign := SignText(e.value.sign);
      PlainInFront(e.value.digits, s, r);
      PlainInFront(sign, e.value.digits + s, e.value.digits + r);
      PlainInFront([e.value.letter], sign + (e.value.digits + s), sign + (e.value.digits + r));
    }
  }

  // Values

  /** The same value without any gaps. */
  function Bare(v: Val): Val
    decreases v
  {
    match v
    case WArray(items, _) => WArray(seq(|items|, i requires 0 <= i < |items| => BareElement(items[i])), "")
    case WObject(es, _) => WObject(seq(|es|, i requires 0 <= i < |es| => BareEntry(es[i])), "")
    case _ => v
  }

  function BareElement(e: Element): Element
    decreases e
  {
    Element("", Bare(e.value), "")
  }

  function BareEntry(e: Entry): Entry
    decreases e
  {
    Entry("", e.key, "", BareElement(e.value))
  }

  lemma {:induction false} ValueIsKept(v: Val, s: string, r: string)
    requires ValOk(v, Gap) && Minify(s) == Some(r)
    ensures Minify(ValTo(v, s)) == Some(ValTo(Bare(v), r))
    decreases v, 2
  {
    match v
    case WNull => MinifyPlain("null", s, r);
    case WTrue => MinifyPlain("true", s, r);
    case WFalse => MinifyPlain("false", s, r);
    case WNumber(n) => NumberIsKept(n, s, r);
    case WString(chs) => LiteralIsKept(chs, s, r);
    case WArray(items, gap) => ArrayIsKept(items, gap, s, r);
    case WObject(es, gap) => ObjectIsKept(es, gap, s, r);
  }

  lemma {:induction false} ElementIsKept(e: Element, s: string, r: string)
    requires ElementOk(e, Gap) && Minify(s) == Some(r)
    ensures Minify(ElementTo(e, s)) == Some(ElementTo(BareElement(e), r))
    decreases e, 3
  {
    GapIsDropped(e.after, s);
    ValueIsKept(e.value, e.after + s, r);
    GapIsDropped(e.before, ValTo(e.value, e.after + s));
    assert "" + r == r;
    assert "" + ValTo(Bare(e.value), r) == ValTo(Bare(e.value), r);
  }

  lemma {:induction false} ElementsAreKept(items: seq<Element>, bare: seq<Element>, s: string, r: string)
    requires items != [] && |bare| == |items| && Minify(s) == Some(r)
    requires forall i :: 0 <= i < |items| ==> ElementOk(items[i], Gap) && bare[i] == BareElement(items[i])
    ensures Minify(ElementsTo(items, s)) == Some(ElementsTo(bare, r))
    decreases items, 0
  {
    if |items| == 1 {
      ElementIsKept(items[0], s, r);
    } else {
      ElementsAreKept(items[1..], bare[1..], s, r);
      var more, more' := ElementsTo(items[1..], s), ElementsTo(bare[1..], r);
      MinifyChar(',', more, more');
      ElementIsKept(items[0], "," + more, "," + more');
    }
  }

  lemma {:induction false} ArrayIsKept(items: seq<Element>, gap: string, s: string, r: string)
    requires ValOk(WArray(items, gap), Gap) && Minify(s) == Some(r)
    ensures Minify(ValTo(WArray(items, gap), s)) == Some(ValTo(Bare(WArray(items, gap)), r))
    decreases items, 1
  {
    MinifyChar(']', s, r);
    if items == [] {
      GapIsDropped(gap, "]" + s);
      assert "" + ("]" + r) == "]" + r;
      MinifyChar('[', gap + ("]" + s), "]" + r);
    } else {
      var bare := Bare(WArray(items, gap)).items;
      ElementsAreKept(items, bare, "]" + s, "]" + r);
      MinifyChar('[', ElementsTo(items, "]" + s), ElementsTo(bare, "]" + r));
    }
  }

  lemma {:induction false} EntryIsKept(e: Entry, s: string, r: string)
    requires EntryOk(e, Gap) && Minify(s) == Some(r)
    ensures Minify(EntryTo(e, s)) == Some(EntryTo(BareEntry(e), r))
    decreases e, 4
  {
    var value, value' := ElementTo(e.value, s), ElementTo(BareElement(e.value), r);
    ElementIsKept(e.value, s, r);
    MinifyChar(':', value, value');
    GapIsDropped(e.mid, ":" + value);
    LiteralIsKept(e.key, e.mid + (":" + value), ":" + value');
    GapIsDropped(e.before, LiteralTo(e.key, e.mid + (":" + value)));
    assert "" + (":" + value') == ":" + value';
    assert "" + LiteralTo(e.key, ":" + value') == LiteralTo(e.key, ":" + value');
  }

  lemma {:induction false} EntriesAreKept(es: seq<Entry>, bare: seq<Entry>, s: string, r: string)
    requires es != [] && |bare| == |es| && Minify(s) == Some(r)
    requires forall i :: 0 <= i < |es| ==> EntryOk(es[i], Gap) && bare[i] == BareEntry(es[i])
    ensures Minify(EntriesTo(es, s)) == Some(EntriesTo(bare, r))
    decreases es, 0
  {
    if |es| == 1 {
      EntryIsKept(es[0], s, r);
    } else {
      EntriesAreKept(es[1..], bare[1..], s, r);
      var more, more' := EntriesTo(es[1..], s), EntriesTo(bare[1..], r);
      MinifyChar(',', more, more');
      EntryIsKept(es[0], "," + more, "," + more');
    }
  }

  lemma {:induction false} ObjectIsKept(es: seq<Entry>, gap: string, s: string, r: string)
    requires ValOk(WObject(es, gap), Gap) && Minify(s) == Some(r)
    ensures Minify(ValTo(WObject(es, gap), s)) == Some(ValTo(Bare(WObject(es, gap)), r))
    decreases es, 1
  {
    MinifyChar('}', s, r);
    if es == [] {
      GapIsDropped(gap, "}" + s);
      assert "" + ("}" + r) == "}" + r;
      MinifyChar('{', gap + ("}" + s), "}" + r);
    } else {
      var bare := Bare(WObject(es, gap)).entries;
      EntriesAreKept(es, bare, "}" + s, "}" + r);
      MinifyChar('{', EntriesTo(es, "}" + s), EntriesTo(bare, "}" + r));
    }
  }

  /** For every text with blanks and comments between its tokens: the same text without them. */
  lemma TextIsKept(before: string, v: Val, after: string)
    requires Gap(before) && Gap(after) && ValOk(v, Gap)
    ensures Minify(before + ValTo(v, after)) == Some(ValTo(Bare(v), ""))
  {
    assert after + "" == after;
    GapIsDropped(after, "");
    ValueIsKept(v, after, "");
    GapIsDropped(before, ValTo(v, after));
  }
}

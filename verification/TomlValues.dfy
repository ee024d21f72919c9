/** Every spelled array and inline table is read completely, and puts what it stands for into the document. */
module TomlValues {
  import opened Options
  import opened TomlBuild
  import opened TomlDoc
  import opened TomlRead
  import opened TomlReads
  import opened TomlSpelling
  import opened TomlTokens
  import opened TomlWords

  ghost predicate Fits(r: Reader, n: Names) {
    n == Names(r.normalize, r.typeOf)
  }

  /** Where a rest of the text begins. */
  function Place(r: Reader, rest: string): nat
    requires |rest| <= |r.text|
  {
    |r.text| - |rest|
  }

  /** What may follow a value: nothing that goes on with it, and a token that can be found. */
  predicate GoesOn(r: Reader, rest: string) {
    && |rest| <= |r.text| && Ends(rest, true) && EndsStamp(rest)
    && From(r, Place(r, rest), false).Some? && From(r, Place(r, rest), true).Some?
  }

  lemma MayFollow(r: Reader, rest: string, isValue: bool)
    requires GoesOn(r, rest)
    ensures |rest| <= |r.text| && Ends(rest, isValue) && EndsStamp(rest)
    ensures From(r, Place(r, rest), false).Some? && From(r, Place(r, rest), true).Some?
  {
  }

  predicate IsEnd(z: string) {
    z != [] && z[0] in [',', ']', '}', '=']
  }

  lemma {:induction false} GapEnds(g: seq<Piece>, z: string)
    requires GapOk(g) && IsEnd(z)
    ensures Ends(GapTo(g, z), true) && EndsStamp(GapTo(g, z))
    decreases |g|
  {
    if g != [] {
      GapEnds(g[1..], z);
      PieceEnds(g[0], GapTo(g[1..], z));
    }
  }

  lemma PieceEnds(p: Piece, s: string)
    requires PieceOk(p) && Ends(s, true) && EndsStamp(s)
    ensures Ends(PieceText(p) + s, true) && EndsStamp(PieceText(p) + s)
  {
    var t := PieceText(p) + s;
    assert t[0] == PieceText(p)[0];
    assert p.White? ==> t[1..] == s;
  }

  lemma MarkEnds(z: string)
    requires IsEnd(z)
    ensures Ends(z, true) && EndsStamp(z)
  {
  }

  lemma {:induction false} WhitesEnd(w: string, z: string)
    requires Whites(w) && Ends(z, true) && EndsStamp(z)
    ensures Ends(w + z, true) && EndsStamp(w + z)
    decreases |w|
  {
    if w == [] {
      assert w + z == z;
    } else {
      WhitesEnd(w[1..], z);
      FirstOf(w, z);
      assert (w + z)[1..] == w[1..] + z;
    }
  }

  lemma EndToken(r: Reader, z: string)
    requires IsEnd(z) && |z| <= |r.text| && Reads(r, Place(r, z), z)
    ensures From(r, Place(r, z), true) == From(r, Place(r, z), false)
                                       == Some(Token(KindOf(z[0], false), Place(r, z), 1, false))
  {
    assert r.text[Place(r, z)] == z[0];
    FromMark(r, Place(r, z), true);
    FromMark(r, Place(r, z), false);
  }

  lemma {:induction false} GapInFront(r: Reader, p: nat, g: seq<Piece>, z: string)
    requires Reads(r, p, GapTo(g, z))
    ensures |z| <= |r.text| && Reads(r, Place(r, z), z) && p == |r.text| - |GapTo(g, z)|
    decreases |g|
  {
    if g != [] {
      ReadsOn(r, p, PieceText(g[0]), GapTo(g[1..], z));
      GapInFront(r, p + |PieceText(g[0])|, g[1..], z);
    }
  }

  /** A gap after a value, and the mark behind it. */
  lemma GapFollows(r: Reader, p: nat, g: seq<Piece>, z: string)
    requires GapOk(g) && IsEnd(z) && Reads(r, p, GapTo(g, z))
    ensures |z| <= |r.text| && Reads(r, Place(r, z), z)
    ensures p == Place(r, GapTo(g, z)) && GoesOn(r, GapTo(g, z))
    ensures forall dot :: SkipNewlines(r, From(r, p, dot).value)
                          == Eaten(true, Token(KindOf(z[0], false), Place(r, z), 1, false))
  {
    hide From, SkipNewlines, Ends, EndsStamp, GapOk, GapTo, Reads;
    GapInFront(r, p, g, z);
    GapEnds(g, z);
    EndToken(r, z);
    PastGap(r, p, g, z, true);
    PastGap(r, p, g, z, false);
  }

  lemma WhitesFollow(r: Reader, p: nat, w: string, z: string)
    requires Whites(w) && IsEnd(z) && Reads(r, p, w + z)
    ensures |z| <= |r.text| && Reads(r, Place(r, z), z) && p == Place(r, w + z) && GoesOn(r, w + z)
    ensures From(r, p, true) == Some(Token(KindOf(z[0], false), Place(r, z), 1, false))
  {
    hide From, Ends, EndsStamp;
    ReadsOn(r, p, w, z);
    MarkEnds(z);
    WhitesEnd(w, z);
    EndToken(r, z);
    PastWhites(r, p, w, z, true);
    PastWhites(r, p, w, z, false);
  }

  // Elements of arrays

  /** A string token, its text, and the token behind it. */
  lemma WordIsRead(r: Reader, p: nat, x: string, y: string, dot: bool, isValue: bool)
    requires Reads(r, p, x + y) && IsWord(x, isValue) && Ends(y, isValue) && (isValue ==> EndsStamp(y))
    requires |y| <= |r.text| && From(r, Place(r, y), dot).Some?
    ensures var tok := Token(STRING, p, |x|, false);
            && From(r, p, !isValue) == Some(tok) && TomlRead.At(r, tok) && Text(r, tok) == x
            && Next(r, tok, dot) == Eaten(true, From(r, Place(r, y), dot).value)
  {
    hide IsWord, Ends, EndsStamp, From, Follows, Next;
    ReadsOn(r, p, x, y);
    WordIs(r, p, x, y, isValue);
    NextIsFrom(r, Token(STRING, p, |x|, false), dot);
  }

  lemma WordIs(r: Reader, p: nat, x: string, y: string, isValue: bool)
    requires Reads(r, p, x + y) && IsWord(x, isValue) && Ends(y, isValue) && (isValue ==> EndsStamp(y))
    ensures var tok := Token(STRING, p, |x|, false);
            From(r, p, !isValue) == Some(tok) && TomlRead.At(r, tok) && Text(r, tok) == x
  {
    hide IsWord, Ends, EndsStamp, From;
    FromWord(r, p, x, y, isValue);
  }

  /** What reading an element does for each kind of token. */
  lemma StringElement(r: Reader, tok: Token, d: Doc, a: nat, next: Token)
    requires TomlRead.At(r, tok) && tok.kind == STRING && Closed(d) && a < |d.arrays|
    requires Next(r, tok, false) == Eaten(true, next)
    ensures ReadElement(r, tok, d, a) == Read(true, next, Push(d, a, Value(r.typeOf(Text(r, tok)), Text(r, tok))))
  {
    hide Next, Push, Text;
  }

  lemma OpenElement(r: Reader, tok: Token, d: Doc, a: nat)
    requires TomlRead.At(r, tok) && Closed(d) && a < |d.arrays|
    ensures tok.kind == LBRACKET ==> ReadElement(r, tok, d, a) == ReadArray(r, tok, PushArray(d, a), |d.arrays|)
    ensures tok.kind == LBRACE ==> ReadElement(r, tok, d, a) == ReadInline(r, tok, PushTable(d, a, ""), |d.tables|)
  {
    hide ReadArray, ReadInline, PushArray, PushTable, Text, Eat;
  }

  lemma RawItemIsRead(r: Reader, n: Names, p: nat, d: Doc, a: nat, x: string, y: string)
    requires Fits(r, n) && Reads(r, p, x + y) && IsWord(x, true) && GoesOn(r, y) && Closed(d) && a < |d.arrays|
    ensures From(r, p, false).Some? && From(r, p, false).value.kind == STRING
    ensures TomlRead.At(r, From(r, p, false).value)
    ensures ReadElement(r, From(r, p, false).value, d, a)
            == Read(true, From(r, Place(r, y), false).value, Push(d, a, Value(n.typeOf(x), x)))
  {
    hide From, IsWord, GoesOn, Ends, EndsStamp, Next, Push, ReadElement, Closed, Text;
    MayFollow(r, y, true);
    WordIsRead(r, p, x, y, false, true);
    StringElement(r, Token(STRING, p, |x|, false), d, a, From(r, Place(r, y), false).value);
  }

  lemma {:induction false} ItemIsRead(r: Reader, n: Names, p: nat, d: Doc, a: nat, v: Val, y: string)
    requires Fits(r, n) && Reads(r, p, ValTo(v, y)) && ValOk(v) && Named(n, v) && NoTwins(n, v) && GoesOn(r, y)
    requires Closed(d) && a < |d.arrays|
    ensures From(r, p, false).Some? && From(r, p, false).value.kind in {STRING, LBRACKET, LBRACE}
    ensures TomlRead.At(r, From(r, p, false).value)
    ensures ReadElement(r, From(r, p, false).value, d, a)
            == Read(true, From(r, Place(r, y), !v.Raw?).value, PutItem(n, d, a, v))
    decreases v, 4
  {
    hide From, GoesOn, Reads, ReadElement, ReadArray, ReadInline, PutItems, PutEntries, PushArray, PushTable, Push;
    hide Close, Closed, IsWord, TomlRead.At, KeysNew;
    match v
    case Raw(x) => RawItemIsRead(r, n, p, d, a, x, y);
    case List(items, comma, close) =>
      OpensWith(r, p, "[", ItemsTo(items, comma, close, y));
      ListIsRead(r, n, p, PushArray(d, a), |d.arrays|, items, comma, close, y);
      OpenElement(r, Token(LBRACKET, p, 1, false), d, a);
    case Table(es, comma, blank) =>
      OpensWith(r, p, "{", EntriesTo(es, comma, blank, y));
      NewPushed(d, a);
      NewKeys(n, PushTable(d, a, ""), |d.tables|, es);
      InlineIsRead(r, n, p, PushTable(d, a, ""), |d.tables|, es, comma, blank, y);
      OpenElement(r, Token(LBRACE, p, 1, false), d, a);
  }

  lemma OpensWith(r: Reader, p: nat, x: string, s: string)
    requires Reads(r, p, x + s) && x in ["[", "{"]
    ensures From(r, p, false) == Some(Token(if x == "[" then LBRACKET else LBRACE, p, 1, false))
    ensures p < |r.text| && TomlRead.At(r, Token(if x == "[" then LBRACKET else LBRACE, p, 1, false))
  {
    hide From;
    ReadsOn(r, p, x, s);
    FromMark(r, p, false);
  }

  /** The new table of a document is empty. */
  predicate IsNew(d: Doc, t: nat) {
    && t < |d.tables| && d.tables[t].kvals == [] && d.tables[t].arrs == [] && d.tables[t].tabs == []
    && !d.tables[t].isReadonly
  }

  lemma NewPushed(d: Doc, a: nat)
    requires Closed(d) && a < |d.arrays|
    ensures IsNew(PushTable(d, a, ""), |d.tables|)
  {
  }

  lemma NewAdded(d: Doc, t: nat, name: string)
    requires Closed(d) && t < |d.tables|
    ensures IsNew(AddTable(d, t, name, false), |d.tables|)
  {
  }

  /** No key of the entries is in the table. */
  ghost predicate KeysNew(n: Names, d: Doc, t: nat, es: seq<Entry>)
    requires Closed(d) && t < |d.tables| && forall i :: 0 <= i < |es| ==> EntryNamed(n, es[i])
  {
    && (forall i :: 0 <= i < |es| ==> NameOf(n, es[i]) !in Keys(d, d.tables[t]))
    && forall i, j :: 0 <= i < j < |es| ==> NameOf(n, es[i]) != NameOf(n, es[j])
  }

  lemma NewKeys(n: Names, d: Doc, t: nat, es: seq<Entry>)
    requires Closed(d) && IsNew(d, t) && forall i :: 0 <= i < |es| ==> EntryNamed(n, es[i])
    requires forall i, j :: 0 <= i < j < |es| ==> NameOf(n, es[i]) != NameOf(n, es[j])
    ensures KeysNew(n, d, t, es)
  {
    assert Keys(d, d.tables[t]) == [];
  }

  /** From the opening bracket to behind the closing one. */
  lemma {:induction false} ListIsRead(r: Reader, n: Names, p: nat, d: Doc, a: nat, items: seq<Element>, comma: bool,
                                      close: seq<Piece>, y: string)
    requires Fits(r, n) && Reads(r, p, "[" + ItemsTo(items, comma, close, y)) && GoesOn(r, y)
    requires GapOk(close) && Closed(d) && a < |d.arrays|
    requires forall i :: 0 <= i < |items| ==>
               ElementOk(items[i]) && Named(n, items[i].value) && NoTwins(n, items[i].value)
    ensures p < |r.text| && At(r, Token(LBRACKET, p, 1, false))
    ensures ReadArray(r, Token(LBRACKET, p, 1, false), d, a)
            == Read(true, From(r, Place(r, y), true).value, PutItems(n, d, a, items))
    decreases items, 3
  {
    hide From, NextOf, ReadElements, PutItems;
    ReadsOn(r, p, "[", ItemsTo(items, comma, close, y));
    ItemsAreRead(r, n, p + 1, d, a, items, comma, close, y);
    NextIsFrom(r, Token(LBRACKET, p, 1, false), false);
  }

  /** The end of an array behind a gap. */
  lemma ArrayEnds(r: Reader, p: nat, d: Doc, y: string)
    requires Reads(r, p, "]" + y) && GoesOn(r, y) && Closed(d)
    ensures p < |r.text| && p + 1 == Place(r, y) && At(r, Token(RBRACKET, p, 1, false))
    ensures EndArray(r, Token(RBRACKET, p, 1, false), d) == Read(true, From(r, Place(r, y), true).value, d)
  {
    hide From, NextOf;
    ReadsOn(r, p, "]", y);
    NextIsFrom(r, Token(RBRACKET, p, 1, false), true);
  }

  /** What is left to do behind an element. */
  function ElementsLeft(r: Reader, z: Token, d: Doc, a: nat): Read
    requires TomlRead.At(r, z) && Closed(d) && a < |d.arrays|
  {
    if z.kind != COMMA then EndArray(r, z, d)
    else
      var c := Eat(r, z, COMMA, false);
      if !c.ok then Read(false, c.tok, d) else ReadElements(r, c.tok, d, a)
  }

  /** One turn of the loop over the elements. */
  lemma ElementsFrom(r: Reader, tok: Token, d: Doc, a: nat, e: Token, item: Read, z: Token)
    requires TomlRead.At(r, tok) && Closed(d) && a < |d.arrays|
    requires SkipNewlines(r, tok) == Eaten(true, e) && e.kind != RBRACKET && ReadElement(r, e, d, a) == item && item.ok
    requires SkipNewlines(r, item.tok) == Eaten(true, z)
    ensures ReadElements(r, tok, d, a) == ElementsLeft(r, z, item.doc, a)
  {
    hide SkipNewlines, ReadElement, EndArray, Eat;
  }

  lemma NoElements(r: Reader, tok: Token, d: Doc, a: nat, e: Token)
    requires TomlRead.At(r, tok) && Closed(d) && a < |d.arrays|
    requires SkipNewlines(r, tok) == Eaten(true, e) && e.kind == RBRACKET
    ensures ReadElements(r, tok, d, a) == EndArray(r, e, d)
  {
    hide SkipNewlines, EndArray;
  }

  lemma CommaIsEaten(r: Reader, p: nat, s: string)
    requires Reads(r, p, "," + s) && From(r, p + 1, false).Some?
    ensures TomlRead.At(r, Token(COMMA, p, 1, false))
    ensures Eat(r, Token(COMMA, p, 1, false), COMMA, false) == Eaten(true, From(r, p + 1, false).value)
  {
    hide From, NextOf;
    ReadsOn(r, p, ",", s);
    NextIsFrom(r, Token(COMMA, p, 1, false), false);
  }

  lemma {:induction false} ItemsAreRead(r: Reader, n: Names, p: nat, d: Doc, a: nat, items: seq<Element>, comma: bool,
                                        close: seq<Piece>, y: string)
    requires Fits(r, n) && Reads(r, p, ItemsTo(items, comma, close, y)) && GoesOn(r, y)
    requires GapOk(close) && Closed(d) && a < |d.arrays|
    requires forall i :: 0 <= i < |items| ==>
               ElementOk(items[i]) && Named(n, items[i].value) && NoTwins(n, items[i].value)
    ensures From(r, p, false).Some? && TomlRead.At(r, From(r, p, false).value)
    ensures ReadElements(r, From(r, p, false).value, d, a)
            == Read(true, From(r, Place(r, y), true).value, PutItems(n, d, a, items))
    decreases items, 2
  {
    hide From, ReadElements, GoesOn, Reads, EndArray, SkipNewlines;
    if items == [] {
      GapFollows(r, p, close, "]" + y);
      ArrayEnds(r, Place(r, "]" + y), d, y);
      FromIsAt(r, p, close, "]" + y);
      NoElements(r, From(r, p, false).value, d, a, Token(RBRACKET, Place(r, "]" + y), 1, false));
    } else {
      FirstItemIsRead(r, n, p, d, a, items, comma, close, y);
    }
  }

  lemma FromIsAt(r: Reader, p: nat, g: seq<Piece>, z: string)
    requires GapOk(g) && IsEnd(z) && Reads(r, p, GapTo(g, z))
    ensures From(r, p, false).Some? && TomlRead.At(r, From(r, p, false).value)
    ensures From(r, p, true).Some? && TomlRead.At(r, From(r, p, true).value)
  {
    GapInFront(r, p, g, z);
    EndToken(r, z);
    hide From;
    PastGap(r, p, g, z, false);
    PastGap(r, p, g, z, true);
  }

  lemma {:induction false} FirstItemIsRead(r: Reader, n: Names, p: nat, d: Doc, a: nat, items: seq<Element>,
                                           comma: bool, close: seq<Piece>, y: string)
    requires items != [] && Fits(r, n) && Reads(r, p, ItemsTo(items, comma, close, y)) && GoesOn(r, y)
    requires GapOk(close) && Closed(d) && a < |d.arrays|
    requires forall i :: 0 <= i < |items| ==>
               ElementOk(items[i]) && Named(n, items[i].value) && NoTwins(n, items[i].value)
    ensures From(r, p, false).Some? && TomlRead.At(r, From(r, p, false).value)
    ensures ReadElements(r, From(r, p, false).value, d, a)
            == Read(true, From(r, Place(r, y), true).value, PutItems(n, d, a, items))
    decreases items, 1
  {
    hide From, ReadElements, GoesOn, Reads, EndArray, Eat, PutItem, ValTo, ValOk;
    var x, z := items[0], ItemEnd(items, comma, close, y);
    OneItemIsRead(r, n, p, d, a, x, z);
    var e := PutItem(n, d, a, x.value);
    if |items| == 1 && !comma {
      ArrayEnds(r, Place(r, z), e, y);
    } else {
      var more := ItemsTo(items[1..], comma, close, y);
      ReadsOn(r, Place(r, z), ",", more);
      ItemsAreRead(r, n, Place(r, z) + 1, e, a, items[1..], comma, close, y);
      CommaIsEaten(r, Place(r, z), more);
    }
  }

  /** An element with the gaps around it, up to the mark behind them. */
  lemma {:induction false} OneItemIsRead(r: Reader, n: Names, p: nat, d: Doc, a: nat, x: Element, z: string)
    requires Fits(r, n) && IsEnd(z) && Reads(r, p, GapTo(x.before, ValTo(x.value, GapTo(x.after, z))))
    requires ElementOk(x) && Named(n, x.value) && NoTwins(n, x.value) && Closed(d) && a < |d.arrays|
    ensures |z| <= |r.text| && Reads(r, Place(r, z), z)
    ensures TomlRead.At(r, Token(KindOf(z[0], false), Place(r, z), 1, false))
    ensures From(r, p, false).Some? && TomlRead.At(r, From(r, p, false).value)
    ensures ReadElements(r, From(r, p, false).value, d, a)
            == ElementsLeft(r, Token(KindOf(z[0], false), Place(r, z), 1, false), PutItem(n, d, a, x.value), a)
    decreases x
  {
    hide From, ReadElements, ReadElement, GoesOn, Reads, SkipNewlines, EndsWith, ValOk, ElementsLeft, PutItem;
    hide TomlRead.At, Regular, ValTo;
    var after := GapTo(x.after, z);
    var s := ValTo(x.value, after);
    GapInFront(r, p, x.before, s);
    ValueInFront(r, Place(r, s), x.value, after);
    GapFollows(r, Place(r, after), x.after, z);
    FromIsAt(r, Place(r, after), x.after, z);
    ItemIsRead(r, n, Place(r, s), d, a, x.value, after);
    GapBefore(r, p, x.before, s);
    var item := Read(true, From(r, Place(r, after), !x.value.Raw?).value, PutItem(n, d, a, x.value));
    ElementsFrom(r, From(r, p, false).value, d, a, From(r, Place(r, s), false).value, item,
                 Token(KindOf(z[0], false), Place(r, z), 1, false));
  }

  /** A gap in front of a value. */
  lemma GapBefore(r: Reader, p: nat, g: seq<Piece>, s: string)
    requires GapOk(g) && Reads(r, p, GapTo(g, s)) && |s| <= |r.text|
    requires From(r, Place(r, s), false).Some? && From(r, Place(r, s), false).value.kind != NEWLINE
    ensures From(r, p, false).Some? && TomlRead.At(r, From(r, p, false).value)
    ensures SkipNewlines(r, From(r, p, false).value) == Eaten(true, From(r, Place(r, s), false).value)
  {
    hide From, SkipNewlines;
    PastGap(r, p, g, s, false);
  }

  // What follows is behind it

  predicate EndsWith(s: string, y: string) {
    |y| <= |s| && s[|s| - |y|..] == y
  }

  lemma StillEndsWith(x: string, s: string, y: string)
    requires EndsWith(s, y)
    ensures EndsWith(x + s, y)
  {
  }

  lemma EndsWithTwice(s: string, t: string, y: string)
    requires EndsWith(s, t) && EndsWith(t, y)
    ensures EndsWith(s, y)
  {
    assert s[|s| - |y|..] == s[|s| - |t|..][|t| - |y|..];
  }

  lemma {:induction false} GapEndsWith(g: seq<Piece>, y: string)
    ensures EndsWith(GapTo(g, y), y)
    decreases |g|
  {
    if g != [] {
      GapEndsWith(g[1..], y);
      StillEndsWith(PieceText(g[0]), GapTo(g[1..], y), y);
    }
  }

  lemma {:induction false} ValEndsWith(v: Val, y: string)
    ensures EndsWith(ValTo(v, y), y)
    decreases v, 1
  {
    hide EndsWith;
    match v
    case Raw(x) => FollowedBy(x, y);
    case List(items, comma, close) =>
      ItemsEndWith(items, comma, close, y);
      StillEndsWith("[", ItemsTo(items, comma, close, y), y);
    case Table(es, comma, blank) =>
      EntriesEndWith(es, comma, blank, y);
      StillEndsWith("{", EntriesTo(es, comma, blank, y), y);
  }

  lemma FollowedBy(x: string, y: string)
    ensures EndsWith(x + y, y)
  {
  }

  lemma {:induction false} ItemsEndWith(items: seq<Element>, comma: bool, close: seq<Piece>, y: string)
    ensures EndsWith(ItemsTo(items, comma, close, y), y)
    decreases items, 0
  {
    hide EndsWith;
    FollowedBy("]", y);
    if items == [] {
      GapEndsWith(close, "]" + y);
      EndsWithTwice(GapTo(close, "]" + y), "]" + y, y);
    } else {
      var x, z := items[0], ItemEnd(items, comma, close, y);
      var after := GapTo(x.after, z);
      if !(|items| == 1 && !comma) {
        ItemsEndWith(items[1..], comma, close, y);
        StillEndsWith(",", ItemsTo(items[1..], comma, close, y), y);
      }
      GapEndsWith(x.after, z);
      EndsWithTwice(after, z, y);
      ValEndsWith(x.value, after);
      EndsWithTwice(ValTo(x.value, after), after, y);
      GapEndsWith(x.before, ValTo(x.value, after));
      EndsWithTwice(GapTo(x.before, ValTo(x.value, after)), ValTo(x.value, after), y);
    }
  }

  lemma {:induction false} EntriesEndWith(es: seq<Entry>, comma: bool, blank: string, y: string)
    ensures EndsWith(EntriesTo(es, comma, blank, y), y)
    decreases es, 0
  {
    hide EndsWith;
    FollowedBy("}", y);
    if es == [] {
      StillEndsWith(blank, "}" + y, y);
    } else {
      var z := EntryEnd(es, comma, blank, y);
      if !(|es| == 1 && !comma) {
        EntriesEndWith(es[1..], comma, blank, y);
        StillEndsWith(",", EntriesTo(es[1..], comma, blank, y), y);
      }
      EntryEndsWith(es[0], z);
      EndsWithTwice(EntryTo(es[0], z), z, y);
    }
  }

  lemma {:induction false} EntryEndsWith(e: Entry, z: string)
    ensures EndsWith(EntryTo(e, z), z)
    decreases e, 2
  {
    hide EndsWith;
    var s := ValTo(e.value, e.behind + z);
    FollowedBy(e.behind, z);
    ValEndsWith(e.value, e.behind + z);
    EndsWithTwice(s, e.behind + z, z);
    StillEndsWith(e.left, s, z);
    StillEndsWith("=", e.left + s, z);
    StillEndsWith(e.mid, "=" + (e.left + s), z);
    StillEndsWith(e.key, e.mid + ("=" + (e.left + s)), z);
    StillEndsWith(e.before, e.key + (e.mid + ("=" + (e.left + s))), z);
  }

  lemma EndIsRead(r: Reader, p: nat, s: string, y: string)
    requires Reads(r, p, s) && EndsWith(s, y)
    ensures |y| <= |r.text| && Reads(r, Place(r, y), y)
  {
    assert r.text[Place(r, y)..] == r.text[p..][|s| - |y|..];
  }

  /** Behind a value there is what follows it. */
  lemma ValueInFront(r: Reader, p: nat, v: Val, y: string)
    requires Reads(r, p, ValTo(v, y))
    ensures |y| <= |r.text| && Reads(r, Place(r, y), y)
  {
    ValEndsWith(v, y);
    EndIsRead(r, p, ValTo(v, y), y);
  }

  // Inline tables

  /** What reading a value does for each kind of token, under a key that is new. */
  lemma StringValue(r: Reader, tok: Token, d: Doc, t: nat, key: string, name: string, next: Token)
    requires TomlRead.At(r, tok) && tok.kind == STRING && Closed(d) && t < |d.tables|
    requires r.normalize(key) == Some(name) && name !in Keys(d, d.tables[t]) && Next(r, tok, true) == Eaten(true, next)
    ensures ReadValue(r, tok, d, t, key) == Read(true, next, AddVal(d, t, KeyVal(name, Text(r, tok))))
  {
    hide Next, AddVal, Text, Keys, IndexOf, ReadArray, ReadInline, AddTable, AddArray, TomlRead.At;
  }

  lemma ListValue(r: Reader, tok: Token, d: Doc, t: nat, key: string, name: string)
    requires TomlRead.At(r, tok) && tok.kind == LBRACKET && Closed(d) && t < |d.tables|
    requires r.normalize(key) == Some(name) && name !in Keys(d, d.tables[t])
    ensures ReadValue(r, tok, d, t, key) == ReadArray(r, tok, AddArray(d, t, name), |d.arrays|)
  {
    hide Next, AddVal, Text, Keys, IndexOf, ReadArray, ReadInline, AddTable, TomlRead.At;
  }

  lemma TableValue(r: Reader, tok: Token, d: Doc, t: nat, key: string, name: string)
    requires TomlRead.At(r, tok) && tok.kind == LBRACE && Closed(d) && t < |d.tables|
    requires r.normalize(key) == Some(name) && name !in Keys(d, d.tables[t])
    ensures ReadValue(r, tok, d, t, key) == ReadInline(r, tok, AddTable(d, t, name, false), |d.tables|)
  {
    hide Next, AddVal, Text, Keys, IndexOf, ReadArray, ReadInline, AddArray, TomlRead.At;
  }

  lemma RawIsRead(r: Reader, p: nat, d: Doc, t: nat, key: string, name: string, x: string, y: string)
    requires Reads(r, p, x + y) && IsWord(x, true) && GoesOn(r, y) && Closed(d) && t < |d.tables|
    requires r.normalize(key) == Some(name) && name !in Keys(d, d.tables[t])
    ensures From(r, p, false).Some? && TomlRead.At(r, From(r, p, false).value)
    ensures ReadValue(r, From(r, p, false).value, d, t, key)
            == Read(true, From(r, Place(r, y), true).value, AddVal(d, t, KeyVal(name, x)))
  {
    hide From, IsWord, GoesOn, Ends, EndsStamp, Next, AddVal, ReadValue, Text, Keys;
    MayFollow(r, y, true);
    WordIsRead(r, p, x, y, true, true);
    StringValue(r, Token(STRING, p, |x|, false), d, t, key, name, From(r, Place(r, y), true).value);
  }

  /** What stands behind the equals sign. */
  lemma {:induction false} ValueIsRead(r: Reader, n: Names, p: nat, d: Doc, t: nat, key: string, name: string, v: Val,
                                       y: string)
    requires Fits(r, n) && Reads(r, p, ValTo(v, y)) && ValOk(v) && Named(n, v) && NoTwins(n, v) && GoesOn(r, y)
    requires Closed(d) && t < |d.tables| && r.normalize(key) == Some(name) && name !in Keys(d, d.tables[t])
    ensures From(r, p, false).Some? && TomlRead.At(r, From(r, p, false).value)
    ensures ReadValue(r, From(r, p, false).value, d, t, key)
            == Read(true, From(r, Place(r, y), true).value, PutValue(n, d, t, name, v))
    decreases v, 4
  {
    hide From, GoesOn, Reads, ReadValue, ReadArray, ReadInline, PutItems, PutEntries, AddTable, AddArray, AddVal, Keys;
    hide Close, Closed, IsWord, TomlRead.At, KeysNew;
    match v
    case Raw(x) => RawIsRead(r, p, d, t, key, name, x, y);
    case List(items, comma, close) =>
      OpensWith(r, p, "[", ItemsTo(items, comma, close, y));
      NewArrayAdded(d, t, name);
      ListIsRead(r, n, p, AddArray(d, t, name), |d.arrays|, items, comma, close, y);
      ListValue(r, Token(LBRACKET, p, 1, false), d, t, key, name);
    case Table(es, comma, blank) =>
      OpensWith(r, p, "{", EntriesTo(es, comma, blank, y));
      NewAdded(d, t, name);
      NewKeys(n, AddTable(d, t, name, false), |d.tables|, es);
      InlineIsRead(r, n, p, AddTable(d, t, name, false), |d.tables|, es, comma, blank, y);
      TableValue(r, Token(LBRACE, p, 1, false), d, t, key, name);
  }

  lemma NewArrayAdded(d: Doc, t: nat, name: string)
    requires Closed(d) && t < |d.tables|
    ensures |d.arrays| < |AddArray(d, t, name).arrays|
  {
  }

  /** From the opening brace to behind the closing one. */
  lemma {:induction false} InlineIsRead(r: Reader, n: Names, p: nat, d: Doc, t: nat, es: seq<Entry>, comma: bool,
                                        blank: string, y: string)
    requires Fits(r, n) && Reads(r, p, "{" + EntriesTo(es, comma, blank, y)) && GoesOn(r, y)
    requires Whites(blank) && Closed(d) && t < |d.tables| && !d.tables[t].isReadonly
    requires forall i :: 0 <= i < |es| ==> EntryOk(es[i]) && EntryNamed(n, es[i]) && EntryNoTwins(n, es[i])
    requires KeysNew(n, d, t, es)
    ensures p < |r.text| && TomlRead.At(r, Token(LBRACE, p, 1, false))
    ensures ReadInline(r, Token(LBRACE, p, 1, false), d, t)
            == Read(true, From(r, Place(r, y), true).value, Close(PutEntries(n, d, t, es), t))
    decreases es, 3
  {
    hide From, NextOf, ReadEntries, PutEntries, KeysNew, EndsWith, GoesOn;
    ReadsOn(r, p, "{", EntriesTo(es, comma, blank, y));
    EntriesAreRead(r, n, p + 1, d, t, es, comma, blank, y);
    NextIsFrom(r, Token(LBRACE, p, 1, false), true);
    BraceIsEaten(r, Place(r, "}" + y), y);
    hide Reads, Eat, Close;
    assert Eat(r, Token(LBRACE, p, 1, false), LBRACE, true) == Eaten(true, From(r, p + 1, true).value) by {
      LeftBraceIsEaten(r, p);
    }
  }

  lemma LeftBraceIsEaten(r: Reader, p: nat)
    requires p < |r.text| && From(r, p + 1, true).Some?
    ensures Eat(r, Token(LBRACE, p, 1, false), LBRACE, true) == Eaten(true, From(r, p + 1, true).value)
  {
    hide From, NextOf;
    NextIsFrom(r, Token(LBRACE, p, 1, false), true);
  }

  lemma BraceIsEaten(r: Reader, p: nat, y: string)
    requires Reads(r, p, "}" + y) && GoesOn(r, y)
    ensures p + 1 == Place(r, y) && TomlRead.At(r, Token(RBRACE, p, 1, false))
    ensures Eat(r, Token(RBRACE, p, 1, false), RBRACE, true) == Eaten(true, From(r, Place(r, y), true).value)
  {
    hide From, NextOf;
    ReadsOn(r, p, "}", y);
    NextIsFrom(r, Token(RBRACE, p, 1, false), true);
  }

  /** The entries up to the closing brace. */
  lemma {:induction false} EntriesAreRead(r: Reader, n: Names, p: nat, d: Doc, t: nat, es: seq<Entry>, comma: bool,
                                          blank: string, y: string)
    requires Fits(r, n) && Reads(r, p, EntriesTo(es, comma, blank, y)) && GoesOn(r, y)
    requires Whites(blank) && Closed(d) && t < |d.tables| && !d.tables[t].isReadonly
    requires forall i :: 0 <= i < |es| ==> EntryOk(es[i]) && EntryNamed(n, es[i]) && EntryNoTwins(n, es[i])
    requires KeysNew(n, d, t, es)
    ensures |"}" + y| <= |r.text| && Reads(r, Place(r, "}" + y), "}" + y)
    ensures From(r, p, true).Some? && TomlRead.At(r, From(r, p, true).value)
    ensures ReadEntries(r, From(r, p, true).value, d, t)
            == Read(true, Token(RBRACE, Place(r, "}" + y), 1, false), PutEntries(n, d, t, es))
    decreases es, 2
  {
    if es == [] {
      WhitesFollow(r, p, blank, "}" + y);
      hide From;
    } else {
      FirstEntryIsRead(r, n, p, d, t, es, comma, blank, y);
    }
  }

  /** A key up to its equals sign. */
  lemma KeyIsRead(r: Reader, p: nat, e: Entry, rest: string)
    requires EntryOk(e) && Reads(r, p, e.before + (e.key + (e.mid + ("=" + rest))))
    ensures var k, q := p + |e.before|, p + |e.before| + |e.key| + |e.mid|;
            && q < |r.text| && From(r, p, true) == Some(Token(STRING, k, |e.key|, false))
            && TomlRead.At(r, Token(STRING, k, |e.key|, false)) && Text(r, Token(STRING, k, |e.key|, false)) == e.key
            && TomlRead.At(r, Token(EQUAL, q, 1, false)) && Reads(r, q + 1, rest)
            && Eat(r, Token(STRING, k, |e.key|, false), STRING, true) == Eaten(true, Token(EQUAL, q, 1, false))
  {
    hide From, Follows, IsWord, ValOk, GoesOn, Ends, EndsStamp, TomlRead.At, Next, Reads, Whites, Text;
    var k := p + |e.before|;
    var s := e.mid + ("=" + rest);
    ReadsOn(r, p, e.before, e.key + s);
    ReadsOn(r, k, e.key, s);
    WhitesFollow(r, k + |e.key|, e.mid, "=" + rest);
    MayFollow(r, s, false);
    WordIsRead(r, k, e.key, s, true, false);
    PastWhites(r, p, e.before, e.key + s, true);
    EqualsIs(r, k + |e.key|, e.mid, rest);
  }

  lemma EqualsIs(r: Reader, p: nat, w: string, rest: string)
    requires Reads(r, p, w + ("=" + rest))
    ensures var q := p + |w|;
            && q < |r.text| && |rest| < |r.text| && q == Place(r, "=" + rest)
            && TomlRead.At(r, Token(EQUAL, q, 1, false)) && Reads(r, q + 1, rest)
  {
    ReadsOn(r, p, w, "=" + rest);
    ReadsOn(r, p + |w|, "=", rest);
  }

  /** An entry up to the blanks behind its value. */
  lemma {:induction false} EntryIsRead(r: Reader, n: Names, p: nat, d: Doc, t: nat, e: Entry, z: string)
    requires Fits(r, n) && Reads(r, p, EntryTo(e, z)) && EntryOk(e) && EntryNamed(n, e) && EntryNoTwins(n, e)
    requires |e.behind + z| <= |r.text| && GoesOn(r, e.behind + z)
    requires Closed(d) && t < |d.tables| && !d.tables[t].isReadonly && NameOf(n, e) !in Keys(d, d.tables[t])
    ensures From(r, p, true).Some? && TomlRead.At(r, From(r, p, true).value) && From(r, p, true).value.kind == STRING
    ensures ReadKeyVal(r, From(r, p, true).value, d, t)
            == Read(true, From(r, Place(r, e.behind + z), true).value, PutEntry(n, d, t, e))
    decreases e, 5
  {
    hide From, NextOf, ReadValue, ReadKeyVal, GoesOn, Keys, ValOk, IsWord, PutValue, Whites, Eat, Next, Text, Reads;
    hide TomlRead.At, ValTo;
    var rest := e.left + ValTo(e.value, e.behind + z);
    var k, q := p + |e.before|, p + |e.before| + |e.key| + |e.mid|;
    KeyIsRead(r, p, e, rest);
    PastWhites(r, q + 1, e.left, ValTo(e.value, e.behind + z), false);
    ValueIsRead(r, n, q + 1 + |e.left|, d, t, e.key, NameOf(n, e), e.value, e.behind + z);
    EqualsIsEaten(r, q);
    KeyValFrom(r, Token(STRING, k, |e.key|, false), d, t, Token(EQUAL, q, 1, false), From(r, q + 1, false).value);
  }

  lemma EqualsIsEaten(r: Reader, q: nat)
    requires TomlRead.At(r, Token(EQUAL, q, 1, false)) && From(r, q + 1, false).Some?
    ensures Next(r, Token(EQUAL, q, 1, false), false) == Eaten(true, From(r, q + 1, false).value)
  {
    hide From, NextOf;
    NextIsFrom(r, Token(EQUAL, q, 1, false), false);
  }

  /** A key with its equals sign, and the value behind it. */
  lemma KeyValFrom(r: Reader, tok: Token, d: Doc, t: nat, eq: Token, v: Token)
    requires TomlRead.At(r, tok) && Closed(d) && t < |d.tables| && !d.tables[t].isReadonly
    requires Eat(r, tok, STRING, true) == Eaten(true, eq) && eq.kind == EQUAL && Next(r, eq, false) == Eaten(true, v)
    ensures TomlRead.At(r, v) && ReadKeyVal(r, tok, d, t) == ReadValue(r, v, d, t, Text(r, tok))
  {
    hide Eat, Next, Text, ReadValue;
  }

  lemma {:induction false} FirstEntryIsRead(r: Reader, n: Names, p: nat, d: Doc, t: nat, es: seq<Entry>, comma: bool,
                                            blank: string, y: string)
    requires es != [] && Fits(r, n) && Reads(r, p, EntriesTo(es, comma, blank, y)) && GoesOn(r, y)
    requires Whites(blank) && Closed(d) && t < |d.tables| && !d.tables[t].isReadonly
    requires forall i :: 0 <= i < |es| ==> EntryOk(es[i]) && EntryNamed(n, es[i]) && EntryNoTwins(n, es[i])
    requires KeysNew(n, d, t, es)
    ensures |"}" + y| <= |r.text| && Reads(r, Place(r, "}" + y), "}" + y)
    ensures From(r, p, true).Some? && TomlRead.At(r, From(r, p, true).value)
    ensures ReadEntries(r, From(r, p, true).value, d, t)
            == Read(true, Token(RBRACE, Place(r, "}" + y), 1, false), PutEntries(n, d, t, es))
    decreases es, 1
  {
    hide From, ReadEntries, ReadKeyVal, GoesOn, Eat, Keys, KeysNew, PutEntry, EntryTo, ValOk, TomlRead.At, Whites;
    var e, z := es[0], EntryEnd(es, comma, blank, y);
    assert EntryOk(e) && EntryNamed(n, e) && EntryNoTwins(n, e);
    EntryInFront(r, p, e, z);
    WhitesFollow(r, Place(r, e.behind + z), e.behind, z);
    FirstKeyIsNew(n, d, t, es);
    EntryIsRead(r, n, p, d, t, e, z);
    var f := PutEntry(n, d, t, e);
    var mark := Token(KindOf(z[0], false), Place(r, z), 1, false);
    EntriesFrom(r, From(r, p, true).value, d, t, Read(true, mark, f));
    if |es| > 1 || comma {
      var more := EntriesTo(es[1..], comma, blank, y);
      ReadsOn(r, Place(r, z), ",", more);
      OthersAreNew(n, d, f, t, es);
      EntriesAreRead(r, n, Place(r, z) + 1, f, t, es[1..], comma, blank, y);
      EntryCommaIsEaten(r, Place(r, z), more);
    }
  }

  lemma EntryInFront(r: Reader, p: nat, e: Entry, z: string)
    requires Reads(r, p, EntryTo(e, z))
    ensures |e.behind + z| <= |r.text| && Reads(r, Place(r, e.behind + z), e.behind + z)
  {
    hide EndsWith;
    var y := e.behind + z;
    var s := ValTo(e.value, y);
    ValEndsWith(e.value, y);
    StillEndsWith(e.left, s, y);
    StillEndsWith("=", e.left + s, y);
    StillEndsWith(e.mid, "=" + (e.left + s), y);
    StillEndsWith(e.key, e.mid + ("=" + (e.left + s)), y);
    StillEndsWith(e.before, e.key + (e.mid + ("=" + (e.left + s))), y);
    EndIsRead(r, p, EntryTo(e, z), y);
  }

  lemma FirstKeyIsNew(n: Names, d: Doc, t: nat, es: seq<Entry>)
    requires Closed(d) && t < |d.tables| && es != [] && forall i :: 0 <= i < |es| ==> EntryNamed(n, es[i])
    requires KeysNew(n, d, t, es)
    ensures NameOf(n, es[0]) !in Keys(d, d.tables[t])
  {
  }

  lemma OthersAreNew(n: Names, d: Doc, f: Doc, t: nat, es: seq<Entry>)
    requires Closed(d) && t < |d.tables| && es != [] && forall i :: 0 <= i < |es| ==> EntryNamed(n, es[i])
    requires KeysNew(n, d, t, es) && f == PutEntry(n, d, t, es[0])
    ensures forall i :: 0 <= i < |es[1..]| ==> EntryNamed(n, es[1..][i])
    ensures KeysNew(n, f, t, es[1..]) && f.tables[t].isReadonly == d.tables[t].isReadonly
  {
    PutValueGrows(n, d, t, NameOf(n, es[0]), es[0].value);
    KeysGrew(d, f, t, NameOf(n, es[0]), es[0].value);
    assert forall i :: 0 <= i < |es[1..]| ==> es[1..][i] == es[i + 1];
    hide Keys, PutEntry, PutValue;
  }

  /** One turn of the loop over the entries. */
  lemma EntriesFrom(r: Reader, tok: Token, d: Doc, t: nat, k: Read)
    requires TomlRead.At(r, tok) && Closed(d) && t < |d.tables| && tok.kind == STRING
    requires ReadKeyVal(r, tok, d, t) == k && k.ok && k.tok.kind != NEWLINE
    ensures ReadEntries(r, tok, d, t)
            == if k.tok.kind != COMMA then k
               else
                 var e := Eat(r, k.tok, COMMA, true);
                 if !e.ok then Read(false, e.tok, k.doc) else ReadEntries(r, e.tok, k.doc, t)
  {
    hide ReadKeyVal, Eat;
  }

  lemma EntryCommaIsEaten(r: Reader, p: nat, s: string)
    requires Reads(r, p, "," + s) && From(r, p + 1, true).Some?
    ensures TomlRead.At(r, Token(COMMA, p, 1, false))
    ensures Eat(r, Token(COMMA, p, 1, false), COMMA, true) == Eaten(true, From(r, p + 1, true).value)
  {
    hide From, NextOf;
    ReadsOn(r, p, ",", s);
    NextIsFrom(r, Token(COMMA, p, 1, false), true);
  }
}

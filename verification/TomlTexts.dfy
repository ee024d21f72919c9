/** Every spelled document is read completely, and its lines make of the document what they stand for. */
module TomlTexts {
  import opened Options
  import opened TomlBuild
  import opened TomlDoc
  import opened TomlLines
  import opened TomlRead
  import opened TomlReads
  import opened TomlSpelling
  import opened TomlTokens
  import opened TomlValues
  import opened TomlWords

  // What lines stand for

  /** The table to which the last of some keys belongs. */
  function Along(r: Reader, d: Doc, t: nat, path: seq<Name>): (c: Created)
    requires Closed(d) && t < |d.tables|
    ensures Closed(c.doc) && NotSmaller(d, c.doc) && (c.id.Some? ==> c.id.value < |c.doc.tables|)
    decreases |path|
  {
    if path == [] then Created(d, Some(t))
    else if d.tables[t].isReadonly then Created(d, None)
    else
      var c := SubTable(r, d, t, path[0].key);
      if c.id.None? then c else Along(r, c.doc, c.id.value, path[1..])
  }

  predicate PathNamed(n: Names, path: seq<Name>) {
    forall i :: 0 <= i < |path| ==> n.normalize(path[i].key).Some?
  }

  function PathNames(n: Names, path: seq<Name>): (keys: seq<string>)
    requires PathNamed(n, path)
    ensures |keys| == |path|
  {
    seq(|path|, i requires 0 <= i < |path| => n.normalize(path[i].key).value)
  }

  /** An entry may be put into a table: it has names, no key twice in an inline table, and its key is new. */
  ghost predicate MayPut(n: Names, d: Doc, t: nat, e: Entry)
    requires Closed(d) && t < |d.tables|
  {
    && EntryNamed(n, e) && EntryNoTwins(n, e)
    && !d.tables[t].isReadonly && NameOf(n, e) !in Keys(d, d.tables[t])
  }

  /** The document behind a line, and the number of the current table, unless the line must not stand there. */
  ghost function PutLine(r: Reader, n: Names, d: Doc, cur: nat, stmt: Statement): (c: Created)
    requires Closed(d) && cur < |d.tables|
    ensures Closed(c.doc) && NotSmaller(d, c.doc) && (c.id.Some? ==> c.id.value < |c.doc.tables|)
  {
    match stmt
    case Pair(path, e) =>
      var c := Along(r, d, cur, path);
      if c.id.Some? && MayPut(n, c.doc, c.id.value, e) then Created(PutEntry(n, c.doc, c.id.value, e), Some(cur))
      else Created(c.doc, None)
    case Header(path, last, isList, _) =>
      if PathNamed(n, path) && n.normalize(last.key).Some? then SelectTable(r, d, PathNames(n, path), last.key, isList)
      else Created(d, None)
  }

  ghost function PutLines(r: Reader, n: Names, d: Doc, cur: nat, lines: seq<Written>): (c: Created)
    requires Closed(d) && cur < |d.tables|
    ensures Closed(c.doc) && NotSmaller(d, c.doc) && (c.id.Some? ==> c.id.value < |c.doc.tables|)
    decreases |lines|
  {
    if lines == [] then Created(d, Some(cur))
    else
      var c := PutLine(r, n, d, cur, lines[0].stmt);
      if c.id.None? then c else PutLines(r, n, c.doc, c.id.value, lines[1..])
  }

  // Ends of lines

  lemma EndOfText(r: Reader, dot: bool)
    ensures From(r, |r.text|, dot) == Some(Token(NEWLINE, |r.text|, 0, true))
  {
    hide StringLen;
    GapFrom(r.text, |r.text|);
    hide Gap;
  }

  /** The token of the end of a line. */
  function EndMark(r: Reader, end: Option<Piece>, rest: string): Token
    requires |rest| <= |r.text| && (end.Some? ==> |rest| < |r.text|)
  {
    if end.None? then Token(NEWLINE, |r.text|, 0, true) else Token(NEWLINE, Place(r, rest) - 1, 1, false)
  }

  lemma BreakIsFound(r: Reader, p: nat, rest: string, dot: bool)
    requires Reads(r, p, "\n" + rest)
    ensures |rest| < |r.text| && Reads(r, Place(r, rest), rest) && Place(r, rest) == p + 1
    ensures From(r, p, dot) == Some(Token(NEWLINE, p, 1, false))
  {
    hide From;
    ReadsOn(r, p, "\n", rest);
    FromMark(r, p, dot);
  }

  lemma CommentIsFound(r: Reader, p: nat, text: string, rest: string, dot: bool)
    requires '\n' !in text && Reads(r, p, "#" + text + "\n" + rest)
    ensures |rest| < |r.text| && Reads(r, Place(r, rest), rest)
    ensures From(r, p, dot) == Some(Token(NEWLINE, Place(r, rest) - 1, 1, false))
  {
    hide From;
    CommentLies(r, p, text, rest);
    var q := p + 1 + |text|;
    FromComment(r, p, q, dot);
    BreakIsFound(r, q, rest, dot);
  }

  /** The end of a line is found, and what is behind it comes next. */
  lemma EndIsFound(r: Reader, p: nat, end: Option<Piece>, rest: string, dot: bool)
    requires EndOk(end, rest) && Reads(r, p, EndTo(end, rest))
    ensures |rest| <= |r.text| && (end.Some? ==> |rest| < |r.text|) && Reads(r, Place(r, rest), rest)
    ensures From(r, p, dot) == Some(EndMark(r, end, rest))
  {
    hide From;
    match end
    case None => EndOfText(r, dot);
    case Some(Break) => BreakIsFound(r, p, rest, dot);
    case Some(Comment(text)) => CommentIsFound(r, p, text, rest, dot);
    case _ =>
  }

  lemma EndEnds(end: Option<Piece>, rest: string)
    requires EndOk(end, rest)
    ensures Ends(EndTo(end, rest), true) && EndsStamp(EndTo(end, rest))
  {
    assert end.Some? ==> EndTo(end, rest)[0] == PieceText(end.value)[0];
  }

  /** Blanks up to the end of a line. */
  lemma LineEnds(r: Reader, p: nat, w: string, end: Option<Piece>, rest: string)
    requires Whites(w) && EndOk(end, rest) && Reads(r, p, w + EndTo(end, rest))
    ensures |rest| <= |r.text| && (end.Some? ==> |rest| < |r.text|) && Reads(r, Place(r, rest), rest)
    ensures GoesOn(r, w + EndTo(end, rest)) && p == Place(r, w + EndTo(end, rest))
    ensures From(r, p, true) == Some(EndMark(r, end, rest)) && TomlRead.At(r, EndMark(r, end, rest))
  {
    hide From, EndTo, EndOk, EndMark, Ends, EndsStamp, Whites, Reads, TomlRead.At;
    ReadsOn(r, p, w, EndTo(end, rest));
    PlaceIs(r, p, w + EndTo(end, rest));
    EndEnds(end, rest);
    WhitesEnd(w, EndTo(end, rest));
    EndIsFound(r, p + |w|, end, rest, true);
    EndIsFound(r, p + |w|, end, rest, false);
    MarkIsAt(r, p + |w|, end, rest);
    PastWhites(r, p, w, EndTo(end, rest), true);
    PastWhites(r, p, w, EndTo(end, rest), false);
  }

  lemma EndIsEaten(r: Reader, end: Option<Piece>, rest: string)
    requires EndOk(end, rest) && |rest| <= |r.text| && (end.Some? ==> |rest| < |r.text|)
    requires TomlRead.At(r, EndMark(r, end, rest)) && From(r, Place(r, rest), true).Some?
    ensures Next(r, EndMark(r, end, rest), true) == Eaten(true, From(r, Place(r, rest), true).value)
  {
    hide From, NextOf;
    NextIsFrom(r, EndMark(r, end, rest), true);
  }

  /** A token that can be read from. */
  predicate Found(r: Reader, p: nat) {
    p <= |r.text| && From(r, p, true).Some? && TomlRead.At(r, From(r, p, true).value)
  }

  /** Behind the end of a line reading goes on with what is behind it. */
  lemma EndIsPassed(r: Reader, end: Option<Piece>, rest: string, d: Doc, cur: nat)
    requires EndOk(end, rest) && |rest| <= |r.text| && (end.Some? ==> |rest| < |r.text|)
    requires TomlRead.At(r, EndMark(r, end, rest)) && Found(r, Place(r, rest)) && Closed(d) && cur < |d.tables|
    ensures ReadLines(r, EndMark(r, end, rest), d, cur) == ReadLines(r, From(r, Place(r, rest), true).value, d, cur)
  {
    hide From, Next;
    match end
    case None => EndOfText(r, true);
    case Some(_) => EndIsEaten(r, end, rest);
  }

  /** A gap between lines. */
  lemma {:induction false} GapIsPassed(r: Reader, p: nat, g: seq<Piece>, s: string, d: Doc, cur: nat)
    requires GapOk(g) && Reads(r, p, GapTo(g, s)) && |s| <= |r.text| && Found(r, Place(r, s))
    requires Closed(d) && cur < |d.tables|
    ensures Found(r, p)
    ensures ReadLines(r, From(r, p, true).value, d, cur) == ReadLines(r, From(r, Place(r, s), true).value, d, cur)
    decreases |g|
  {
    hide From, ReadLines, EndTo, EndMark;
    if g != [] {
      GapBegins(r, p, g, s);
      var rest := GapTo(g[1..], s);
      ReadsOn(r, p, PieceText(g[0]), rest);
      GapIsPassed(r, p + |PieceText(g[0])|, g[1..], s, d, cur);
      match g[0]
      case White(c) => FromBlank(r, p, true);
      case _ => PieceIsPassed(r, p, g[0], rest, d, cur);
    }
  }

  lemma PieceIsPassed(r: Reader, p: nat, piece: Piece, rest: string, d: Doc, cur: nat)
    requires PieceOk(piece) && !piece.White? && Reads(r, p, PieceText(piece) + rest) && Closed(d) && cur < |d.tables|
    requires Found(r, p + |PieceText(piece)|)
    ensures Found(r, p)
    ensures ReadLines(r, From(r, p, true).value, d, cur)
            == ReadLines(r, From(r, p + |PieceText(piece)|, true).value, d, cur)
  {
    hide From, ReadLines, PieceText, EndMark, Ends, EndsStamp, Reads, TomlRead.At;
    assert Reads(r, p, EndTo(Some(piece), rest));
    EndIsFound(r, p, Some(piece), rest, true);
    PlaceBehind(r, p, PieceText(piece), rest);
    MarkIsAt(r, p, Some(piece), rest);
    EndIsPassed(r, Some(piece), rest, d, cur);
  }

  lemma PlaceBehind(r: Reader, p: nat, x: string, rest: string)
    requires Reads(r, p, x + rest)
    ensures p + |x| <= |r.text| && |rest| <= |r.text| && Place(r, rest) == p + |x|
  {
  }

  lemma MarkIsAt(r: Reader, p: nat, end: Option<Piece>, rest: string)
    requires p <= |r.text| && |rest| <= |r.text| && (end.Some? ==> |rest| < |r.text|)
    requires From(r, p, true) == Some(EndMark(r, end, rest))
    ensures TomlRead.At(r, EndMark(r, end, rest))
  {
    hide From;
  }

  // Keys on a path

  lemma FromDot(r: Reader, p: nat)
    requires p < |r.text| && r.text[p] == '.'
    ensures From(r, p, true) == Some(Token(DOT, p, 1, false))
  {
    hide StringLen;
    GapFrom(r.text, p);
    hide Gap;
  }

  predicate EndsKey(z: string) {
    z != [] && z[0] in ['.', ']']
  }

  /** The token behind a key. */
  function KeyMark(r: Reader, z: string): Token
    requires EndsKey(z) && |z| <= |r.text|
  {
    Token(if z[0] == '.' then DOT else RBRACKET, Place(r, z), 1, false)
  }

  lemma KeyMarkIsFound(r: Reader, p: nat, z: string)
    requires EndsKey(z) && Reads(r, p, z)
    ensures |z| <= |r.text| && p == Place(r, z) && From(r, p, true) == Some(KeyMark(r, z))
    ensures TomlRead.At(r, KeyMark(r, z))
  {
    hide From;
    assert r.text[p] == z[0];
    if z[0] == '.' {
      FromDot(r, p);
    } else {
      FromMark(r, p, true);
    }
  }

  lemma NameInFront(r: Reader, p: nat, x: Name, z: string)
    requires Reads(r, p, NameTo(x, z))
    ensures var k := p + |x.before|;
            && Reads(r, k, x.key + (x.behind + z)) && Reads(r, k + |x.key|, x.behind + z)
            && Reads(r, k + |x.key| + |x.behind|, z)
  {
    hide Reads;
    ReadsOn(r, p, x.before, x.key + (x.behind + z));
    ReadsOn(r, p + |x.before|, x.key, x.behind + z);
    ReadsOn(r, p + |x.before| + |x.key|, x.behind, z);
  }

  lemma KeyEnds(w: string, z: string)
    requires Whites(w) && EndsKey(z)
    ensures Ends(w + z, false)
  {
    assert (w + z)[0] == if w == [] then z[0] else w[0];
  }

  /** A key, and the token behind it. */
  lemma NameIsRead(r: Reader, p: nat, x: Name, z: string)
    requires NameOk(x) && EndsKey(z) && Reads(r, p, NameTo(x, z))
    ensures |z| <= |r.text| && Reads(r, Place(r, z), z) && TomlRead.At(r, KeyMark(r, z))
    ensures var tok := Token(STRING, p + |x.before|, |x.key|, false);
            && From(r, p, true) == Some(tok) && TomlRead.At(r, tok) && Text(r, tok) == x.key
            && Next(r, tok, true) == Eaten(true, KeyMark(r, z))
  {
    hide From, Reads, EndsKey, KeyMark, Ends, IsWord, Whites, Text, Next, TomlRead.At;
    NameInFront(r, p, x, z);
    var k := p + |x.before|;
    KeyMarkIsFound(r, k + |x.key| + |x.behind|, z);
    KeyEnds(x.behind, z);
    PastWhites(r, k + |x.key|, x.behind, z, true);
    PlaceIs(r, k + |x.key|, x.behind + z);
    WordIsRead(r, k, x.key, x.behind + z, true, false);
    PastWhites(r, p, x.before, x.key + (x.behind + z), true);
  }

  lemma PlaceIs(r: Reader, p: nat, s: string)
    requires Reads(r, p, s)
    ensures |s| <= |r.text| && Place(r, s) == p
  {
  }

  lemma {:induction false} PathInFront(r: Reader, p: nat, path: seq<Name>, s: string)
    requires Reads(r, p, PathTo(path, s))
    ensures |s| <= |r.text| && Reads(r, Place(r, s), s)
    decreases |path|
  {
    if path == [] {
      PlaceIs(r, p, s);
    } else {
      var z := "." + PathTo(path[1..], s);
      NameInFront(r, p, path[0], z);
      var q := p + |path[0].before| + |path[0].key| + |path[0].behind|;
      ReadsOn(r, q, ".", PathTo(path[1..], s));
      PathInFront(r, q + 1, path[1..], s);
    }
  }

  /** A key with a point behind it in front of an equals sign. */
  lemma DottedFrom(r: Reader, tok: Token, d: Doc, t: nat, dot: Token, next: Token)
    requires TomlRead.At(r, tok) && tok.kind == STRING && Closed(d) && t < |d.tables| && !d.tables[t].isReadonly
    requires Next(r, tok, true) == Eaten(true, dot) && dot.kind == DOT && Next(r, dot, true) == Eaten(true, next)
    requires SubTable(r, d, t, Text(r, tok)).id.Some?
    ensures var c := SubTable(r, d, t, Text(r, tok)); ReadKeyVal(r, tok, d, t) == ReadKeyVal(r, next, c.doc, c.id.value)
  {
    hide Next, SubTable, Text, TomlRead.At, ReadValue;
  }

  lemma MarkIsEaten(r: Reader, p: nat, kind: Kind)
    requires TomlRead.At(r, Token(kind, p, 1, false)) && Found(r, p + 1)
    ensures Next(r, Token(kind, p, 1, false), true) == Eaten(true, From(r, p + 1, true).value)
  {
    hide From, NextOf;
    NextIsFrom(r, Token(kind, p, 1, false), true);
  }

  /** The keys in front of the last one lead to the table in which the rest is read. */
  lemma {:induction false} PathIsWalked(r: Reader, p: nat, d: Doc, t: nat, path: seq<Name>, s: string)
    requires PathOk(path) && Reads(r, p, PathTo(path, s)) && |s| <= |r.text| && Found(r, Place(r, s))
    requires Closed(d) && t < |d.tables| && Along(r, d, t, path).id.Some?
    ensures Found(r, p) && (path != [] ==> From(r, p, true).value.kind == STRING)
    ensures var c := Along(r, d, t, path);
            ReadKeyVal(r, From(r, p, true).value, d, t)
            == ReadKeyVal(r, From(r, Place(r, s), true).value, c.doc, c.id.value)
    decreases |path|
  {
    hide From, ReadKeyVal, NameTo, Text, NameOk, SubTable;
    if path == [] {
      PlaceIs(r, p, s);
    } else {
      var rest := PathTo(path[1..], s);
      var x, c := path[0], SubTable(r, d, t, path[0].key);
      NameIsRead(r, p, x, "." + rest);
      var q := Place(r, "." + rest);
      ReadsOn(r, q, ".", rest);
      PathIsWalked(r, q + 1, c.doc, c.id.value, path[1..], s);
      MarkIsEaten(r, q, DOT);
      hide Next, Reads;
      DottedFrom(r, From(r, p, true).value, d, t, Token(DOT, q, 1, false), From(r, q + 1, true).value);
    }
  }

  /** The keys of a header, up to the closing bracket. */
  lemma {:induction false} PathIsRead(r: Reader, n: Names, p: nat, path: seq<Name>, last: Name, keys: seq<string>,
                                      text: string, s: string)
    requires Fits(r, n) && PathOk(path) && NameOk(last) && |keys| + |path| < 10 && s != [] && s[0] == ']'
    requires Reads(r, p, PathTo(path, NameTo(last, s))) && PathNamed(n, path) && n.normalize(last.key).Some?
    ensures Found(r, p) && From(r, p, true).value.kind == STRING && |s| <= |r.text| && Reads(r, Place(r, s), s)
    ensures ReadPath(r, From(r, p, true).value, keys, text)
            == Path(true, Token(RBRACKET, Place(r, s), 1, false),
                    keys + PathNames(n, path) + [n.normalize(last.key).value], last.key)
    decreases |path|
  {
    hide From, NameTo, NameOk, TomlRead.At, ReadPath, Text, Next;
    if path == [] {
      NameIsRead(r, p, last, s);
      LastKey(r, From(r, p, true).value, keys, text, Token(RBRACKET, Place(r, s), 1, false));
      assert keys + PathNames(n, path) == keys;
    } else {
      var rest := PathTo(path[1..], NameTo(last, s));
      var x, key := path[0], n.normalize(path[0].key).value;
      NameIsRead(r, p, x, "." + rest);
      var q := Place(r, "." + rest);
      ReadsOn(r, q, ".", rest);
      PathIsRead(r, n, q + 1, path[1..], last, keys + [key], x.key, s);
      MarkIsEaten(r, q, DOT);
      NextKey(r, From(r, p, true).value, keys, text, Token(DOT, q, 1, false), From(r, q + 1, true).value);
      NamesInFront(n, path);
      KeysTogether(keys, key, PathNames(n, path[1..]), n.normalize(last.key).value);
    }
  }

  lemma KeysTogether(keys: seq<string>, key: string, more: seq<string>, last: string)
    ensures keys + [key] + more + [last] == keys + ([key] + more) + [last]
  {
  }

  lemma LastKey(r: Reader, tok: Token, keys: seq<string>, last: string, next: Token)
    requires TomlRead.At(r, tok) && tok.kind == STRING && |keys| < 10 && r.normalize(Text(r, tok)).Some?
    requires Next(r, tok, true) == Eaten(true, next) && next.kind == RBRACKET
    ensures ReadPath(r, tok, keys, last)
            == Path(true, next, keys + [r.normalize(Text(r, tok)).value], Text(r, tok))
  {
    hide Next, Text, TomlRead.At;
  }

  lemma NextKey(r: Reader, tok: Token, keys: seq<string>, last: string, dot: Token, next: Token)
    requires TomlRead.At(r, tok) && tok.kind == STRING && |keys| < 10 && r.normalize(Text(r, tok)).Some?
    requires Next(r, tok, true) == Eaten(true, dot) && dot.kind == DOT && Next(r, dot, true) == Eaten(true, next)
    ensures ReadPath(r, tok, keys, last)
            == ReadPath(r, next, keys + [r.normalize(Text(r, tok)).value], Text(r, tok))
  {
    hide Next, Text, TomlRead.At;
  }

  lemma NamesInFront(n: Names, path: seq<Name>)
    requires path != [] && PathNamed(n, path)
    ensures PathNamed(n, path[1..])
    ensures PathNames(n, path) == [n.normalize(path[0].key).value] + PathNames(n, path[1..])
  {
  }

  // Lines

  /** `key = value`, up to the end of the line. */
  lemma PairIsRead(r: Reader, n: Names, p: nat, d: Doc, cur: nat, path: seq<Name>, e: Entry, z: string)
    requires Fits(r, n) && PathOk(path) && EntryOk(e) && Reads(r, p, PathTo(path, EntryTo(e, z)))
    requires |e.behind + z| <= |r.text| && GoesOn(r, e.behind + z) && Closed(d) && cur < |d.tables|
    requires var c := Along(r, d, cur, path); c.id.Some? && MayPut(n, c.doc, c.id.value, e)
    ensures Found(r, p) && From(r, p, true).value.kind == STRING
    ensures var c := Along(r, d, cur, path);
            ReadKeyVal(r, From(r, p, true).value, d, cur)
            == Read(true, From(r, Place(r, e.behind + z), true).value, PutEntry(n, c.doc, c.id.value, e))
  {
    hide From, ReadKeyVal, EntryTo, EntryOk, EntryNoTwins, GoesOn, Along, PutEntry, TomlRead.At, Keys;
    var c := Along(r, d, cur, path);
    PathInFront(r, p, path, EntryTo(e, z));
    EntryIsRead(r, n, Place(r, EntryTo(e, z)), c.doc, c.id.value, e, z);
    PathIsWalked(r, p, d, cur, path, EntryTo(e, z));
    if path == [] {
      PlaceIs(r, p, EntryTo(e, z));
    }
  }

  /** The keys of a header do not begin with another bracket. */
  lemma NoBracket(r: Reader, p: nat, path: seq<Name>, last: Name, s: string)
    requires PathOk(path) && NameOk(last) && Reads(r, p, PathTo(path, NameTo(last, s)))
    ensures p < |r.text| && r.text[p] != '['
  {
    var x := if path == [] then last else path[0];
    var z := if path == [] then s else "." + PathTo(path[1..], NameTo(last, s));
    NameBegins(r, p, x, z);
  }

  lemma NameBegins(r: Reader, p: nat, x: Name, z: string)
    requires NameOk(x) && Reads(r, p, NameTo(x, z))
    ensures p < |r.text| && r.text[p] != '['
  {
    hide IsWord, Reads;
    WordStarts(x.key, false);
    ReadsOn(r, p, x.before, x.key + (x.behind + z));
    ReadsOn(r, p + |x.before|, x.key, x.behind + z);
  }

  /** What is behind the keys of a header: one bracket or two, and the end of the line. */
  lemma HeaderEnds(r: Reader, q: nat, isList: bool, behind: string, end: Option<Piece>, rest: string)
    requires Whites(behind) && EndOk(end, rest)
    requires Reads(r, q, (if isList then "]]" else "]") + (behind + EndTo(end, rest)))
    ensures |rest| <= |r.text| && (end.Some? ==> |rest| < |r.text|) && Reads(r, Place(r, rest), rest)
    ensures TomlRead.At(r, Token(RBRACKET, q, 1, false)) && TomlRead.At(r, EndMark(r, end, rest))
    ensures Closing(r, Token(RBRACKET, q, 1, false), isList) == Eaten(true, EndMark(r, end, rest))
  {
    hide From, EndTo, EndOk, Whites, GoesOn, EndMark;
    var z := behind + EndTo(end, rest);
    var first := if isList then "]]" else "]";
    ReadsOn(r, q, first, z);
    LineEnds(r, q + |first|, behind, end, rest);
    MarkIsEaten(r, q + |first| - 1, RBRACKET);
    if isList {
      assert r.text[q + 1] == r.text[q..][1] == ']';
      FromMark(r, q + 1, true);
      MarkIsEaten(r, q, RBRACKET);
    }
    EndMarkIsNewline(r, end, rest);
    hide Next;
  }

  lemma EndMarkIsNewline(r: Reader, end: Option<Piece>, rest: string)
    requires |rest| <= |r.text| && (end.Some? ==> |rest| < |r.text|)
    ensures EndMark(r, end, rest).kind == NEWLINE
  {
  }

  /** From the opening brackets to the first key. */
  lemma HeaderOpens(r: Reader, p: nat, isList: bool, path: seq<Name>, last: Name, s: string)
    requires PathOk(path) && NameOk(last)
    requires Reads(r, p, (if isList then "[[" else "[") + PathTo(path, NameTo(last, s)))
    requires Found(r, p + if isList then 2 else 1)
    ensures From(r, p, true) == Some(Token(LBRACKET, p, 1, false)) && TomlRead.At(r, Token(LBRACKET, p, 1, false))
    ensures IsDouble(r, Token(LBRACKET, p, 1, false), '[') == isList
    ensures Opening(r, Token(LBRACKET, p, 1, false)) == Eaten(true, From(r, p + if isList then 2 else 1, true).value)
  {
    hide From, NameOk, Next, Found;
    var first := if isList then "[[" else "[";
    ReadsOn(r, p, first, PathTo(path, NameTo(last, s)));
    FromMark(r, p, true);
    if isList {
      assert r.text[p + 1] == r.text[p..][1] == '[';
      FromMark(r, p + 1, true);
      FoundMark(r, p + 1, LBRACKET);
      MarkIsEaten(r, p, LBRACKET);
      MarkIsEaten(r, p + 1, LBRACKET);
    } else {
      NoBracket(r, p + 1, path, last, s);
      MarkIsEaten(r, p, LBRACKET);
    }
  }

  lemma FoundMark(r: Reader, p: nat, kind: Kind)
    requires p < |r.text| && kind != NEWLINE && From(r, p, true) == Some(Token(kind, p, 1, false))
    ensures Found(r, p)
  {
    hide From;
  }

  /** A header makes the table current that its keys select. */
  lemma HeaderIsRead(r: Reader, n: Names, p: nat, d: Doc, path: seq<Name>, last: Name, isList: bool, behind: string,
                     end: Option<Piece>, rest: string)
    requires Fits(r, n) && PathOk(path) && NameOk(last) && Whites(behind) && |path| < 10 && EndOk(end, rest)
    requires Reads(r, p, StmtTo(Header(path, last, isList, behind), EndTo(end, rest))) && Closed(d)
    requires PathNamed(n, path) && n.normalize(last.key).Some?
    requires SelectTable(r, d, PathNames(n, path), last.key, isList).id.Some?
    ensures |rest| <= |r.text| && (end.Some? ==> |rest| < |r.text|) && Reads(r, Place(r, rest), rest)
    ensures From(r, p, true) == Some(Token(LBRACKET, p, 1, false)) && TomlRead.At(r, Token(LBRACKET, p, 1, false))
    ensures TomlRead.At(r, EndMark(r, end, rest))
    ensures var c := SelectTable(r, d, PathNames(n, path), last.key, isList);
            ReadHeader(r, Token(LBRACKET, p, 1, false), d)
            == TomlRead.Line(true, EndMark(r, end, rest), c.doc, c.id.value)
  {
    hide From, NameOk, NameTo, PathTo, SelectTable, Opening, Closing, IsDouble, EndTo, EndMark, EndOk, Whites, PathOk;
    hide ReadPath, TomlRead.At, Reads;
    var first := if isList then "[[" else "[";
    var s := (if isList then "]]" else "]") + (behind + EndTo(end, rest));
    ReadsOn(r, p, first, PathTo(path, NameTo(last, s)));
    PathIsRead(r, n, p + |first|, path, last, [], "", s);
    HeaderEnds(r, Place(r, s), isList, behind, end, rest);
    HeaderOpens(r, p, isList, path, last, s);
    WithoutLast(PathNames(n, path), n.normalize(last.key).value);
  }

  lemma WithoutLast(names: seq<string>, last: string)
    ensures [] + names + [last] == names + [last] && (names + [last])[..|names|] == names
  {
  }

  /** Behind a statement there is the end of its line. */
  lemma StmtInFront(r: Reader, p: nat, stmt: Statement, end: Option<Piece>, rest: string)
    requires StmtOk(stmt) && EndOk(end, rest) && Reads(r, p, StmtTo(stmt, EndTo(end, rest)))
    ensures |rest| <= |r.text| && (end.Some? ==> |rest| < |r.text|) && Reads(r, Place(r, rest), rest)
    ensures stmt.Pair? ==> var s := stmt.entry.behind + EndTo(end, rest);
                           && |s| <= |r.text| && GoesOn(r, s)
                           && From(r, Place(r, s), true) == Some(EndMark(r, end, rest))
                           && TomlRead.At(r, EndMark(r, end, rest))
  {
    hide From, GoesOn, EndTo, EndOk, EndMark, EntryTo, NameTo, Whites, ValOk, IsWord, TomlRead.At, Reads;
    var z := EndTo(end, rest);
    match stmt
    case Pair(path, e) =>
      PathInFront(r, p, path, EntryTo(e, z));
      EntryInFront(r, Place(r, EntryTo(e, z)), e, z);
      LineEnds(r, Place(r, e.behind + z), e.behind, end, rest);
    case Header(path, last, isList, behind) =>
      var first, s := if isList then "[[" else "[", (if isList then "]]" else "]") + (behind + z);
      ReadsOn(r, p, first, PathTo(path, NameTo(last, s)));
      PathInFront(r, p + |first|, path, NameTo(last, s));
      NameInFront(r, Place(r, NameTo(last, s)), last, s);
      var q := Place(r, NameTo(last, s)) + |last.before| + |last.key| + |last.behind|;
      HeaderEnds(r, q, isList, behind, end, rest);
  }

  /** A line is read, and reading goes on behind it. */
  lemma StmtIsRead(r: Reader, n: Names, p: nat, d: Doc, cur: nat, stmt: Statement, end: Option<Piece>, rest: string)
    requires Fits(r, n) && StmtOk(stmt) && EndOk(end, rest) && Reads(r, p, StmtTo(stmt, EndTo(end, rest)))
    requires Closed(d) && cur < |d.tables| && PutLine(r, n, d, cur, stmt).id.Some?
    requires |rest| <= |r.text| && Found(r, Place(r, rest))
    ensures Found(r, p)
    ensures var c := PutLine(r, n, d, cur, stmt);
            ReadLines(r, From(r, p, true).value, d, cur)
            == ReadLines(r, From(r, Place(r, rest), true).value, c.doc, c.id.value)
  {
    hide From, GoesOn, EndTo, EndOk, EndMark, Whites, TomlRead.At, PathOk, NameOk, EntryOk;
    var c := PutLine(r, n, d, cur, stmt);
    StmtInFront(r, p, stmt, end, rest);
    EndMarkIsNewline(r, end, rest);
    match stmt
    case Pair(path, e) =>
      PairIsRead(r, n, p, d, cur, path, e, EndTo(end, rest));
      EndIsEaten(r, end, rest);
      var x := Along(r, d, cur, path);
      PairLine(r, From(r, p, true).value, d, cur, EndMark(r, end, rest), PutEntry(n, x.doc, x.id.value, e),
               From(r, Place(r, rest), true).value);
    case Header(path, last, isList, behind) =>
      HeaderIsRead(r, n, p, d, path, last, isList, behind, end, rest);
      HeaderLine(r, p, d, cur, EndMark(r, end, rest), c.doc, c.id.value);
      EndIsPassed(r, end, rest, c.doc, c.id.value);
  }

  lemma PairLine(r: Reader, tok: Token, d: Doc, cur: nat, mark: Token, e: Doc, next: Token)
    requires TomlRead.At(r, tok) && tok.kind == STRING && Closed(d) && cur < |d.tables|
    requires ReadKeyVal(r, tok, d, cur) == Read(true, mark, e) && mark.kind == NEWLINE
    requires Next(r, mark, true) == Eaten(true, next)
    ensures Closed(e) && cur < |e.tables| && TomlRead.At(r, next)
    ensures ReadLines(r, tok, d, cur) == ReadLines(r, next, e, cur)
  {
    hide ReadKeyVal, Next;
  }

  lemma HeaderLine(r: Reader, p: nat, d: Doc, cur: nat, mark: Token, e: Doc, t: nat)
    requires TomlRead.At(r, Token(LBRACKET, p, 1, false)) && Closed(d) && cur < |d.tables|
    requires ReadHeader(r, Token(LBRACKET, p, 1, false), d) == TomlRead.Line(true, mark, e, t)
    ensures TomlRead.At(r, mark) && Closed(e) && t < |e.tables|
    ensures ReadLines(r, Token(LBRACKET, p, 1, false), d, cur) == ReadLines(r, mark, e, t)
  {
    hide ReadHeader;
  }

  /** Every statement that may stand where it stands is read, up to the end of the text. */
  lemma {:induction false} LinesAreRead(r: Reader, n: Names, p: nat, d: Doc, cur: nat, lines: seq<Written>,
                                        close: seq<Piece>)
    requires Fits(r, n) && LinesOk(lines, close) && Reads(r, p, LinesTo(lines, close))
    requires Closed(d) && cur < |d.tables| && PutLines(r, n, d, cur, lines).id.Some?
    ensures Found(r, p)
    ensures ReadLines(r, From(r, p, true).value, d, cur)
            == Read(true, Token(NEWLINE, |r.text|, 0, true), PutLines(r, n, d, cur, lines).doc)
    decreases |lines|
  {
    hide From, PutLine, StmtOk, StmtTo, EndTo, EndOk, TomlRead.At;
    if lines == [] {
      EndIsLast(r, d, cur);
      GapIsPassed(r, p, close, "", d, cur);
    } else {
      var rest := LinesTo(lines[1..], close);
      var c := PutLine(r, n, d, cur, lines[0].stmt);
      FirstLine(lines, close);
      var s := StmtTo(lines[0].stmt, EndTo(lines[0].end, rest));
      GapInFront(r, p, lines[0].before, s);
      StmtInFront(r, Place(r, s), lines[0].stmt, lines[0].end, rest);
      hide Reads;
      LinesAreRead(r, n, Place(r, rest), c.doc, c.id.value, lines[1..], close);
      StmtIsRead(r, n, Place(r, s), d, cur, lines[0].stmt, lines[0].end, rest);
      GapIsPassed(r, p, lines[0].before, s, d, cur);
      hide ReadLines;
    }
  }

  lemma EndIsLast(r: Reader, d: Doc, cur: nat)
    requires Closed(d) && cur < |d.tables|
    ensures Found(r, |r.text|)
    ensures ReadLines(r, From(r, |r.text|, true).value, d, cur) == Read(true, Token(NEWLINE, |r.text|, 0, true), d)
  {
    hide From;
    EndOfText(r, true);
  }

  lemma FirstLine(lines: seq<Written>, close: seq<Piece>)
    requires lines != [] && LinesOk(lines, close)
    ensures LinesOk(lines[1..], close) && GapOk(lines[0].before) && StmtOk(lines[0].stmt)
    ensures EndOk(lines[0].end, LinesTo(lines[1..], close))
  {
    hide StmtOk, EndOk, GapOk;
    forall i | 0 <= i < |lines[1..]|
      ensures GapOk(lines[1..][i].before) && StmtOk(lines[1..][i].stmt)
      ensures EndOk(lines[1..][i].end, LinesTo(lines[1..][i + 1..], close))
    {
      assert lines[1..][i] == lines[i + 1] && lines[1..][i + 1..] == lines[i + 1 + 1..];
    }
    assert lines[0..][1..] == lines[0 + 1..];
  }

  /** Every spelled document whose lines may stand where they stand is accepted, and read as what they stand for. */
  lemma DocumentIsRead(r: Reader, n: Names, lines: seq<Written>, close: seq<Piece>)
    requires Fits(r, n) && LinesOk(lines, close) && r.text == LinesTo(lines, close)
    requires PutLines(r, n, EMPTY, 0, lines).id.Some?
    ensures ReadDocument(r) == Read(true, Token(NEWLINE, |r.text|, 0, true), PutLines(r, n, EMPTY, 0, lines).doc)
  {
    hide From, NextOf, ReadLines, PutLines, LinesOk, LinesTo, Fits;
    assert r.text[0..] == r.text;
    LinesAreRead(r, n, 0, EMPTY, 0, lines, close);
    NextIsFrom(r, START, true);
  }
}

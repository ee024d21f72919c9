/** What is in a document of entries and sections `[name]` after it was read. */
module TomlSections {
  import opened Options
  import opened TomlBuild
  import opened TomlDoc
  import opened TomlHolds
  import opened TomlLines
  import opened TomlRead
  import opened TomlReads
  import opened TomlSpelling
  import opened TomlTexts
  import opened TomlTokens
  import opened TomlValues

  // Arrays

  /** An array is read from bracket to bracket, and then has all its elements in order; nothing else has changed. */
  lemma ArrayHolds(r: Reader, n: Names, p: nat, d: Doc, a: nat, items: seq<Element>, comma: bool, close: seq<Piece>,
                   y: string)
    requires Fits(r, n) && Reads(r, p, "[" + ItemsTo(items, comma, close, y)) && GoesOn(r, y)
    requires GapOk(close) && Closed(d) && a < |d.arrays|
    requires forall i :: 0 <= i < |items| ==>
               ElementOk(items[i]) && Named(n, items[i].value) && NoTwins(n, items[i].value)
    ensures p < |r.text| && TomlRead.At(r, Token(LBRACKET, p, 1, false))
    ensures var res, k := ReadArray(r, Token(LBRACKET, p, 1, false), d, a), |d.arrays[a].items|;
            && res.ok && res.tok == From(r, Place(r, y), true).value && ArrayGrew(d, res.doc, a, |items|)
            && ItemsHold(n, res.doc, res.doc.arrays[a].items[k..], items, |d.arrays|, |d.tables|)
  {
    ListIsRead(r, n, p, d, a, items, comma, close, y);
    PutItemsGrow(n, d, a, items);
    PutItemsHold(n, d, a, items, |d.arrays|, |d.tables|);
    hide ReadArray, PutItems, From, Reads;
  }

  /** Elements that are tokens: exactly these tokens with their types. */
  lemma TokensHold(n: Names, d: Doc, xs: seq<Item>, items: seq<Element>, la: nat, lt: nat)
    requires forall i :: 0 <= i < |items| ==> items[i].value.Raw?
    ensures (forall i :: 0 <= i < |items| ==> Named(n, items[i].value))
    ensures ItemsHold(n, d, xs, items, la, lt)
            <==> xs == seq(|items|, i requires 0 <= i < |items| =>
                         Value(n.typeOf(items[i].value.text), items[i].value.text))
  {
  }

  // Sections

  datatype Section = Section(key: string, entries: seq<Entry>)

  /** Lines `key = value` and `[name]` only. */
  predicate Plain(lines: seq<Written>) {
    forall i :: 0 <= i < |lines| ==> lines[i].stmt.path == [] && (lines[i].stmt.Header? ==> !lines[i].stmt.isList)
  }

  /** The entries in front of the first header. */
  function Pairs(lines: seq<Written>): seq<Entry> {
    if lines == [] || lines[0].stmt.Header? then [] else [lines[0].stmt.entry] + Pairs(lines[1..])
  }

  /** The lines from the first header on. */
  function Headers(lines: seq<Written>): (more: seq<Written>)
    ensures |more| <= |lines| && (more == [] || more[0].stmt.Header?)
  {
    if lines == [] || lines[0].stmt.Header? then lines else Headers(lines[1..])
  }

  function Sections(lines: seq<Written>): seq<Section>
    decreases |lines|
  {
    var more := Headers(lines);
    if more == [] then []
    else [Section(more[0].stmt.last.key, Pairs(more[1..]))] + Sections(more[1..])
  }

  /** Every entry has a name, and no two have the same one; nor do any two in an inline table. */
  predicate EntriesFit(n: Names, es: seq<Entry>) {
    && (forall i :: 0 <= i < |es| ==> EntryNamed(n, es[i]) && EntryNoTwins(n, es[i]))
    && forall i, j :: 0 <= i < j < |es| ==> NameOf(n, es[i]) != NameOf(n, es[j])
  }

  predicate SectionFits(n: Names, s: Section) {
    n.normalize(s.key).Some? && EntriesFit(n, s.entries)
  }

  function SectionName(n: Names, s: Section): string
    requires SectionFits(n, s)
  {
    n.normalize(s.key).value
  }

  predicate SectionsFit(n: Names, secs: seq<Section>) {
    && (forall i :: 0 <= i < |secs| ==> SectionFits(n, secs[i]))
    && forall i, j :: 0 <= i < j < |secs| ==> SectionName(n, secs[i]) != SectionName(n, secs[j])
  }

  /** The names of sections are new. */
  predicate SectionsNew(n: Names, d: Doc, secs: seq<Section>)
    requires Closed(d) && SectionsFit(n, secs)
  {
    forall i :: 0 <= i < |secs| ==> SectionName(n, secs[i]) !in Keys(d, d.tables[0])
  }

  /** Table `t` is the section: open, with its name and exactly its entries. */
  predicate SectionHolds(n: Names, d: Doc, t: nat, s: Section)
    requires SectionFits(n, s)
  {
    && 1 <= t < |d.tables| && d.tables[t].key == SectionName(n, s)
    && !d.tables[t].isImplicit && !d.tables[t].isReadonly
    && EntriesHold(n, d, d.tables[t], ROOT, s.entries, 0, 1)
  }

  predicate SectionsHold(n: Names, d: Doc, tabs: seq<nat>, secs: seq<Section>)
    requires forall i :: 0 <= i < |secs| ==> SectionFits(n, secs[i])
  {
    |tabs| == |secs| && forall i :: 0 <= i < |secs| ==> SectionHolds(n, d, tabs[i], secs[i])
  }

  // Lines of entries

  /** The entries up to the first header are put into the current table. */
  lemma {:induction false} PairsArePut(r: Reader, n: Names, d: Doc, cur: nat, lines: seq<Written>)
    requires Plain(lines) && EntriesFit(n, Pairs(lines)) && Closed(d) && cur < |d.tables|
    requires !d.tables[cur].isReadonly && KeysNew(n, d, cur, Pairs(lines))
    ensures PutLines(r, n, d, cur, lines)
            == PutLines(r, n, PutEntries(n, d, cur, Pairs(lines)), cur, Headers(lines))
    decreases |lines|
  {
    if lines != [] && lines[0].stmt.Pair? {
      var es := Pairs(lines);
      var e := es[0];
      assert es[1..] == Pairs(lines[1..]);
      FitsOn(n, es);
      FirstKeyIsNew(n, d, cur, es);
      var f := PutEntry(n, d, cur, e);
      OthersAreNew(n, d, f, cur, es);
      hide PutEntry, KeysNew, Keys, EntryNamed, EntryNoTwins;
      assert PutLine(r, n, d, cur, lines[0].stmt) == Created(f, Some(cur));
      hide PutLine;
      PairsArePut(r, n, f, cur, lines[1..]);
    }
  }

  lemma FitsOn(n: Names, es: seq<Entry>)
    requires es != [] && EntriesFit(n, es)
    ensures EntriesFit(n, es[1..]) && EntryNamed(n, es[0]) && EntryNoTwins(n, es[0])
  {
    hide EntryNamed, EntryNoTwins, NameOf;
    assert forall i :: 0 <= i < |es[1..]| ==> es[1..][i] == es[i + 1];
  }
  // One section

  lemma NewTableKeys(d: Doc, f: Doc, name: string)
    requires Closed(d) && Closed(f) && Touches(AddTable(d, 0, name, false), f, NONE, |d.tables|)
    requires f.tables[|d.tables|].key == name
    ensures forall k :: k in Keys(f, f.tables[0]) <==> k in Keys(d, d.tables[0]) || k == name
  {
    var e := AddTable(d, 0, name, false);
    var was, tab := d.tables[0], f.tables[0];
    assert tab == e.tables[0] == was.(tabs := was.tabs + [|d.tables|]);
    assert InDoc(d, was) && InDoc(f, tab);
    assert ArrKeys(f, tab) == ArrKeys(d, was);
    assert forall i :: 0 <= i < |was.tabs| ==> f.tables[was.tabs[i]].key == d.tables[was.tabs[i]].key;
    assert TabKeys(f, tab) == TabKeys(d, was) + [name];
  }

  /** A new table of the root with its entries. */
  lemma SectionIsPut(n: Names, d: Doc, s: Section)
    requires Closed(d) && SectionFits(n, s)
    ensures var t, e := |d.tables|, AddTable(d, 0, SectionName(n, s), false);
            var f := PutEntries(n, e, t, s.entries);
            && SameFrom(d, f, 0, 1) && f.tables[0] == d.tables[0].(tabs := d.tables[0].tabs + [t])
            && Touches(e, f, NONE, t) && SectionHolds(n, f, t, s)
  {
    var t, e := |d.tables|, AddTable(d, 0, SectionName(n, s), false);
    var f := PutEntries(n, e, t, s.entries);
    PutEntriesGrow(n, e, t, s.entries);
    PutEntriesHold(n, e, t, s.entries);
    hide PutEntries, EntriesHold;
    SameEntries(n, f, f.tables[t], f.tables[t], e.tables[t], ROOT, s.entries, |e.arrays|, |e.tables|);
    EntriesStay(n, f, f, f.tables[t], ROOT, s.entries, |e.arrays|, |e.tables|, 0, 1);
  }

  lemma SectionStays(n: Names, d: Doc, e: Doc, t: nat, s: Section)
    requires SectionFits(n, s) && SameFrom(d, e, 0, 1) && SectionHolds(n, d, t, s)
    ensures SectionHolds(n, e, t, s)
  {
    hide EntriesHold;
    EntriesStay(n, d, e, d.tables[t], ROOT, s.entries, 0, 1, 0, 1);
  }

  lemma SectionsInFront(n: Names, d: Doc, tabs: seq<nat>, secs: seq<Section>)
    requires secs != [] && tabs != [] && forall i :: 0 <= i < |secs| ==> SectionFits(n, secs[i])
    requires SectionHolds(n, d, tabs[0], secs[0]) && SectionsHold(n, d, tabs[1..], secs[1..])
    ensures SectionsHold(n, d, tabs, secs)
  {
    hide SectionHolds;
    forall i | 0 <= i < |secs|
      ensures SectionHolds(n, d, tabs[i], secs[i])
    {
      assert i > 0 ==> tabs[i] == tabs[1..][i - 1] && secs[i] == secs[1..][i - 1];
    }
  }

  /** A header makes a new table of the root current. */
  lemma HeaderIsPut(r: Reader, n: Names, d: Doc, cur: nat, stmt: Statement, name: string)
    requires Fits(r, n) && stmt.Header? && stmt.path == [] && !stmt.isList && n.normalize(stmt.last.key) == Some(name)
    requires Closed(d) && cur < |d.tables| && name !in Keys(d, d.tables[0])
    ensures PutLine(r, n, d, cur, stmt) == Created(AddTable(d, 0, name, false), Some(|d.tables|))
  {
    hide Keys, AddTable, IndexOf;
    assert PathNames(n, stmt.path) == [];
  }

  // All sections

  /** The root has these sections as further tables, in order, and else only new tables and arrays are there. */
  predicate SectionsGrew(n: Names, d: Doc, e: Doc, secs: seq<Section>)
    requires d.tables != [] && forall i :: 0 <= i < |secs| ==> SectionFits(n, secs[i])
  {
    && SameFrom(d, e, 0, 1)
    && var was, root := d.tables[0], e.tables[0];
       && root == was.(tabs := root.tabs) && was.tabs <= root.tabs
       && SectionsHold(n, e, root.tabs[|was.tabs|..], secs)
  }

  lemma OneMoreSection(n: Names, d: Doc, f: Doc, g: Doc, t: nat, secs: seq<Section>)
    requires secs != [] && d.tables != [] && f.tables != [] && forall i :: 0 <= i < |secs| ==> SectionFits(n, secs[i])
    requires SameFrom(d, f, 0, 1) && f.tables[0] == d.tables[0].(tabs := d.tables[0].tabs + [t])
    requires SectionHolds(n, f, t, secs[0]) && SectionsGrew(n, f, g, secs[1..])
    ensures SectionsGrew(n, d, g, secs)
  {
    hide SectionHolds, SectionsHold, SectionFits;
    SectionStays(n, f, g, t, secs[0]);
    var was, tabs := d.tables[0].tabs, g.tables[0].tabs;
    assert tabs[|was|..][1..] == tabs[|was + [t]|..];
    SectionsInFront(n, g, tabs[|was|..], secs);
  }

  /** Sections under new names become tables of the root, in order. */
  lemma {:induction false} SectionsArePut(r: Reader, n: Names, d: Doc, cur: nat, lines: seq<Written>)
    requires Fits(r, n) && Plain(lines) && Closed(d) && cur < |d.tables|
    requires lines == [] || lines[0].stmt.Header?
    requires SectionsFit(n, Sections(lines)) && SectionsNew(n, d, Sections(lines))
    ensures var c := PutLines(r, n, d, cur, lines); c.id.Some? && SectionsGrew(n, d, c.doc, Sections(lines))
    decreases |lines|
  {
    if lines != [] {
      var secs := Sections(lines);
      FirstSection(lines);
      FirstIsPut(r, n, d, cur, lines);
      PlainOn(lines);
      var t := |d.tables|;
      var f := PutEntries(n, AddTable(d, 0, SectionName(n, secs[0]), false), t, secs[0].entries);
      hide PutLines, PutEntries, AddTable, SectionHolds, SectionsGrew, Plain, Keys, SectionFits, Sections;
      SectionsArePut(r, n, f, t, Headers(lines[1..]));
      OneMoreSection(n, d, f, PutLines(r, n, f, t, Headers(lines[1..])).doc, t, secs);
    }
  }

  lemma FirstSection(lines: seq<Written>)
    requires lines != [] && lines[0].stmt.Header?
    ensures Sections(lines) == [Section(lines[0].stmt.last.key, Pairs(lines[1..]))] + Sections(Headers(lines[1..]))
  {
    var more := Headers(lines[1..]);
    assert Headers(more) == more;
  }

  /** The first of some sections. */
  lemma FirstIsPut(r: Reader, n: Names, d: Doc, cur: nat, lines: seq<Written>)
    requires Fits(r, n) && Plain(lines) && Closed(d) && cur < |d.tables| && lines != [] && lines[0].stmt.Header?
    requires SectionsFit(n, Sections(lines)) && SectionsNew(n, d, Sections(lines))
    ensures Sections(lines) != [] && SectionFits(n, Sections(lines)[0])
    ensures var s, t := Sections(lines)[0], |d.tables|;
            var f := PutEntries(n, AddTable(d, 0, SectionName(n, s), false), t, s.entries);
            && PutLines(r, n, d, cur, lines) == PutLines(r, n, f, t, Headers(lines[1..]))
            && SameFrom(d, f, 0, 1) && f.tables[0] == d.tables[0].(tabs := d.tables[0].tabs + [t])
            && SectionHolds(n, f, t, s)
            && SectionsFit(n, Sections(Headers(lines[1..]))) && SectionsNew(n, f, Sections(Headers(lines[1..])))
  {
    FirstSection(lines);
    var secs := Sections(lines);
    assert secs[1..] == Sections(Headers(lines[1..]));
    hide Sections;
    var s, t := secs[0], |d.tables|;
    var name := SectionName(n, s);
    var e := AddTable(d, 0, name, false);
    var f := PutEntries(n, e, t, s.entries);
    HeaderIsPut(r, n, d, cur, lines[0].stmt, name);
    TableIsNew(d, name);
    PlainOn(lines);
    EntriesOfSection(n, e, t, s);
    PairsArePut(r, n, e, t, lines[1..]);
    SectionIsPut(n, d, s);
    NewTableKeys(d, f, name);
    SectionsOn(n, d, f, secs);
  }

  lemma EntriesOfSection(n: Names, e: Doc, t: nat, s: Section)
    requires Closed(e) && IsNew(e, t) && SectionFits(n, s)
    ensures KeysNew(n, e, t, s.entries)
  {
    NewKeys(n, e, t, s.entries);
  }

  lemma TableIsNew(d: Doc, name: string)
    requires Closed(d)
    ensures IsNew(AddTable(d, 0, name, false), |d.tables|)
  {
  }

  lemma {:induction false} PlainOn(lines: seq<Written>)
    requires lines != [] && Plain(lines)
    ensures Plain(lines[1..]) && Plain(Headers(lines[1..]))
    decreases |lines|
  {
    if |lines| > 1 {
      PlainOn(lines[1..]);
    }
  }

  lemma SectionsOn(n: Names, d: Doc, f: Doc, secs: seq<Section>)
    requires Closed(d) && Closed(f) && secs != [] && SectionsFit(n, secs) && SectionsNew(n, d, secs)
    requires forall k :: k in Keys(f, f.tables[0]) <==> k in Keys(d, d.tables[0]) || k == SectionName(n, secs[0])
    ensures SectionsFit(n, secs[1..]) && SectionsNew(n, f, secs[1..])
  {
    hide Keys, SectionFits;
    assert forall i :: 0 <= i < |secs[1..]| ==> secs[1..][i] == secs[i + 1];
  }
  // The whole document

  /** All names are given once: those of the root, which include those of the sections, and those in each section. */
  predicate DocumentFits(n: Names, es: seq<Entry>, secs: seq<Section>) {
    && EntriesFit(n, es) && SectionsFit(n, secs)
    && forall i, j :: 0 <= i < |es| && 0 <= j < |secs| ==> NameOf(n, es[i]) != SectionName(n, secs[j])
  }

  /**
   The root has the entries in front of the first header, each kind in their order, and behind its inline tables the
   sections in theirs.
   */
  predicate DocumentHolds(n: Names, d: Doc, es: seq<Entry>, secs: seq<Section>)
    requires DocumentFits(n, es, secs) && d.tables != []
  {
    var root, k := d.tables[0], Count(es, TABLE);
    && |root.tabs| == k + |secs|
    && EntriesHold(n, d, root.(tabs := root.tabs[..k]), ROOT, es, 0, 1)
    && SectionsHold(n, d, root.tabs[k..], secs)
  }

  /** The keys of a table after entries were put into it. */
  lemma {:induction false} EntryKeys(n: Names, d: Doc, t: nat, es: seq<Entry>)
    requires Closed(d) && t < |d.tables| && forall i :: 0 <= i < |es| ==> EntryNamed(n, es[i])
    ensures var e := PutEntries(n, d, t, es);
            forall k :: k in Keys(e, e.tables[t]) ==>
              k in Keys(d, d.tables[t]) || exists i :: 0 <= i < |es| && NameOf(n, es[i]) == k
    decreases |es|
  {
    hide Keys, NameOf, PutEntry;
    if es != [] {
      var f := PutEntry(n, d, t, es[0]);
      FirstKey(n, d, t, es[0]);
      EntryKeys(n, f, t, es[1..]);
      assert forall i :: 0 <= i < |es[1..]| ==> es[1..][i] == es[i + 1];
    }
  }

  lemma FirstKey(n: Names, d: Doc, t: nat, e: Entry)
    requires Closed(d) && t < |d.tables| && EntryNamed(n, e)
    ensures var f := PutEntry(n, d, t, e);
            forall k :: k in Keys(f, f.tables[t]) <==> k in Keys(d, d.tables[t]) || k == NameOf(n, e)
  {
    PutValueGrows(n, d, t, NameOf(n, e), e.value);
    KeysGrew(d, PutEntry(n, d, t, e), t, NameOf(n, e), e.value);
  }

  lemma NewInEmpty(n: Names, es: seq<Entry>)
    requires EntriesFit(n, es)
    ensures Closed(EMPTY) && KeysNew(n, EMPTY, 0, es)
  {
    NewKeys(n, EMPTY, 0, es);
  }

  /** No section has the name of an entry of the root. */
  lemma SectionsAreNew(n: Names, es: seq<Entry>, secs: seq<Section>)
    requires DocumentFits(n, es, secs) && Closed(EMPTY)
    ensures SectionsNew(n, PutEntries(n, EMPTY, 0, es), secs)
  {
    EntryKeys(n, EMPTY, 0, es);
    assert Keys(EMPTY, EMPTY.tables[0]) == [];
    hide Keys, PutEntries, EntriesFit, SectionsFit;
  }

  /** The entries of the root are still there when the sections have been read. */
  lemma RootHolds(n: Names, es: seq<Entry>, e: Doc, secs: seq<Section>)
    requires DocumentFits(n, es, secs) && Closed(EMPTY)
    requires SectionsGrew(n, PutEntries(n, EMPTY, 0, es), e, secs)
    ensures e.tables != [] && DocumentHolds(n, e, es, secs)
  {
    var d := PutEntries(n, EMPTY, 0, es);
    PutEntriesHold(n, EMPTY, 0, es);
    hide PutEntries;
    var root, k := e.tables[0], Count(es, TABLE);
    assert k == |d.tables[0].tabs| && root.(tabs := root.tabs[..k]) == d.tables[0];
    EntriesStay(n, d, e, d.tables[0], ROOT, es, 0, 1, 0, 1);
  }

  /**
   Every spelled document of entries and sections, with any blanks, blank lines and comments, in which no name is
   given twice, is accepted, and holds exactly what the text has.
   */
  lemma DocumentIsHeld(r: Reader, n: Names, lines: seq<Written>, close: seq<Piece>)
    requires Fits(r, n) && LinesOk(lines, close) && r.text == LinesTo(lines, close)
    requires Plain(lines) && DocumentFits(n, Pairs(lines), Sections(lines))
    ensures var res := ReadDocument(r);
            res.ok && res.tok.eof && DocumentHolds(n, res.doc, Pairs(lines), Sections(lines))
  {
    var es, secs, more := Pairs(lines), Sections(lines), Headers(lines);
    NewInEmpty(n, es);
    PairsArePut(r, n, EMPTY, 0, lines);
    SectionsOfHeaders(lines);
    SectionsAreNew(n, es, secs);
    var d := PutEntries(n, EMPTY, 0, es);
    hide Sections, PutLines, PutEntries, SectionsGrew, DocumentHolds, Pairs, Headers, LinesOk, LinesTo;
    SectionsArePut(r, n, d, 0, more);
    RootHolds(n, es, PutLines(r, n, d, 0, more).doc, secs);
    DocumentIsRead(r, n, lines, close);
  }

  lemma {:induction false} SectionsOfHeaders(lines: seq<Written>)
    requires Plain(lines)
    ensures Sections(Headers(lines)) == Sections(lines) && Plain(Headers(lines))
    decreases |lines|
  {
    if lines != [] && lines[0].stmt.Pair? {
      SectionsOfHeaders(lines[1..]);
    }
  }
}

/** The document holds a spelled value: as many elements and entries as the text has, in order, and nothing else. */
module TomlHolds {
  import opened TomlBuild
  import opened TomlDoc
  import opened TomlSpelling

  predicate SameKind(v: Val, w: Val) {
    (v.Raw? && w.Raw?) || (v.List? && w.List?) || (v.Table? && w.Table?)
  }

  /** How many entries have a value of the same kind. */
  function Count(es: seq<Entry>, v: Val): (k: nat)
    ensures k <= |es|
  {
    if es == [] then 0
    else
      var last := |es| - 1;
      Count(es[..last], v) + if SameKind(es[last].value, v) then 1 else 0
  }

  const RAW: Val := Raw("")
  const LIST: Val := List([], false, [])
  const TABLE: Val := Table([], false, "")

  /** Item `item` is the value; what it consists of has numbers from `la` and `lt` on. */
  predicate ItemHolds(n: Names, d: Doc, item: Item, v: Val, la: nat, lt: nat)
    requires Named(n, v)
    decreases v, 1
  {
    match v
    case Raw(x) => item == Value(n.typeOf(x), x)
    case List(items, _, _) =>
      item.Nested? && la <= item.arr < |d.arrays| && ItemsHold(n, d, d.arrays[item.arr].items, items, la, lt)
    case Table(es, _, _) => item.Inline? && lt <= item.tab < |d.tables| && ClosedHolds(n, d, item.tab, es, la, lt)
  }

  predicate ItemsHold(n: Names, d: Doc, xs: seq<Item>, items: seq<Element>, la: nat, lt: nat)
    requires forall i :: 0 <= i < |items| ==> Named(n, items[i].value)
    decreases items, 0
  {
    |xs| == |items| && forall i :: 0 <= i < |items| ==> ItemHolds(n, d, xs[i], items[i].value, la, lt)
  }

  /** A closed table with exactly these entries. */
  predicate ClosedHolds(n: Names, d: Doc, t: nat, es: seq<Entry>, la: nat, lt: nat)
    requires t < |d.tables| && forall i :: 0 <= i < |es| ==> EntryNamed(n, es[i])
    decreases es, 1
  {
    d.tables[t].isReadonly && !d.tables[t].isImplicit && EntriesHold(n, d, d.tables[t], ROOT, es, la, lt)
  }

  /** The table has, behind what `base` has, these values, arrays and tables, each kind in the order of the entries. */
  predicate EntriesHold(n: Names, d: Doc, tab: TableVal, base: TableVal, es: seq<Entry>, la: nat, lt: nat)
    requires forall i :: 0 <= i < |es| ==> EntryNamed(n, es[i])
    decreases es, 0
  {
    && |tab.kvals| == |base.kvals| + Count(es, RAW)
    && |tab.arrs| == |base.arrs| + Count(es, LIST)
    && |tab.tabs| == |base.tabs| + Count(es, TABLE)
    && forall i :: 0 <= i < |es| ==> EntryHolds(n, d, tab, base, es[i], Count(es[..i], es[i].value), la, lt)
  }

  predicate EntryHolds(n: Names, d: Doc, tab: TableVal, base: TableVal, e: Entry, k: nat, la: nat, lt: nat)
    requires EntryNamed(n, e)
    decreases e
  {
    assert Named(n, e.value);
    match e.value
    case Raw(x) =>
      var i := |base.kvals| + k;
      i < |tab.kvals| && tab.kvals[i] == KeyVal(NameOf(n, e), x)
    case List(items, _, _) =>
      var i := |base.arrs| + k;
      && i < |tab.arrs| && la <= tab.arrs[i] < |d.arrays| && d.arrays[tab.arrs[i]].key == NameOf(n, e)
      && ItemsHold(n, d, d.arrays[tab.arrs[i]].items, items, la, lt)
    case Table(es, _, _) =>
      var i := |base.tabs| + k;
      && i < |tab.tabs| && lt <= tab.tabs[i] < |d.tables| && d.tables[tab.tabs[i]].key == NameOf(n, e)
      && ClosedHolds(n, d, tab.tabs[i], es, la, lt)
  }

  /** Array `a` or table `t` is the value under a name. */
  predicate ValueHolds(n: Names, d: Doc, a: nat, t: nat, name: string, v: Val, la: nat, lt: nat)
    requires Named(n, v)
  {
    match v
    case Raw(_) => true
    case List(items, _, _) =>
      a < |d.arrays| && d.arrays[a].key == name && ItemsHold(n, d, d.arrays[a].items, items, la, lt)
    case Table(es, _, _) => t < |d.tables| && d.tables[t].key == name && ClosedHolds(n, d, t, es, la, lt)
  }

  // What holds stays while the numbers from `la` and `lt` on stay

  predicate SameFrom(d: Doc, e: Doc, la: nat, lt: nat) {
    && NotSmaller(d, e)
    && (forall i :: la <= i < |d.arrays| ==> e.arrays[i] == d.arrays[i])
    && forall i :: lt <= i < |d.tables| ==> e.tables[i] == d.tables[i]
  }

  lemma {:induction false} ItemStays(n: Names, d: Doc, e: Doc, item: Item, v: Val, la: nat, lt: nat, la': nat, lt': nat)
    requires Named(n, v) && SameFrom(d, e, la, lt) && ItemHolds(n, d, item, v, la, lt) && la' <= la && lt' <= lt
    ensures ItemHolds(n, e, item, v, la', lt')
    decreases v, 1
  {
    match v
    case Raw(_) =>
    case List(items, _, _) => ItemsStay(n, d, e, d.arrays[item.arr].items, items, la, lt, la', lt');
    case Table(es, _, _) => EntriesStay(n, d, e, d.tables[item.tab], ROOT, es, la, lt, la', lt');
  }

  lemma {:induction false} ItemsStay(n: Names, d: Doc, e: Doc, xs: seq<Item>, items: seq<Element>,
                                     la: nat, lt: nat, la': nat, lt': nat)
    requires forall i :: 0 <= i < |items| ==> Named(n, items[i].value)
    requires SameFrom(d, e, la, lt) && ItemsHold(n, d, xs, items, la, lt) && la' <= la && lt' <= lt
    ensures ItemsHold(n, e, xs, items, la', lt')
    decreases items, 0
  {
    forall i | 0 <= i < |items|
      ensures ItemHolds(n, e, xs[i], items[i].value, la', lt')
    {
      ItemStays(n, d, e, xs[i], items[i].value, la, lt, la', lt');
    }
  }

  lemma {:induction false} EntriesStay(n: Names, d: Doc, e: Doc, tab: TableVal, base: TableVal, es: seq<Entry>,
                                       la: nat, lt: nat, la': nat, lt': nat)
    requires forall i :: 0 <= i < |es| ==> EntryNamed(n, es[i])
    requires SameFrom(d, e, la, lt) && EntriesHold(n, d, tab, base, es, la, lt) && la' <= la && lt' <= lt
    ensures EntriesHold(n, e, tab, base, es, la', lt')
    decreases es, 0
  {
    forall i | 0 <= i < |es|
      ensures EntryHolds(n, e, tab, base, es[i], Count(es[..i], es[i].value), la', lt')
    {
      EntryStays(n, d, e, tab, base, es[i], Count(es[..i], es[i].value), la, lt, la', lt');
    }
  }

  lemma {:induction false} EntryStays(n: Names, d: Doc, e: Doc, tab: TableVal, base: TableVal, x: Entry, k: nat,
                                      la: nat, lt: nat, la': nat, lt': nat)
    requires EntryNamed(n, x) && SameFrom(d, e, la, lt) && EntryHolds(n, d, tab, base, x, k, la, lt)
    requires la' <= la && lt' <= lt
    ensures EntryHolds(n, e, tab, base, x, k, la', lt')
    decreases x, 2
  {
    match x.value
    case Raw(_) =>
    case List(items, _, _) =>
      ItemsStay(n, d, e, d.arrays[tab.arrs[|base.arrs| + k]].items, items, la, lt, la', lt');
    case Table(es, _, _) =>
      EntriesStay(n, d, e, d.tables[tab.tabs[|base.tabs| + k]], ROOT, es, la, lt, la', lt');
  }

  // What was put holds

  lemma {:induction false} PutItemHolds(n: Names, d: Doc, a: nat, v: Val)
    requires Closed(d) && a < |d.arrays| && Named(n, v)
    ensures var e := PutItem(n, d, a, v);
            && |e.arrays[a].items| == |d.arrays[a].items| + 1
            && ItemHolds(n, e, e.arrays[a].items[|d.arrays[a].items|], v, |d.arrays|, |d.tables|)
    decreases v, 1
  {
    PutItemGrows(n, d, a, v);
    match v
    case Raw(_) =>
    case List(items, _, _) =>
      var c := PushArray(d, a);
      PutItemsGrow(n, c, |d.arrays|, items);
      PutItemsHold(n, c, |d.arrays|, items, |d.arrays|, |d.tables|);
    case Table(es, _, _) =>
      var c := PushTable(d, a, "");
      PutEntriesGrow(n, c, |d.tables|, es);
      PutClosedHolds(n, c, |d.tables|, es, |d.arrays|, |d.tables|);
  }

  /** Elements that were put behind others. */
  lemma {:induction false} PutItemsHold(n: Names, d: Doc, a: nat, items: seq<Element>, la: nat, lt: nat)
    requires Closed(d) && a < |d.arrays| && la <= |d.arrays| && lt <= |d.tables|
    requires forall i :: 0 <= i < |items| ==> Named(n, items[i].value)
    ensures var e, k := PutItems(n, d, a, items), |d.arrays[a].items|;
            |e.arrays[a].items| == k + |items| && ItemsHold(n, e, e.arrays[a].items[k..], items, la, lt)
    decreases items, 0
  {
    PutItemsGrow(n, d, a, items);
    if items != [] {
      var e, k := PutItem(n, d, a, items[0].value), |d.arrays[a].items|;
      PutItemGrows(n, d, a, items[0].value);
      PutItemHolds(n, d, a, items[0].value);
      PutItemsGrow(n, e, a, items[1..]);
      PutItemsHold(n, e, a, items[1..], la, lt);
      var f := PutItems(n, e, a, items[1..]);
      var x := e.arrays[a].items[k];
      assert f.arrays[a].items[k] == x;
      ItemStays(n, e, f, x, items[0].value, |d.arrays|, |d.tables|, la, lt);
      OneMoreHolds(n, f, f.arrays[a].items[k..], items, la, lt);
    }
  }

  lemma OneMoreHolds(n: Names, d: Doc, xs: seq<Item>, items: seq<Element>, la: nat, lt: nat)
    requires items != [] && forall i :: 0 <= i < |items| ==> Named(n, items[i].value)
    requires xs != [] && ItemHolds(n, d, xs[0], items[0].value, la, lt) && ItemsHold(n, d, xs[1..], items[1..], la, lt)
    ensures ItemsHold(n, d, xs, items, la, lt)
  {
    hide ItemHolds;
    forall i | 0 <= i < |items|
      ensures ItemHolds(n, d, xs[i], items[i].value, la, lt)
    {
      if i > 0 {
        assert xs[i] == xs[1..][i - 1] && items[i] == items[1..][i - 1];
      }
    }
  }

  lemma {:induction false} CountFront(es: seq<Entry>, v: Val)
    requires es != []
    ensures Count(es, v) == (if SameKind(es[0].value, v) then 1 else 0) + Count(es[1..], v)
    decreases |es|
  {
    var last := |es| - 1;
    if last > 0 {
      CountFront(es[..last], v);
      assert es[..last][1..] == es[1..][..last - 1];
    } else {
      assert es[..last] == [] && es[1..] == [];
    }
  }

  lemma CountUpTo(es: seq<Entry>, i: nat, v: Val)
    requires i + 1 < |es|
    ensures Count(es[..i + 1], v) == (if SameKind(es[0].value, v) then 1 else 0) + Count(es[1..][..i], v)
  {
    CountFront(es[..i + 1], v);
    assert es[..i + 1][1..] == es[1..][..i];
  }

  /** The lists of a table after one more entry. */
  predicate OneEntry(base: TableVal, tab: TableVal, v: Val) {
    && |tab.kvals| == |base.kvals| + (if v.Raw? then 1 else 0)
    && |tab.arrs| == |base.arrs| + (if v.List? then 1 else 0)
    && |tab.tabs| == |base.tabs| + (if v.Table? then 1 else 0)
  }

  lemma EntryFromBase(n: Names, d: Doc, tab: TableVal, base: TableVal, mid: TableVal, es: seq<Entry>, i: nat,
                      la: nat, lt: nat)
    requires i + 1 < |es| && EntryNamed(n, es[i + 1]) && OneEntry(base, mid, es[0].value)
    requires EntryHolds(n, d, tab, mid, es[1..][i], Count(es[1..][..i], es[1..][i].value), la, lt)
    ensures EntryHolds(n, d, tab, base, es[i + 1], Count(es[..i + 1], es[i + 1].value), la, lt)
  {
    assert es[1..][i] == es[i + 1];
    CountUpTo(es, i, es[i + 1].value);
    hide ItemsHold, ClosedHolds, Count;
  }

  lemma FirstEntry(n: Names, d: Doc, e: Doc, f: Doc, t: nat, x: Entry, la: nat, lt: nat)
    requires Closed(d) && t < |d.tables| && EntryNamed(n, x)
    requires TableGrew(d, e, t, NameOf(n, x), x.value) && t < |f.tables| && NotSmaller(e, f)
    requires e.tables[t].kvals <= f.tables[t].kvals && e.tables[t].arrs <= f.tables[t].arrs
    requires e.tables[t].tabs <= f.tables[t].tabs && la <= |d.arrays| && lt <= |d.tables|
    requires ValueHolds(n, f, |d.arrays|, |d.tables|, NameOf(n, x), x.value, la, lt)
    ensures EntryHolds(n, f, f.tables[t], d.tables[t], x, 0, la, lt)
  {
    hide ItemsHold, ClosedHolds;
  }

  /** The lists of a table only grow. */
  predicate Prolongs(a: TableVal, b: TableVal) {
    a.kvals <= b.kvals && a.arrs <= b.arrs && a.tabs <= b.tabs
  }

  lemma {:induction false} PutValueHolds(n: Names, d: Doc, t: nat, name: string, v: Val)
    requires Closed(d) && t < |d.tables| && Named(n, v)
    ensures var e := PutValue(n, d, t, name, v);
            && TableGrew(d, e, t, name, v) && Prolongs(d.tables[t], e.tables[t])
            && ValueHolds(n, e, |d.arrays|, |d.tables|, name, v, |d.arrays|, |d.tables|)
    decreases v, 1
  {
    PutValueGrows(n, d, t, name, v);
    match v
    case Raw(_) =>
    case List(items, _, _) =>
      var c := AddArray(d, t, name);
      PutItemsHold(n, c, |d.arrays|, items, |d.arrays|, |d.tables|);
      var e := PutItems(n, c, |d.arrays|, items);
      assert e.arrays[|d.arrays|].items[0..] == e.arrays[|d.arrays|].items;
    case Table(es, _, _) =>
      PutClosedHolds(n, AddTable(d, t, name, false), |d.tables|, es, |d.arrays|, |d.tables|);
  }

  /** Entries that were put behind others in a table. */
  lemma {:induction false} PutEntriesHold(n: Names, d: Doc, t: nat, es: seq<Entry>)
    requires Closed(d) && t < |d.tables| && forall i :: 0 <= i < |es| ==> EntryNamed(n, es[i])
    ensures var e := PutEntries(n, d, t, es);
            && Prolongs(d.tables[t], e.tables[t])
            && EntriesHold(n, e, e.tables[t], d.tables[t], es, |d.arrays|, |d.tables|)
    decreases es, 0
  {
    if es != [] {
      var v, name := es[0].value, NameOf(n, es[0]);
      var e := PutEntry(n, d, t, es[0]);
      var f := PutEntries(n, e, t, es[1..]);
      PutValueHolds(n, d, t, name, v);
      PutEntriesGrow(n, e, t, es[1..]);
      PutEntriesHold(n, e, t, es[1..]);
      ValueStays(n, d, e, f, t, name, v);
      FirstEntry(n, d, e, f, t, es[0], |d.arrays|, |d.tables|);
      EntriesStay(n, f, f, f.tables[t], e.tables[t], es[1..], |e.arrays|, |e.tables|, |d.arrays|, |d.tables|);
      EntriesInFront(n, f, f.tables[t], d.tables[t], e.tables[t], es, |d.arrays|, |d.tables|);
    }
  }

  /** What was put first is still there in the end. */
  lemma ValueStays(n: Names, d: Doc, e: Doc, f: Doc, t: nat, name: string, v: Val)
    requires Closed(d) && t < |d.tables| && Named(n, v) && TableGrew(d, e, t, name, v) && Touches(e, f, NONE, t)
    requires ValueHolds(n, e, |d.arrays|, |d.tables|, name, v, |d.arrays|, |d.tables|)
    ensures ValueHolds(n, f, |d.arrays|, |d.tables|, name, v, |d.arrays|, |d.tables|)
  {
    var la, lt := |d.arrays|, |d.tables|;
    assert SameFrom(e, f, la, lt);
    match v
    case Raw(_) =>
    case List(items, _, _) => ItemsStay(n, e, f, e.arrays[la].items, items, la, lt, la, lt);
    case Table(es, _, _) => EntriesStay(n, e, f, e.tables[lt], ROOT, es, la, lt, la, lt);
  }

  lemma EntriesInFront(n: Names, d: Doc, tab: TableVal, base: TableVal, mid: TableVal, es: seq<Entry>, la: nat, lt: nat)
    requires es != [] && (forall i :: 0 <= i < |es| ==> EntryNamed(n, es[i])) && OneEntry(base, mid, es[0].value)
    requires EntryHolds(n, d, tab, base, es[0], 0, la, lt) && EntriesHold(n, d, tab, mid, es[1..], la, lt)
    ensures EntriesHold(n, d, tab, base, es, la, lt)
  {
    CountFront(es, RAW);
    CountFront(es, LIST);
    CountFront(es, TABLE);
    hide EntryHolds, Count;
    forall i | 0 <= i < |es|
      ensures EntryHolds(n, d, tab, base, es[i], Count(es[..i], es[i].value), la, lt)
    {
      if i == 0 {
        NoneBefore(es);
      } else {
        EntryFromBase(n, d, tab, base, mid, es, i - 1, la, lt);
      }
    }
  }

  lemma NoneBefore(es: seq<Entry>)
    requires es != []
    ensures Count(es[..0], es[0].value) == 0
  {
    assert es[..0] == [];
  }

  lemma SameEntry(n: Names, d: Doc, tab: TableVal, tab': TableVal, base: TableVal, base': TableVal, e: Entry, k: nat,
                  la: nat, lt: nat)
    requires EntryNamed(n, e) && EntryHolds(n, d, tab, base, e, k, la, lt)
    requires |base.kvals| == |base'.kvals| && |base.arrs| == |base'.arrs| && |base.tabs| == |base'.tabs|
    requires tab.kvals == tab'.kvals && tab.arrs == tab'.arrs && tab.tabs == tab'.tabs
    ensures EntryHolds(n, d, tab', base', e, k, la, lt)
  {
    hide ItemsHold, ClosedHolds;
  }

  /** Only the lists of the table and the lengths of the lists in `base` matter. */
  lemma SameEntries(n: Names, d: Doc, tab: TableVal, tab': TableVal, base: TableVal, base': TableVal, es: seq<Entry>,
                    la: nat, lt: nat)
    requires (forall i :: 0 <= i < |es| ==> EntryNamed(n, es[i])) && EntriesHold(n, d, tab, base, es, la, lt)
    requires |base.kvals| == |base'.kvals| && |base.arrs| == |base'.arrs| && |base.tabs| == |base'.tabs|
    requires tab.kvals == tab'.kvals && tab.arrs == tab'.arrs && tab.tabs == tab'.tabs
    ensures EntriesHold(n, d, tab', base', es, la, lt)
  {
    hide EntryHolds, Count;
    forall i | 0 <= i < |es|
      ensures EntryHolds(n, d, tab', base', es[i], Count(es[..i], es[i].value), la, lt)
    {
      SameEntry(n, d, tab, tab', base, base', es[i], Count(es[..i], es[i].value), la, lt);
    }
  }

  /** Entries that were put into a new table, which is closed then. */
  lemma {:induction false} PutClosedHolds(n: Names, d: Doc, t: nat, es: seq<Entry>, la: nat, lt: nat)
    requires Closed(d) && la <= |d.arrays| && lt <= t < |d.tables|
    requires d.tables[t].kvals == [] && d.tables[t].arrs == [] && d.tables[t].tabs == [] && !d.tables[t].isImplicit
    requires forall i :: 0 <= i < |es| ==> EntryNamed(n, es[i])
    ensures ClosedHolds(n, Close(PutEntries(n, d, t, es), t), t, es, la, lt)
    decreases es, 1
  {
    var e := PutEntries(n, d, t, es);
    var f := Close(e, t);
    PutEntriesGrow(n, d, t, es);
    PutEntriesHold(n, d, t, es);
    SameEntries(n, e, e.tables[t], e.tables[t], d.tables[t], ROOT, es, |d.arrays|, |d.tables|);
    EntriesStay(n, e, f, e.tables[t], ROOT, es, |d.arrays|, |d.tables|, la, lt);
    SameEntries(n, f, e.tables[t], f.tables[t], ROOT, ROOT, es, la, lt);
  }
}

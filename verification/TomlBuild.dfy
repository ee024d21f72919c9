/** The document that a spelled value stands for, without regard to how it is read. */
module TomlBuild {
  import opened Options
  import opened TomlDoc
  import opened TomlSpelling

  /** How a key token is normalised, and the type of a raw value. */
  datatype Names = Names(normalize: string -> Option<string>, typeOf: string -> char)

  /** Every key has a name. */
  predicate Named(n: Names, v: Val)
    decreases v
  {
    match v
    case Raw(_) => true
    case List(items, _, _) => forall i :: 0 <= i < |items| ==> Named(n, items[i].value)
    case Table(es, _, _) => forall i :: 0 <= i < |es| ==> EntryNamed(n, es[i])
  }

  predicate EntryNamed(n: Names, e: Entry)
    decreases e
  {
    n.normalize(e.key).Some? && Named(n, e.value)
  }

  function NameOf(n: Names, e: Entry): string
    requires EntryNamed(n, e)
  {
    n.normalize(e.key).value
  }

  /** No key is in an inline table twice. */
  predicate NoTwins(n: Names, v: Val)
    requires Named(n, v)
    decreases v
  {
    match v
    case Raw(_) => true
    case List(items, _, _) => forall i :: 0 <= i < |items| ==> NoTwins(n, items[i].value)
    case Table(es, _, _) =>
      && (forall i, j :: 0 <= i < j < |es| ==> NameOf(n, es[i]) != NameOf(n, es[j]))
      && forall i :: 0 <= i < |es| ==> EntryNoTwins(n, es[i])
  }

  predicate EntryNoTwins(n: Names, e: Entry)
    requires EntryNamed(n, e)
    decreases e
  {
    NoTwins(n, e.value)
  }

  /** A value as one more element of an array. */
  function PutItem(n: Names, d: Doc, a: nat, v: Val): (e: Doc)
    requires Closed(d) && a < |d.arrays| && Named(n, v)
    ensures Closed(e) && NotSmaller(d, e)
    decreases v, 1
  {
    match v
    case Raw(x) => Push(d, a, Value(n.typeOf(x), x))
    case List(items, _, _) => PutItems(n, PushArray(d, a), |d.arrays|, items)
    case Table(es, _, _) => Close(PutEntries(n, PushTable(d, a, ""), |d.tables|, es), |d.tables|)
  }

  function PutItems(n: Names, d: Doc, a: nat, items: seq<Element>): (e: Doc)
    requires Closed(d) && a < |d.arrays| && forall i :: 0 <= i < |items| ==> Named(n, items[i].value)
    ensures Closed(e) && NotSmaller(d, e)
    decreases items, 0
  {
    if items == [] then d else PutItems(n, PutItem(n, d, a, items[0].value), a, items[1..])
  }

  /** A value under a key. */
  function PutValue(n: Names, d: Doc, t: nat, name: string, v: Val): (e: Doc)
    requires Closed(d) && t < |d.tables| && Named(n, v)
    ensures Closed(e) && NotSmaller(d, e)
    decreases v, 1
  {
    match v
    case Raw(x) => AddVal(d, t, KeyVal(name, x))
    case List(items, _, _) => PutItems(n, AddArray(d, t, name), |d.arrays|, items)
    case Table(es, _, _) => Close(PutEntries(n, AddTable(d, t, name, false), |d.tables|, es), |d.tables|)
  }

  function PutEntry(n: Names, d: Doc, t: nat, e: Entry): (r: Doc)
    requires Closed(d) && t < |d.tables| && EntryNamed(n, e)
    ensures Closed(r) && NotSmaller(d, r)
    decreases e, 2
  {
    PutValue(n, d, t, NameOf(n, e), e.value)
  }

  function PutEntries(n: Names, d: Doc, t: nat, es: seq<Entry>): (r: Doc)
    requires Closed(d) && t < |d.tables| && forall i :: 0 <= i < |es| ==> EntryNamed(n, es[i])
    ensures Closed(r) && NotSmaller(d, r)
    decreases es, 0
  {
    if es == [] then d else PutEntries(n, PutEntry(n, d, t, es[0]), t, es[1..])
  }

  // What is touched

  const NONE: int := -1

  /** Only array `a` and table `t` of the old ones may be different; new ones are behind the old ones. */
  predicate Touches(d: Doc, e: Doc, a: int, t: int) {
    && NotSmaller(d, e)
    && (forall i :: 0 <= i < |d.arrays| && i != a ==> e.arrays[i] == d.arrays[i])
    && forall i :: 0 <= i < |d.tables| && i != t ==> e.tables[i] == d.tables[i]
  }

  /** Elements were added to array `a`, and nothing else. */
  predicate ArrayGrew(d: Doc, e: Doc, a: nat, k: nat) {
    && a < |d.arrays| && Touches(d, e, a, NONE) && e.arrays[a].key == d.arrays[a].key
    && |e.arrays[a].items| == |d.arrays[a].items| + k && d.arrays[a].items <= e.arrays[a].items
  }

  /** A value under a new key was added to table `t`, and nothing else. */
  predicate TableGrew(d: Doc, e: Doc, t: nat, name: string, v: Val) {
    && t < |d.tables| && Touches(d, e, NONE, t)
    && var was, tab := d.tables[t], e.tables[t];
       match v
       case Raw(x) => tab == was.(kvals := was.kvals + [KeyVal(name, x)])
       case List(_, _, _) =>
         && tab == was.(arrs := was.arrs + [|d.arrays|])
         && |d.arrays| < |e.arrays| && e.arrays[|d.arrays|].key == name
       case Table(_, _, _) =>
         && tab == was.(tabs := was.tabs + [|d.tables|])
         && |d.tables| < |e.tables| && e.tables[|d.tables|].key == name
         && e.tables[|d.tables|].isReadonly && !e.tables[|d.tables|].isImplicit
  }

  lemma ArrayGrewTwice(d: Doc, e: Doc, f: Doc, a: nat, k: nat, m: nat)
    requires ArrayGrew(d, e, a, k) && ArrayGrew(e, f, a, m)
    ensures ArrayGrew(d, f, a, k + m)
  {
  }

  /** A new array that grew, behind the ones that were there. */
  lemma NewArrayGrew(d: Doc, e: Doc, f: Doc, a: int, t: int, k: nat)
    requires Touches(d, e, a, t) && |e.arrays| == |d.arrays| + 1 && ArrayGrew(e, f, |d.arrays|, k)
    ensures Touches(d, f, a, t)
    ensures 0 <= a < |d.arrays| ==> f.arrays[a] == e.arrays[a]
    ensures 0 <= t < |d.tables| ==> f.tables[t] == e.tables[t]
  {
  }

  lemma {:induction false} PutItemGrows(n: Names, d: Doc, a: nat, v: Val)
    requires Closed(d) && a < |d.arrays| && Named(n, v)
    ensures ArrayGrew(d, PutItem(n, d, a, v), a, 1)
    decreases v, 1
  {
    match v
    case Raw(_) =>
    case List(items, _, _) =>
      var c := PushArray(d, a);
      PutItemsGrow(n, c, |d.arrays|, items);
      NewArrayGrew(d, c, PutItems(n, c, |d.arrays|, items), a, NONE, |items|);
    case Table(es, _, _) =>
      var c := PushTable(d, a, "");
      PutEntriesGrow(n, c, |d.tables|, es);
      var f := PutEntries(n, c, |d.tables|, es);
      assert f.arrays[a] == c.arrays[a];
  }

  lemma {:induction false} PutItemsGrow(n: Names, d: Doc, a: nat, items: seq<Element>)
    requires Closed(d) && a < |d.arrays| && forall i :: 0 <= i < |items| ==> Named(n, items[i].value)
    ensures ArrayGrew(d, PutItems(n, d, a, items), a, |items|)
    decreases items, 0
  {
    if items != [] {
      var e := PutItem(n, d, a, items[0].value);
      PutItemGrows(n, d, a, items[0].value);
      PutItemsGrow(n, e, a, items[1..]);
      ArrayGrewTwice(d, e, PutItems(n, e, a, items[1..]), a, 1, |items| - 1);
    }
  }

  lemma {:induction false} PutValueGrows(n: Names, d: Doc, t: nat, name: string, v: Val)
    requires Closed(d) && t < |d.tables| && Named(n, v)
    ensures TableGrew(d, PutValue(n, d, t, name, v), t, name, v)
    decreases v, 1
  {
    match v
    case Raw(_) =>
    case List(items, _, _) =>
      var c := AddArray(d, t, name);
      PutItemsGrow(n, c, |d.arrays|, items);
      NewArrayGrew(d, c, PutItems(n, c, |d.arrays|, items), NONE, t, |items|);
    case Table(es, _, _) =>
      var c := AddTable(d, t, name, false);
      PutEntriesGrow(n, c, |d.tables|, es);
  }

  /** Entries touch their table only, and keep its name and marks. */
  lemma {:induction false} PutEntriesGrow(n: Names, d: Doc, t: nat, es: seq<Entry>)
    requires Closed(d) && t < |d.tables| && forall i :: 0 <= i < |es| ==> EntryNamed(n, es[i])
    ensures var e := PutEntries(n, d, t, es);
            && Touches(d, e, NONE, t)
            && e.tables[t]
               == d.tables[t].(kvals := e.tables[t].kvals, arrs := e.tables[t].arrs, tabs := e.tables[t].tabs)
    decreases es, 0
  {
    if es != [] {
      var e := PutEntry(n, d, t, es[0]);
      PutValueGrows(n, d, t, NameOf(n, es[0]), es[0].value);
      PutEntriesGrow(n, e, t, es[1..]);
    }
  }

  /** The keys of the table afterwards. */
  lemma KeysGrew(d: Doc, e: Doc, t: nat, name: string, v: Val)
    requires Closed(d) && Closed(e) && TableGrew(d, e, t, name, v)
    ensures forall k :: k in Keys(e, e.tables[t]) <==> k in Keys(d, d.tables[t]) || k == name
  {
    var was, tab := d.tables[t], e.tables[t];
    assert InDoc(d, was) && InDoc(e, tab);
    match v
    case Raw(x) =>
      assert ValKeys(tab.kvals) == ValKeys(was.kvals) + [name];
      assert ArrKeys(e, tab) == ArrKeys(d, was);
      OtherTabKeys(d, e, t, tab.tabs);
      assert TabKeys(e, tab) == TabKeys(d, was);
    case List(_, _, _) =>
      assert ArrKeys(e, tab) == ArrKeys(d, was) + [name];
      OtherTabKeys(d, e, t, tab.tabs);
      assert TabKeys(e, tab) == TabKeys(d, was);
    case Table(_, _, _) =>
      assert ArrKeys(e, tab) == ArrKeys(d, was);
      OtherTabKeys(d, e, t, was.tabs);
      assert TabKeys(e, tab) == TabKeys(d, was) + [name];
  }

  /** The names of tables stay, also that of the table itself. */
  lemma OtherTabKeys(d: Doc, e: Doc, t: nat, tabs: seq<nat>)
    requires t < |d.tables| && Touches(d, e, NONE, t) && e.tables[t].key == d.tables[t].key
    requires forall i :: 0 <= i < |tabs| ==> tabs[i] < |d.tables|
    ensures forall i :: 0 <= i < |tabs| ==> tabs[i] < |e.tables| && e.tables[tabs[i]].key == d.tables[tabs[i]].key
  {
  }
}

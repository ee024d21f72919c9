/** A TOML document while it is read: tables and arrays with their numbers, and what is done to them. */
module TomlDoc {
  import opened Options

  datatype KeyVal = KeyVal(key: string, val: string)

  /** An element of an array: a raw value with its type, an array, or a table. */
  datatype Item = Value(valtype: char, val: string) | Nested(arr: nat) | Inline(tab: nat)

  /**
   A table with its values, arrays and tables, the latter by their numbers; whether a header created it on the way,
   whether no more is to be added to it, and how often it was made explicit.
   */
  datatype TableVal = TableVal(key: string, kvals: seq<KeyVal>, arrs: seq<nat>, tabs: seq<nat>, isImplicit: bool,
                               isReadonly: bool, timesMadeExplicit: nat)

  /** Element kind: 'v'alue, 'a'rray, 't'able or 'm'ixed; NUL while there are no elements yet. */
  datatype ArrVal = ArrVal(key: string, kind: char, valtype: char, items: seq<Item>)

  /** All tables and arrays, in the order in which they were created; the root is the first table. */
  datatype Doc = Doc(tables: seq<TableVal>, arrays: seq<ArrVal>)

  const ROOT: TableVal := TableVal("", [], [], [], false, false, 0)

  // Keys

  function ValKeys(s: seq<KeyVal>): (k: seq<string>)
    ensures |k| == |s|
  {
    seq(|s|, i requires 0 <= i < |s| => s[i].key)
  }

  /** The children of a table exist. */
  predicate InDoc(d: Doc, t: TableVal) {
    (forall i :: 0 <= i < |t.arrs| ==> t.arrs[i] < |d.arrays|)
    && forall i :: 0 <= i < |t.tabs| ==> t.tabs[i] < |d.tables|
  }

  predicate ItemInDoc(d: Doc, item: Item) {
    match item
    case Value(_, _) => true
    case Nested(a) => a < |d.arrays|
    case Inline(t) => t < |d.tables|
  }

  predicate ItemsInDoc(d: Doc, r: ArrVal) {
    forall i :: 0 <= i < |r.items| ==> ItemInDoc(d, r.items[i])
  }

  /** All numbers are those of tables and arrays that exist. */
  predicate Closed(d: Doc) {
    d.tables != []
    && (forall t :: 0 <= t < |d.tables| ==> InDoc(d, d.tables[t]))
    && forall a :: 0 <= a < |d.arrays| ==> ItemsInDoc(d, d.arrays[a])
  }

  function ArrKeys(d: Doc, t: TableVal): (k: seq<string>)
    requires InDoc(d, t)
    ensures |k| == |t.arrs|
  {
    seq(|t.arrs|, i requires 0 <= i < |t.arrs| => d.arrays[t.arrs[i]].key)
  }

  function TabKeys(d: Doc, t: TableVal): (k: seq<string>)
    requires InDoc(d, t)
    ensures |k| == |t.tabs|
  {
    seq(|t.tabs|, i requires 0 <= i < |t.tabs| => d.tables[t.tabs[i]].key)
  }

  /** All the keys of a table, over its three lists. */
  function Keys(d: Doc, t: TableVal): seq<string>
    requires InDoc(d, t)
  {
    ValKeys(t.kvals) + ArrKeys(d, t) + TabKeys(d, t)
  }

  /** The position of the first occurrence. */
  function IndexOf(s: seq<string>, key: string): (r: Option<nat>)
    ensures r.None? <==> key !in s
    ensures r.Some? ==> r.value < |s| && s[r.value] == key && key !in s[..r.value]
  {
    if s == [] then None
    else
      var last := |s| - 1;
      match IndexOf(s[..last], key)
      case Some(i) => Some(i)
      case None => if s[last] == key then Some(last) else None
  }

  datatype Found = Nothing | FoundVal | FoundArr(arr: nat) | FoundTab(tab: nat)

  /** `check_key`: values first, then arrays, then tables. */
  function Lookup(d: Doc, t: TableVal, key: string): (r: Found)
    requires InDoc(d, t)
    ensures r == Nothing <==> key !in Keys(d, t)
    ensures r.FoundArr? ==> r.arr in t.arrs && r.arr < |d.arrays| && d.arrays[r.arr].key == key
    ensures r.FoundTab? ==> r.tab in t.tabs && r.tab < |d.tables| && d.tables[r.tab].key == key
  {
    if IndexOf(ValKeys(t.kvals), key).Some? then FoundVal
    else match IndexOf(ArrKeys(d, t), key)
      case Some(i) => FoundArr(t.arrs[i])
      case None =>
        match IndexOf(TabKeys(d, t), key)
        case Some(i) => FoundTab(t.tabs[i])
        case None => Nothing
  }

  // Changes

  function AddVal(d: Doc, t: nat, more: KeyVal): (e: Doc)
    requires Closed(d) && t < |d.tables|
    ensures Closed(e) && NotSmaller(d, e)
  {
    d.(tables := d.tables[t := d.tables[t].(kvals := d.tables[t].kvals + [more])])
  }

  /** A new table, which gets the next number. */
  function AddTable(d: Doc, t: nat, key: string, isImplicit: bool): (e: Doc)
    requires Closed(d) && t < |d.tables|
    ensures Closed(e) && NotSmaller(d, e)
  {
    var parent := d.tables[t].(tabs := d.tables[t].tabs + [|d.tables|]);
    d.(tables := d.tables[t := parent] + [ROOT.(key := key, isImplicit := isImplicit)])
  }

  /** A new, empty array. */
  function AddArray(d: Doc, t: nat, key: string): (e: Doc)
    requires Closed(d) && t < |d.tables|
    ensures Closed(e) && NotSmaller(d, e)
  {
    var parent := d.tables[t].(arrs := d.tables[t].arrs + [|d.arrays|]);
    Doc(d.tables[t := parent], d.arrays + [EmptyArray(key)])
  }

  function EmptyArray(key: string): ArrVal {
    ArrVal(key, '\0', '\0', [])
  }

  function KindOfItem(item: Item): char {
    match item
    case Value(_, _) => 'v'
    case Nested(_) => 'a'
    case Inline(_) => 't'
  }

  /** An element behind the others, and what it makes of the kind and the value type of the array. */
  function Pushed(r: ArrVal, item: Item): ArrVal {
    ArrVal(r.key,
           if r.kind == '\0' || r.kind == KindOfItem(item) then KindOfItem(item) else 'm',
           if !item.Value? then r.valtype
           else if r.items == [] || r.valtype == item.valtype then item.valtype else 'm',
           r.items + [item])
  }

  function Push(d: Doc, a: nat, item: Item): (e: Doc)
    requires Closed(d) && a < |d.arrays| && ItemInDoc(d, item)
    ensures Closed(e) && NotSmaller(d, e)
  {
    d.(arrays := d.arrays[a := Pushed(d.arrays[a], item)])
  }

  /** A new array that nothing refers to yet. */
  function NewArray(d: Doc): (e: Doc)
    requires Closed(d)
    ensures Closed(e) && NotSmaller(d, e)
  {
    d.(arrays := d.arrays + [EmptyArray("")])
  }

  function NewTable(d: Doc, key: string): (e: Doc)
    requires Closed(d)
    ensures Closed(e) && NotSmaller(d, e)
  {
    d.(tables := d.tables + [ROOT.(key := key)])
  }

  /** A new array as an element of another one. */
  function PushArray(d: Doc, a: nat): (e: Doc)
    requires Closed(d) && a < |d.arrays|
    ensures Closed(e) && NotSmaller(d, e) && |d.arrays| < |e.arrays|
  {
    Push(NewArray(d), a, Nested(|d.arrays|))
  }

  /** A new table as an element of an array. */
  function PushTable(d: Doc, a: nat, key: string): (e: Doc)
    requires Closed(d) && a < |d.arrays|
    ensures Closed(e) && NotSmaller(d, e) && |d.tables| < |e.tables|
  {
    Push(NewTable(d, key), a, Inline(|d.tables|))
  }

  function MakeExplicit(d: Doc, t: nat): (e: Doc)
    requires Closed(d) && t < |d.tables|
    ensures Closed(e) && NotSmaller(d, e)
  {
    var tab := d.tables[t];
    d.(tables := d.tables[t := tab.(isImplicit := false, timesMadeExplicit := tab.timesMadeExplicit + 1)])
  }

  function Close(d: Doc, t: nat): (e: Doc)
    requires Closed(d) && t < |d.tables|
    ensures Closed(e) && NotSmaller(d, e)
  {
    d.(tables := d.tables[t := d.tables[t].(isReadonly := true)])
  }

  // Soundness

  ghost predicate NoRepeats(s: seq<string>) {
    forall i, j :: 0 <= i < j < |s| ==> s[i] != s[j]
  }

  /** No key is in a table twice; it was made explicit at most once; one that is closed is explicit. */
  ghost predicate TableOk(d: Doc, t: TableVal)
    requires InDoc(d, t)
  {
    NoRepeats(Keys(d, t)) && t.timesMadeExplicit <= 1 && (t.isImplicit ==> t.timesMadeExplicit == 0)
    && (t.isReadonly ==> !t.isImplicit)
  }

  predicate AllValues(items: seq<Item>) {
    forall i :: 0 <= i < |items| ==> items[i].Value?
  }

  predicate AllNested(items: seq<Item>) {
    forall i :: 0 <= i < |items| ==> items[i].Nested?
  }

  predicate AllInline(items: seq<Item>) {
    forall i :: 0 <= i < |items| ==> items[i].Inline?
  }

  /** All raw values are of one type. */
  predicate AllOfType(items: seq<Item>, valtype: char) {
    forall i :: 0 <= i < |items| && items[i].Value? ==> items[i].valtype == valtype
  }

  /** The kind tells what the elements are; the value type is that of the first element, if all raw values have it. */
  predicate ArrOk(r: ArrVal) {
    var first := if r.items != [] && r.items[0].Value? then r.items[0].valtype else '\0';
    && r.kind == (if r.items == [] then '\0'
                  else if AllValues(r.items) then 'v'
                  else if AllNested(r.items) then 'a'
                  else if AllInline(r.items) then 't'
                  else 'm')
    && r.valtype == if AllOfType(r.items, first) then first else 'm'
  }

  ghost predicate Sound(d: Doc) {
    Closed(d) && (forall t :: 0 <= t < |d.tables| ==> TableOk(d, d.tables[t]))
    && forall a :: 0 <= a < |d.arrays| ==> ArrOk(d.arrays[a])
  }

  /** Numbers stay numbers. */
  predicate NotSmaller(d: Doc, e: Doc) {
    |d.tables| <= |e.tables| && |d.arrays| <= |e.arrays|
  }
}

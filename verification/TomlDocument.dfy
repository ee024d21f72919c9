/** The objects of a TOML document together, and the changes that the parser makes to them. */
module TomlDocument {
  import opened Options
  import D = TomlDoc
  import opened TomlTables

  ghost function TableVals(s: seq<Table>): (v: seq<D.TableVal>)
    reads s
    ensures |v| == |s|
  {
    seq(|s|, i requires 0 <= i < |s| reads s => s[i].Val())
  }

  ghost function ArrVals(s: seq<Arr>): (v: seq<D.ArrVal>)
    reads s
    ensures |v| == |s|
  {
    seq(|s|, i requires 0 <= i < |s| reads s => s[i].Val())
  }

  class Document {
    const root: Table

    /** All tables and arrays, in the order of their creation. */
    ghost var tables: seq<Table>
    ghost var arrays: seq<Arr>

    ghost predicate HasTable(t: Table)
      reads `tables
    {
      t.id < |tables| && tables[t.id] == t
    }

    ghost predicate HasArray(a: Arr)
      reads `arrays
    {
      a.id < |arrays| && arrays[a.id] == a
    }

    ghost predicate HasItem(item: Element)
      reads `tables, `arrays
    {
      match item
      case Raw(_, _) => true
      case SubArray(a) => HasArray(a)
      case SubTable(t) => HasTable(t)
    }

    ghost predicate TableLinked(t: Table)
      reads `tables, `arrays, t
    {
      (forall i :: 0 <= i < |t.tabs| ==> HasTable(t.tabs[i])) && forall i :: 0 <= i < |t.arrs| ==> HasArray(t.arrs[i])
    }

    ghost predicate ArrayLinked(a: Arr)
      reads `tables, `arrays, a
    {
      forall i :: 0 <= i < |a.items| ==> HasItem(a.items[i])
    }

    /** All objects have the numbers of their positions, and their children are among them. */
    ghost predicate Linked()
      reads `tables, `arrays, tables, arrays
    {
      tables != [] && tables[0] == root
      && (forall i :: 0 <= i < |tables| ==> tables[i].id == i && TableLinked(tables[i]))
      && (forall i :: 0 <= i < |arrays| ==> arrays[i].id == i && ArrayLinked(arrays[i]))
    }

    /** The document that the objects stand for. */
    ghost function Val(): (d: D.Doc)
      reads `tables, `arrays, tables, arrays
    {
      D.Doc(TableVals(tables), ArrVals(arrays))
    }

    lemma IsClosed()
      requires Linked()
      ensures D.Closed(Val())
    {
      forall t | 0 <= t < |tables|
        ensures D.InDoc(Val(), Val().tables[t])
      {
        assert TableLinked(tables[t]);
      }
      forall a | 0 <= a < |arrays|
        ensures D.ItemsInDoc(Val(), Val().arrays[a])
      {
        assert ArrayLinked(arrays[a]);
        forall i | 0 <= i < |arrays[a].items|
          ensures D.ItemInDoc(Val(), Val().arrays[a].items[i])
        {
          assert HasItem(arrays[a].items[i]);
        }
      }
    }

    /** Tables and arrays are only ever added. */
    twostate predicate Grown()
      reads `tables, `arrays
    {
      old(tables) <= tables && old(arrays) <= arrays
      && (forall i :: |old(tables)| <= i < |tables| ==> fresh(tables[i]))
      && (forall i :: |old(arrays)| <= i < |arrays| ==> fresh(arrays[i]))
    }

    constructor ()
      ensures Linked() && tables == [root] && arrays == [] && fresh(root) && Val() == D.Doc([D.ROOT], [])
    {
      root := new Table("", false, 0);
      new;
      tables, arrays := [root], [];
    }

    // Changes

    /** What was linked stays linked while objects are only added. */
    twostate lemma StaysLinked()
      requires old(Linked()) && Grown()
      requires forall i :: 0 <= i < |tables| ==> tables[i].id == i
      requires forall i :: 0 <= i < |arrays| ==> arrays[i].id == i
      requires forall i :: 0 <= i < |tables| ==> (i < |old(tables)| && unchanged(tables[i])) || TableLinked(tables[i])
      requires forall i :: 0 <= i < |arrays| ==> (i < |old(arrays)| && unchanged(arrays[i])) || ArrayLinked(arrays[i])
      ensures Linked()
    {
      forall i | 0 <= i < |tables|
        ensures TableLinked(tables[i])
      {
        assert i < |old(tables)| ==> old(TableLinked(tables[i]));
      }
      forall i | 0 <= i < |arrays|
        ensures ArrayLinked(arrays[i])
      {
        assert i < |old(arrays)| ==> old(ArrayLinked(arrays[i]));
      }
    }

    method AddVal(tab: Table, more: D.KeyVal)
      requires Linked() && HasTable(tab)
      modifies tab
      ensures Linked() && Grown() && D.Closed(old(Val())) && Val() == D.AddVal(old(Val()), tab.id, more)
    {
      IsClosed();
      assert TableLinked(tab);
      tab.kvals := tab.kvals + [more];
      StaysLinked();
    }

    /** A new table under a key. */
    method AddTable(tab: Table, key: string, isImplicit: bool) returns (dest: Table)
      requires Linked() && HasTable(tab)
      modifies `tables, tab
      ensures Linked() && Grown() && HasTable(dest) && dest.id == |old(tables)| && arrays == old(arrays)
      ensures D.Closed(old(Val())) && Val() == D.AddTable(old(Val()), tab.id, key, isImplicit)
    {
      hide Linked, TableVals, ArrVals;
      IsClosed();
      dest := Create(key, isImplicit);
      AttachTable(tab, dest);
    }

    /** A new table that nothing refers to yet. */
    method Create(key: string, isImplicit: bool) returns (dest: Table)
      requires Linked()
      modifies `tables
      ensures Linked() && Grown() && HasTable(dest) && dest.id == |old(tables)| && arrays == old(arrays)
      ensures Val() == old(Val()).(tables := old(Val()).tables + [D.ROOT.(key := key, isImplicit := isImplicit)])
      ensures |old(Val()).tables| == |old(tables)|
    {
      dest := new Table(key, isImplicit, |tables|);
      tables := tables + [dest];
      StaysLinked();
    }

    method AttachTable(tab: Table, dest: Table)
      requires Linked() && HasTable(tab) && HasTable(dest)
      modifies tab`tabs
      ensures Linked() && Grown() && tab.id < |old(Val()).tables|
      ensures var was := old(Val()).tables[tab.id];
              Val() == old(Val()).(tables := old(Val()).tables[tab.id := was.(tabs := was.tabs + [dest.id])])
    {
      assert TableLinked(tab);
      TabIdsAppend(tab.tabs, dest);
      tab.tabs := tab.tabs + [dest];
      StaysLinked();
    }

    /** A new, empty array under a key. */
    method AddArray(tab: Table, key: string) returns (dest: Arr)
      requires Linked() && HasTable(tab)
      modifies `arrays, tab
      ensures Linked() && Grown() && HasArray(dest) && dest.id == |old(arrays)| && tables == old(tables)
      ensures D.Closed(old(Val())) && Val() == D.AddArray(old(Val()), tab.id, key)
    {
      hide Linked, TableVals, ArrVals;
      IsClosed();
      dest := NewArray(key);
      AttachArray(tab, dest);
    }

    /** A new array that nothing refers to yet. */
    method NewArray(key: string) returns (dest: Arr)
      requires Linked()
      modifies `arrays
      ensures Linked() && Grown() && HasArray(dest) && dest.id == |old(arrays)| && tables == old(tables)
      ensures Val() == old(Val()).(arrays := old(Val()).arrays + [D.EmptyArray(key)])
      ensures |old(Val()).arrays| == |old(arrays)|
    {
      dest := new Arr(key, |arrays|);
      arrays := arrays + [dest];
      StaysLinked();
    }

    method AttachArray(tab: Table, dest: Arr)
      requires Linked() && HasTable(tab) && HasArray(dest)
      modifies tab`arrs
      ensures Linked() && Grown() && tab.id < |old(Val()).tables|
      ensures var was := old(Val()).tables[tab.id];
              Val() == old(Val()).(tables := old(Val()).tables[tab.id := was.(arrs := was.arrs + [dest.id])])
    {
      assert TableLinked(tab);
      ArrIdsAppend(tab.arrs, dest);
      tab.arrs := tab.arrs + [dest];
      StaysLinked();
    }

    /** An element behind the others of an array. */
    method Push(arr: Arr, item: Element)
      requires Linked() && HasArray(arr) && HasItem(item)
      modifies arr
      ensures Linked() && Grown() && D.Closed(old(Val())) && D.ItemInDoc(old(Val()), ItemOf(item))
      ensures Val() == D.Push(old(Val()), arr.id, ItemOf(item))
    {
      IsClosed();
      assert ArrayLinked(arr);
      arr.Push(item);
      StaysLinked();
    }

    /** `create_array_in_array` */
    method PushArray(arr: Arr) returns (dest: Arr)
      requires Linked() && HasArray(arr)
      modifies `arrays, arr
      ensures Linked() && Grown() && HasArray(dest) && dest.id == |old(arrays)| && tables == old(tables)
      ensures D.Closed(old(Val())) && Val() == D.PushArray(old(Val()), arr.id)
    {
      hide Linked, TableVals, ArrVals;
      IsClosed();
      dest := NewArray("");
      Push(arr, SubArray(dest));
    }

    /** `create_table_in_array` */
    method PushTable(arr: Arr, key: string) returns (dest: Table)
      requires Linked() && HasArray(arr)
      modifies `tables, arr
      ensures Linked() && Grown() && HasTable(dest) && dest.id == |old(tables)| && arrays == old(arrays)
      ensures D.Closed(old(Val())) && Val() == D.PushTable(old(Val()), arr.id, key)
    {
      hide Linked, TableVals, ArrVals;
      IsClosed();
      dest := Create(key, false);
      Push(arr, SubTable(dest));
    }

    method MakeExplicit(tab: Table)
      requires Linked() && HasTable(tab)
      modifies tab`isImplicit, tab`timesMadeExplicit
      ensures Linked() && Grown() && D.Closed(old(Val())) && Val() == D.MakeExplicit(old(Val()), tab.id)
    {
      IsClosed();
      assert TableLinked(tab);
      tab.isImplicit := false;
      tab.timesMadeExplicit := tab.timesMadeExplicit + 1;
      StaysLinked();
    }

    /** No more modification allowed. */
    method Close(tab: Table)
      requires Linked() && HasTable(tab)
      modifies tab`isReadonly
      ensures Linked() && Grown() && D.Closed(old(Val())) && Val() == D.Close(old(Val()), tab.id)
    {
      IsClosed();
      assert TableLinked(tab);
      tab.isReadonly := true;
      StaysLinked();
    }

    // Looking keys up

    /** What was found under a key, with the objects. */
    ghost predicate SameFound(found: Found, f: D.Found)
      reads `tables, `arrays
    {
      match found
      case Nothing => f == D.Nothing
      case FoundVal => f == D.FoundVal
      case FoundArr(a) => HasArray(a) && f == D.FoundArr(a.id)
      case FoundTab(t) => HasTable(t) && f == D.FoundTab(t.id)
    }

    /** `check_key`: values first, then arrays, then tables. */
    method CheckKey(tab: Table, key: string) returns (found: Found)
      requires Linked() && HasTable(tab)
      ensures D.Closed(Val()) && SameFound(found, D.Lookup(Val(), Val().tables[tab.id], key))
    {
      IsClosed();
      assert TableLinked(tab);
      ghost var keys := D.ValKeys(tab.kvals);
      var i := 0;
      while i < |tab.kvals|
        invariant 0 <= i <= |tab.kvals| && key !in keys[..i]
      {
        if tab.kvals[i].key == key {
          assert keys[i] == key;
          return FoundVal;
        }
        i := i + 1;
      }
      assert keys[..i] == keys;
      var arr := ArrayIn(tab, key);
      if arr != null {
        return FoundArr(arr);
      }
      var t := TableIn(tab, key);
      found := if t != null then FoundTab(t) else Nothing;
    }

    /** `toml_array_in` */
    method ArrayIn(tab: Table, key: string) returns (r: Arr?)
      requires Linked() && HasTable(tab)
      ensures D.Closed(Val())
      ensures var at := D.IndexOf(D.ArrKeys(Val(), Val().tables[tab.id]), key);
              if r == null then at.None? else at.Some? && r == tab.arrs[at.value] && HasArray(r)
    {
      IsClosed();
      assert TableLinked(tab);
      ghost var keys := D.ArrKeys(Val(), Val().tables[tab.id]);
      var i := 0;
      while i < |tab.arrs|
        invariant 0 <= i <= |tab.arrs| && key !in keys[..i]
      {
        assert HasArray(tab.arrs[i]) && keys[i] == tab.arrs[i].key;
        if tab.arrs[i].key == key {
          FirstIndex(keys, key, i);
          return tab.arrs[i];
        }
        i := i + 1;
      }
      assert keys[..i] == keys;
      r := null;
    }

    /** `toml_table_in` */
    method TableIn(tab: Table, key: string) returns (r: Table?)
      requires Linked() && HasTable(tab)
      ensures D.Closed(Val())
      ensures var at := D.IndexOf(D.TabKeys(Val(), Val().tables[tab.id]), key);
              if r == null then at.None? else at.Some? && r == tab.tabs[at.value] && HasTable(r)
    {
      IsClosed();
      assert TableLinked(tab);
      ghost var keys := D.TabKeys(Val(), Val().tables[tab.id]);
      var i := 0;
      while i < |tab.tabs|
        invariant 0 <= i <= |tab.tabs| && key !in keys[..i]
      {
        assert HasTable(tab.tabs[i]) && keys[i] == tab.tabs[i].key;
        if tab.tabs[i].key == key {
          FirstIndex(keys, key, i);
          return tab.tabs[i];
        }
        i := i + 1;
      }
      assert keys[..i] == keys;
      r := null;
    }
  }

  datatype Found = Nothing | FoundVal | FoundArr(arr: Arr) | FoundTab(tab: Table)

  lemma FirstIndex(s: seq<string>, key: string, i: nat)
    requires i < |s| && s[i] == key && key !in s[..i]
    ensures D.IndexOf(s, key) == Some(i)
  {
    assert s[i] in s;
    var j := D.IndexOf(s, key).value;
  }
}

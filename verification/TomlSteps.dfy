/** What every change of a TOML document keeps: it stays sound, and nothing that was read is lost. */
module TomlSteps {
  import opened TomlDoc

  /** Entries are only added, an explicit table stays explicit, and a read-only one gets no more values. */
  predicate Later(a: TableVal, b: TableVal) {
    a.key == b.key && a.kvals <= b.kvals && a.arrs <= b.arrs && a.tabs <= b.tabs && (b.isImplicit ==> a.isImplicit)
    && (a.isReadonly ==> b.isReadonly && b.kvals == a.kvals)
  }

  predicate LaterArray(a: ArrVal, b: ArrVal) {
    a.key == b.key && a.items <= b.items
  }

  /** Nothing that was read before is lost. */
  predicate Extends(d: Doc, e: Doc) {
    NotSmaller(d, e)
    && (forall t :: 0 <= t < |d.tables| ==> Later(d.tables[t], e.tables[t]))
    && forall a :: 0 <= a < |d.arrays| ==> LaterArray(d.arrays[a], e.arrays[a])
  }

  lemma ExtendsTwice(d: Doc, e: Doc, f: Doc)
    requires Extends(d, e) && Extends(e, f)
    ensures Extends(d, f)
  {
    forall t | 0 <= t < |d.tables|
      ensures Later(d.tables[t], f.tables[t])
    {
      assert Later(d.tables[t], e.tables[t]) && Later(e.tables[t], f.tables[t]);
    }
    forall a | 0 <= a < |d.arrays|
      ensures LaterArray(d.arrays[a], f.arrays[a])
    {
      assert LaterArray(d.arrays[a], e.arrays[a]) && LaterArray(e.arrays[a], f.arrays[a]);
    }
  }

  /** The keys of a table depend on its lists and on the keys of its children, which never change. */
  lemma KeysStay(d: Doc, e: Doc, t: TableVal)
    requires InDoc(d, t) && Extends(d, e)
    ensures InDoc(e, t) && Keys(e, t) == Keys(d, t)
  {
    forall i | 0 <= i < |t.arrs|
      ensures d.arrays[t.arrs[i]].key == e.arrays[t.arrs[i]].key
    {
      assert LaterArray(d.arrays[t.arrs[i]], e.arrays[t.arrs[i]]);
    }
    forall i | 0 <= i < |t.tabs|
      ensures d.tables[t.tabs[i]].key == e.tables[t.tabs[i]].key
    {
      assert Later(d.tables[t.tabs[i]], e.tables[t.tabs[i]]);
    }
    assert ArrKeys(e, t) == ArrKeys(d, t) && TabKeys(e, t) == TabKeys(d, t);
  }

  /** Each of the three lists of keys only gets longer. */
  lemma PrefixKeys(d: Doc, a: TableVal, b: TableVal)
    requires InDoc(d, a) && InDoc(d, b) && Later(a, b)
    ensures ValKeys(a.kvals) <= ValKeys(b.kvals) && ArrKeys(d, a) <= ArrKeys(d, b) && TabKeys(d, a) <= TabKeys(d, b)
  {
  }

  /** A key that is in a table stays in it in every later state. */
  lemma KeyStays(d: Doc, e: Doc, t: nat, key: string)
    requires Closed(d) && Closed(e) && Extends(d, e) && t < |d.tables| && key in Keys(d, d.tables[t])
    ensures key in Keys(e, e.tables[t])
  {
    var a, b := d.tables[t], e.tables[t];
    KeysStay(d, e, a);
    assert Later(a, b) && InDoc(e, b);
    hide Closed, Extends, Later, InDoc, ValKeys, ArrKeys, TabKeys;
    PrefixKeys(e, a, b);
  }

  lemma InsertKeepsNoRepeats(a: seq<string>, k: string, b: seq<string>)
    requires NoRepeats(a + b) && k !in a + b
    ensures NoRepeats(a + [k] + b)
  {
    var s, t := a + [k] + b, a + b;
    forall i, j | 0 <= i < j < |s|
      ensures s[i] != s[j]
    {
      var i', j' := if i <= |a| then i else i - 1, if j <= |a| then j else j - 1;
      assert i != |a| ==> s[i] == t[i'];
      assert j != |a| ==> s[j] == t[j'];
    }
  }

  // One change at a time

  /** A new state of one table in a document that is otherwise later and sound. */
  lemma TableChanged(d: Doc, e: Doc, t: nat)
    requires Sound(d) && Extends(d, e) && Closed(e) && t < |d.tables|
    requires forall i :: 0 <= i < |d.tables| && i != t ==> e.tables[i] == d.tables[i]
    requires TableOk(e, e.tables[t])
    requires forall i :: |d.tables| <= i < |e.tables| ==> TableOk(e, e.tables[i])
    requires forall a :: 0 <= a < |e.arrays| ==> ArrOk(e.arrays[a])
    ensures Sound(e)
  {
    forall i | 0 <= i < |e.tables|
      ensures TableOk(e, e.tables[i])
    {
      if i < |d.tables| && i != t {
        KeysStay(d, e, d.tables[i]);
      }
    }
  }

  lemma AddValKeeps(d: Doc, t: nat, more: KeyVal)
    requires Sound(d) && t < |d.tables| && more.key !in Keys(d, d.tables[t]) && !d.tables[t].isReadonly
    ensures Sound(AddVal(d, t, more)) && Extends(d, AddVal(d, t, more))
    ensures more.key in Keys(AddVal(d, t, more), AddVal(d, t, more).tables[t])
  {
    var e, tab := AddVal(d, t, more), d.tables[t];
    assert TableOk(d, tab);
    AddValExtends(d, t, more);
    KeysAfterVal(d, t, more);
    var v, a, s := ValKeys(tab.kvals), ArrKeys(d, tab), TabKeys(d, tab);
    hide NoRepeats, ArrOk, ValKeys, ArrKeys, TabKeys, Extends;
    assert v + a + s == v + (a + s);
    InsertKeepsNoRepeats(v, more.key, a + s);
    TableChanged(d, e, t);
  }

  lemma AddValExtends(d: Doc, t: nat, more: KeyVal)
    requires Closed(d) && t < |d.tables| && !d.tables[t].isReadonly
    ensures Extends(d, AddVal(d, t, more))
  {
  }

  lemma KeysAfterVal(d: Doc, t: nat, more: KeyVal)
    requires Closed(d) && t < |d.tables| && !d.tables[t].isReadonly
    ensures var e, tab := AddVal(d, t, more), d.tables[t];
            && InDoc(e, e.tables[t])
            && Keys(e, e.tables[t]) == ValKeys(tab.kvals) + [more.key] + (ArrKeys(d, tab) + TabKeys(d, tab))
  {
    var e, tab := AddVal(d, t, more), d.tables[t];
    AddValExtends(d, t, more);
    KeysStay(d, e, tab);
    assert ValKeys(e.tables[t].kvals) == ValKeys(tab.kvals) + [more.key];
    assert ArrKeys(e, e.tables[t]) == ArrKeys(d, tab) && TabKeys(e, e.tables[t]) == TabKeys(d, tab);
  }

  lemma AddTableKeeps(d: Doc, t: nat, key: string, isImplicit: bool)
    requires Sound(d) && t < |d.tables| && key !in Keys(d, d.tables[t])
    ensures var e := AddTable(d, t, key, isImplicit); Sound(e) && Extends(d, e) && key in Keys(e, e.tables[t])
  {
    assert NoRepeats([]);
    hide NoRepeats, ArrOk;
    var e, tab := AddTable(d, t, key, isImplicit), d.tables[t];
    KeysStay(d, e, tab);
    assert InDoc(e, e.tables[t]);
    var v, a, s := ValKeys(tab.kvals), ArrKeys(d, tab), TabKeys(d, tab);
    assert v + a + s + [] == v + a + s;
    InsertKeepsNoRepeats(v + a + s, key, []);
    assert ArrKeys(e, e.tables[t]) == ArrKeys(e, tab) && TabKeys(e, e.tables[t]) == TabKeys(e, tab) + [key];
    assert Keys(e, e.tables[t]) == v + a + s + [key] + [];
    assert Keys(e, e.tables[|d.tables|]) == [];
    TableChanged(d, e, t);
  }

  lemma AddArrayKeeps(d: Doc, t: nat, key: string)
    requires Sound(d) && t < |d.tables| && key !in Keys(d, d.tables[t])
    ensures var e := AddArray(d, t, key); Sound(e) && Extends(d, e) && key in Keys(e, e.tables[t])
  {
    hide NoRepeats;
    var e, tab := AddArray(d, t, key), d.tables[t];
    KeysStay(d, e, tab);
    assert InDoc(e, e.tables[t]);
    var v, a, s := ValKeys(tab.kvals), ArrKeys(d, tab), TabKeys(d, tab);
    InsertKeepsNoRepeats(v + a, key, s);
    assert ArrKeys(e, e.tables[t]) == ArrKeys(e, tab) + [key] && TabKeys(e, e.tables[t]) == TabKeys(e, tab);
    assert Keys(e, e.tables[t]) == v + a + [key] + s;
    TableChanged(d, e, t);
  }

  /** A state without changes to the tables that were there. */
  lemma TablesSame(d: Doc, e: Doc)
    requires Sound(d) && Extends(d, e) && Closed(e)
    requires forall i :: 0 <= i < |d.tables| ==> e.tables[i] == d.tables[i]
    requires forall i :: |d.tables| <= i < |e.tables| ==> TableOk(e, e.tables[i])
    requires forall a :: 0 <= a < |e.arrays| ==> ArrOk(e.arrays[a])
    ensures Sound(e)
  {
    forall i | 0 <= i < |d.tables|
      ensures TableOk(e, e.tables[i])
    {
      KeysStay(d, e, d.tables[i]);
    }
  }

  lemma OneMoreItem(xs: seq<Item>, item: Item, valtype: char)
    ensures AllValues(xs + [item]) <==> AllValues(xs) && item.Value?
    ensures AllNested(xs + [item]) <==> AllNested(xs) && item.Nested?
    ensures AllInline(xs + [item]) <==> AllInline(xs) && item.Inline?
    ensures AllOfType(xs + [item], valtype) <==> AllOfType(xs, valtype) && (item.Value? ==> item.valtype == valtype)
  {
    var ys := xs + [item];
    assert ys[|xs|] == item && forall i :: 0 <= i < |xs| ==> ys[i] == xs[i];
  }

  /** One more element keeps what the array says of its elements true. */
  lemma PushedOk(r: ArrVal, item: Item)
    requires ArrOk(r)
    ensures ArrOk(Pushed(r, item))
  {
    var xs, ys := r.items, r.items + [item];
    OneMoreItem(xs, item, if ys[0].Value? then ys[0].valtype else '\0');
    if xs == [] {
      assert AllValues(xs) && AllNested(xs) && AllInline(xs);
    } else {
      assert ys[0] == xs[0];
      assert AllValues(xs) ==> xs[0].Value?;
      assert AllNested(xs) ==> xs[0].Nested?;
      assert AllInline(xs) ==> xs[0].Inline?;
    }
  }

  lemma PushKeeps(d: Doc, a: nat, item: Item)
    requires Sound(d) && a < |d.arrays| && ItemInDoc(d, item)
    ensures Sound(Push(d, a, item)) && Extends(d, Push(d, a, item))
  {
    PushedOk(d.arrays[a], item);
    TablesSame(d, Push(d, a, item));
  }

  lemma PushArrayKeeps(d: Doc, a: nat)
    requires Sound(d) && a < |d.arrays|
    ensures Sound(PushArray(d, a)) && Extends(d, PushArray(d, a))
  {
    var e := NewArray(d);
    TablesSame(d, e);
    PushKeeps(e, a, Nested(|d.arrays|));
    ExtendsTwice(d, e, PushArray(d, a));
  }

  lemma PushTableKeeps(d: Doc, a: nat, key: string)
    requires Sound(d) && a < |d.arrays|
    ensures Sound(PushTable(d, a, key)) && Extends(d, PushTable(d, a, key))
  {
    var e := NewTable(d, key);
    assert Keys(e, e.tables[|d.tables|]) == [];
    TablesSame(d, e);
    PushKeeps(e, a, Inline(|d.tables|));
    ExtendsTwice(d, e, PushTable(d, a, key));
  }

  /** An implicit table becomes explicit for the first time. */
  lemma MakeExplicitKeeps(d: Doc, t: nat)
    requires Sound(d) && t < |d.tables| && d.tables[t].isImplicit
    ensures var e := MakeExplicit(d, t);
            Sound(e) && Extends(d, e) && !e.tables[t].isImplicit && e.tables[t].timesMadeExplicit == 1
  {
    var e := MakeExplicit(d, t);
    assert TableOk(d, d.tables[t]);
    KeysStay(d, e, d.tables[t]);
    assert Keys(e, e.tables[t]) == Keys(e, d.tables[t]);
    TableChanged(d, e, t);
  }

  lemma CloseKeeps(d: Doc, t: nat)
    requires Sound(d) && t < |d.tables| && !d.tables[t].isImplicit
    ensures Sound(Close(d, t)) && Extends(d, Close(d, t))
  {
    var e := Close(d, t);
    assert TableOk(d, d.tables[t]);
    KeysStay(d, e, d.tables[t]);
    assert Keys(e, e.tables[t]) == Keys(e, d.tables[t]);
    TableChanged(d, e, t);
  }
}

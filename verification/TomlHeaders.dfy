/** What a header of a TOML document does: which table it makes current, when it is refused, and what it changes. */
module TomlHeaders {
  import opened Options
  import opened TomlDoc
  import opened TomlKept
  import opened TomlRead
  import opened TomlSteps

  // Along the path

  /** An array of tables is never empty, and its last element is a table. */
  lemma HasLastTable(d: Doc, a: nat)
    requires Sound(d) && a < |d.arrays|
    ensures LastTable(d, a).Some? <==> d.arrays[a].kind == 't'
  {
    assert ArrOk(d.arrays[a]);
  }

  /** No key of the path belongs to a value, or to an array that is not one of tables. */
  predicate Passable(d: Doc, t: nat, keys: seq<string>)
    requires Closed(d) && t < |d.tables|
    decreases |keys|
  {
    keys == []
    || match Lookup(d, d.tables[t], keys[0])
       case FoundTab(n) => Passable(d, n, keys[1..])
       case FoundArr(a) =>
         d.arrays[a].kind == 't' && (LastTable(d, a).Some? ==> Passable(d, LastTable(d, a).value, keys[1..]))
       case FoundVal => false
       case Nothing => true
  }

  /** A table that was just created has no keys. */
  lemma NewTableIsEmpty(d: Doc, t: nat, key: string, isImplicit: bool)
    requires Closed(d) && t < |d.tables|
    ensures var e := AddTable(d, t, key, isImplicit); Keys(e, e.tables[|d.tables|]) == []
  {
  }

  /**
   Walking keeps the document sound and loses nothing; only tables are added; it arrives somewhere exactly if the
   path is passable.
   */
  lemma {:induction false} WalkKeeps(d: Doc, t: nat, keys: seq<string>)
    requires Sound(d) && t < |d.tables|
    ensures var w := Walk(d, t, keys);
            Sound(w.doc) && Extends(d, w.doc) && w.doc.arrays == d.arrays && (w.id.Some? <==> Passable(d, t, keys))
    decreases |keys|
  {
    hide TableOk, ArrOk;
    if keys != [] {
      match Lookup(d, d.tables[t], keys[0])
      case FoundTab(n) => WalkKeeps(d, n, keys[1..]);
      case FoundArr(a) =>
        HasLastTable(d, a);
        if d.arrays[a].kind == 't' {
          WalkKeeps(d, LastTable(d, a).value, keys[1..]);
        }
      case FoundVal =>
      case Nothing =>
        var e := AddTable(d, t, keys[0], true);
        AddTableKeeps(d, t, keys[0], true);
        NewTableIsEmpty(d, t, keys[0], true);
        WalkKeeps(e, |d.tables|, keys[1..]);
        assert Passable(e, |d.tables|, keys[1..]);
        ExtendsTwice(d, e, Walk(e, |d.tables|, keys[1..]).doc);
    }
  }

  /** A path can be walked in two parts. */
  lemma {:induction false} WalkInTwo(d: Doc, t: nat, keys: seq<string>, last: string)
    requires Closed(d) && t < |d.tables|
    ensures var w := Walk(d, t, keys);
            Walk(d, t, keys + [last]) == if w.id.None? then w else Walk(w.doc, w.id.value, [last])
    decreases |keys|
  {
    if keys == [] {
      assert [] + [last] == [last];
    } else {
      assert (keys + [last])[0] == keys[0] && (keys + [last])[1..] == keys[1..] + [last];
      match Lookup(d, d.tables[t], keys[0])
      case FoundTab(n) => WalkInTwo(d, n, keys[1..], last);
      case FoundArr(a) =>
        if LastTable(d, a).Some? {
          WalkInTwo(d, LastTable(d, a).value, keys[1..], last);
        }
      case FoundVal =>
      case Nothing => WalkInTwo(AddTable(d, t, keys[0], true), |d.tables|, keys[1..], last);
    }
  }

  /** The position of a key decides what is found, as no key is in a table twice. */
  lemma FoundAt(d: Doc, t: TableVal, i: nat)
    requires InDoc(d, t) && NoRepeats(Keys(d, t)) && i < |Keys(d, t)|
    ensures var v, a := |t.kvals|, |t.arrs|;
            Lookup(d, t, Keys(d, t)[i])
            == if i < v then FoundVal else if i < v + a then FoundArr(t.arrs[i - v]) else FoundTab(t.tabs[i - v - a])
  {
    var key, v, a := Keys(d, t)[i], |t.kvals|, |t.arrs|;
    var vals, arrs, tabs := IndexOf(ValKeys(t.kvals), key), IndexOf(ArrKeys(d, t), key), IndexOf(TabKeys(d, t), key);
    if vals.Some? {
      assert Keys(d, t)[vals.value] == key;
    }
    if arrs.Some? {
      assert Keys(d, t)[v + arrs.value] == key;
    }
    if tabs.Some? {
      assert Keys(d, t)[v + a + tabs.value] == key;
    }
    assert i < v ==> ValKeys(t.kvals)[i] == key;
    assert v <= i < v + a ==> ArrKeys(d, t)[i - v] == key;
    assert v + a <= i ==> TabKeys(d, t)[i - v - a] == key;
  }

  /** An entry stays in its list, at its position there. */
  lemma EntryStays(d: Doc, e: Doc, a: TableVal, b: TableVal, i: nat) returns (j: nat)
    requires InDoc(d, a) && InDoc(e, b) && Extends(d, e) && Later(a, b) && i < |Keys(d, a)|
    ensures j < |Keys(e, b)| && Keys(e, b)[j] == Keys(d, a)[i]
    ensures if i < |a.kvals| then j < |b.kvals|
            else if i < |a.kvals| + |a.arrs|
            then 0 <= j - |b.kvals| < |b.arrs| && b.arrs[j - |b.kvals|] == a.arrs[i - |a.kvals|]
            else var k := i - |a.kvals| - |a.arrs|;
                 j - |b.kvals| - |b.arrs| >= 0 && b.tabs[j - |b.kvals| - |b.arrs|] == a.tabs[k]
  {
    hide Extends;
    KeysStay(d, e, a);
    if i < |a.kvals| {
      j := i;
      assert Keys(e, b)[j] == ValKeys(b.kvals)[j];
    } else if i < |a.kvals| + |a.arrs| {
      j := i - |a.kvals| + |b.kvals|;
      assert Keys(e, b)[j] == ArrKeys(e, b)[i - |a.kvals|] == ArrKeys(e, a)[i - |a.kvals|];
    } else {
      var k := i - |a.kvals| - |a.arrs|;
      j := k + |b.kvals| + |b.arrs|;
      assert Keys(e, b)[j] == TabKeys(e, b)[k] == TabKeys(e, a)[k];
    }
  }

  /** What was found under a key is found again later. */
  lemma FoundAgain(d: Doc, e: Doc, t: nat, key: string)
    requires Sound(d) && Sound(e) && Extends(d, e) && t < |d.tables| && Lookup(d, d.tables[t], key) != Nothing
    ensures Lookup(e, e.tables[t], key) == Lookup(d, d.tables[t], key)
  {
    hide Lookup, Keys;
    var a, b := d.tables[t], e.tables[t];
    assert Later(a, b) && NoRepeats(Keys(d, a)) && NoRepeats(Keys(e, b)) && InDoc(e, b) by {
      assert TableOk(d, a) && TableOk(e, b);
    }
    hide Sound, Extends;
    var i :| 0 <= i < |Keys(d, a)| && Keys(d, a)[i] == key;
    var j := EntryStays(d, e, a, b, i);
    FoundAt(d, a, i);
    FoundAt(e, b, j);
  }

  /** Once a path was walked, it leads to the same table and nothing is created on the way. */
  lemma {:induction false} WalkAgain(d: Doc, e: Doc, t: nat, keys: seq<string>)
    requires Sound(d) && Sound(e) && t < |d.tables|
    requires Extends(Walk(d, t, keys).doc, e) && e.arrays == d.arrays
    ensures Walk(d, t, keys).id.Some? ==> Walk(e, t, keys) == Created(e, Walk(d, t, keys).id)
    decreases |keys|
  {
    hide TableOk, ArrOk, Later, LaterArray, Keys;
    if keys != [] {
      WalkKeeps(d, t, keys);
      ExtendsTwice(d, Walk(d, t, keys).doc, e);
      match Lookup(d, d.tables[t], keys[0])
      case FoundTab(n) =>
        FoundAgain(d, e, t, keys[0]);
        WalkAgain(d, e, n, keys[1..]);
      case FoundArr(a) =>
        FoundAgain(d, e, t, keys[0]);
        if LastTable(d, a).Some? {
          WalkAgain(d, e, LastTable(d, a).value, keys[1..]);
        }
      case FoundVal =>
      case Nothing =>
        var f := AddTable(d, t, keys[0], true);
        AddTableKeeps(d, t, keys[0], true);
        WalkKeeps(f, |d.tables|, keys[1..]);
        ExtendsTwice(f, Walk(f, |d.tables|, keys[1..]).doc, e);
        LastIsFound(f, t, keys[0], |d.tables|);
        FoundAgain(f, e, t, keys[0]);
        WalkAgain(f, e, |d.tables|, keys[1..]);
    }
  }

  /** The last table that was added to a table is found under its key. */
  lemma LastIsFound(d: Doc, t: nat, key: string, n: nat)
    requires Sound(d) && t < |d.tables| && n < |d.tables| && d.tables[n].key == key
    requires d.tables[t].tabs != [] && d.tables[t].tabs[|d.tables[t].tabs| - 1] == n
    ensures Lookup(d, d.tables[t], key) == FoundTab(n)
  {
    var tab := d.tables[t];
    assert TableOk(d, tab) && InDoc(d, tab);
    assert Keys(d, tab)[|Keys(d, tab)| - 1] == key;
    FoundAt(d, tab, |Keys(d, tab)| - 1);
  }

  // The table that a header names

  /** `[x]`: accepted exactly if `x` is new or an implicit table; `[[x]]`: if it is new or an array of tables. */
  predicate Selectable(d: Doc, t: nat, name: string, llb: bool)
    requires Closed(d) && t < |d.tables|
  {
    match Lookup(d, d.tables[t], name)
    case Nothing => true
    case FoundTab(n) => !llb && d.tables[n].isImplicit
    case FoundArr(a) => llb && d.arrays[a].kind == 't'
    case FoundVal => false
  }

  /** Looking an array up by its key alone finds what looking the key up finds. */
  lemma ArrayInIsFound(d: Doc, t: nat, name: string)
    requires Sound(d) && t < |d.tables|
    ensures match ArrayIn(d, t, name)
            case Some(a) => Lookup(d, d.tables[t], name) == FoundArr(a)
            case None => !Lookup(d, d.tables[t], name).FoundArr?
  {
    var tab := d.tables[t];
    assert TableOk(d, tab) && InDoc(d, tab);
    match IndexOf(ArrKeys(d, tab), name)
    case None =>
    case Some(i) =>
      assert Keys(d, tab)[|tab.kvals| + i] == name;
      FoundAt(d, tab, |tab.kvals| + i);
  }

  /** A table of the document changes only if it gets a new entry. */
  predicate OthersSame(d: Doc, e: Doc, t: nat, name: string)
    requires Closed(d) && t < |d.tables| <= |e.tables|
  {
    forall i :: 0 <= i < |d.tables| && d.tables[i].isReadonly && !(i == t && Lookup(d, d.tables[t], name) == Nothing)
                ==> e.tables[i] == d.tables[i]
  }

  /** The effect of the last key of a header on the table that the path leads to. */
  ghost predicate Named(d: Doc, c: Created, t: nat, name: string, llb: bool)
    requires Closed(d) && t < |d.tables| && Closed(c.doc) && NotSmaller(d, c.doc)
  {
    && Sound(c.doc) && Extends(d, c.doc) && (c.id.Some? <==> Selectable(d, t, name, llb))
    && (if c.id.Some? then Walk(c.doc, t, [name]) == c else c.doc == d)
    && OthersSame(d, c.doc, t, name)
  }

  lemma AppendToOld(d: Doc, t: nat, a: nat, name: string)
    requires Sound(d) && t < |d.tables| && Lookup(d, d.tables[t], name) == FoundArr(a) && d.arrays[a].kind == 't'
    ensures Named(d, Created(PushTable(d, a, "__anon__"), Some(|d.tables|)), t, name, true)
  {
    hide TableOk, ArrOk, Later, LaterArray, Keys;
    var e := PushTable(d, a, "__anon__");
    PushTableKeeps(d, a, "__anon__");
    FoundAgain(d, e, t, name);
    OneStep(e, t, name);
  }

  lemma AppendToNew(r: Reader, d: Doc, t: nat, key: string, name: string)
    requires Sound(d) && t < |d.tables| && r.normalize(key) == Some(name) && Lookup(d, d.tables[t], name) == Nothing
    ensures var c := CreateArray(r, d, t, key);
            c.id.Some?
            && Named(d, Created(PushTable(c.doc, c.id.value, "__anon__"), Some(|c.doc.tables|)), t, name, true)
  {
    hide TableOk, ArrOk, Later, LaterArray, Keys;
    CreateArrayKeeps(r, d, t, key);
    var c := CreateArray(r, d, t, key);
    PushTableKeeps(c.doc, c.id.value, "__anon__");
    var e := PushTable(c.doc, c.id.value, "__anon__");
    AddedOthersSame(d, e, t, name);
    assert LastTable(e, c.id.value) == Some(|c.doc.tables|);
    var tab := c.doc.tables[t];
    assert tab.arrs[|tab.arrs| - 1] == c.id.value && c.doc.arrays[c.id.value].key == name;
    hide OthersSame, PushTable, CreateArray, Lookup, Extends, LastTable, Sound, Walk;
    ExtendsTwice(d, c.doc, e);
    LastArrayIsFound(c.doc, t, name, c.id.value);
    FoundAgain(c.doc, e, t, name);
    OneStep(e, t, name);
  }

  lemma AppendTableNames(r: Reader, d: Doc, t: nat, key: string, name: string)
    requires Sound(d) && t < |d.tables| && r.normalize(key) == Some(name)
    ensures Named(d, AppendTable(r, d, t, key), t, name, true)
  {
    ArrayInIsFound(d, t, name);
    match Lookup(d, d.tables[t], name)
    case FoundArr(a) =>
      if d.arrays[a].kind == 't' {
        AppendToOld(d, t, a, name);
      } else {
        ExtendsSelf(d);
      }
    case Nothing => AppendToNew(r, d, t, key, name);
    case _ => ExtendsSelf(d);
  }

  lemma ExtendsSelf(d: Doc)
    ensures Extends(d, d)
  {
  }

  lemma OneStep(d: Doc, t: nat, name: string)
    requires Closed(d) && t < |d.tables|
    ensures match Lookup(d, d.tables[t], name)
            case FoundTab(n) => Walk(d, t, [name]) == Created(d, Some(n))
            case FoundArr(a) => Walk(d, t, [name]) == Created(d, LastTable(d, a))
            case _ => true
  {
    assert [name][1..] == [];
  }

  lemma LastArrayIsFound(d: Doc, t: nat, key: string, n: nat)
    requires Sound(d) && t < |d.tables| && n < |d.arrays| && d.arrays[n].key == key
    requires d.tables[t].arrs != [] && d.tables[t].arrs[|d.tables[t].arrs| - 1] == n
    ensures Lookup(d, d.tables[t], key) == FoundArr(n)
  {
    var tab := d.tables[t];
    assert TableOk(d, tab) && InDoc(d, tab);
    var i := |tab.kvals| + |tab.arrs| - 1;
    assert Keys(d, tab)[i] == ArrKeys(d, tab)[|tab.arrs| - 1] == key;
    FoundAt(d, tab, i);
  }

  lemma CreateTableNames(r: Reader, d: Doc, t: nat, key: string, name: string)
    requires Sound(d) && t < |d.tables| && r.normalize(key) == Some(name)
    ensures Named(d, CreateTable(r, d, t, key), t, name, false)
    ensures var c := CreateTable(r, d, t, key);
            c.id.Some? ==> Lookup(c.doc, c.doc.tables[t], name) == FoundTab(c.id.value)
                           && !c.doc.tables[c.id.value].isImplicit
  {
    match Lookup(d, d.tables[t], name)
    case Nothing => NewTableNames(r, d, t, key, name);
    case FoundTab(n) =>
      if d.tables[n].isImplicit {
        OldTableNames(r, d, t, key, name, n);
      } else {
        ExtendsSelf(d);
      }
    case _ => ExtendsSelf(d);
  }

  /** If only one table of the old ones changes, and it lacks the key, the others are as they were. */
  lemma AddedOthersSame(d: Doc, e: Doc, t: nat, name: string)
    requires Closed(d) && t < |d.tables| <= |e.tables| && Lookup(d, d.tables[t], name) == Nothing
    requires forall i :: 0 <= i < |d.tables| && i != t ==> e.tables[i] == d.tables[i]
    ensures OthersSame(d, e, t, name)
  {
  }

  lemma NewTableNames(r: Reader, d: Doc, t: nat, key: string, name: string)
    requires Sound(d) && t < |d.tables| && r.normalize(key) == Some(name) && Lookup(d, d.tables[t], name) == Nothing
    ensures Named(d, CreateTable(r, d, t, key), t, name, false)
    ensures var c := CreateTable(r, d, t, key);
            c.id.Some? && Lookup(c.doc, c.doc.tables[t], name) == FoundTab(c.id.value)
            && !c.doc.tables[c.id.value].isImplicit
  {
    CreateTableKeeps(r, d, t, key);
    var e := CreateTable(r, d, t, key).doc;
    assert e == AddTable(d, t, name, false);
    AddedOthersSame(d, e, t, name);
    var tab := e.tables[t];
    assert tab.tabs[|tab.tabs| - 1] == |d.tables| && e.tables[|d.tables|].key == name;
    hide Lookup, Keys, TableOk, ArrOk, Extends, Walk, Sound, OthersSame, AddTable;
    LastIsFound(e, t, name, |d.tables|);
    OneStep(e, t, name);
  }

  lemma OldTableNames(r: Reader, d: Doc, t: nat, key: string, name: string, n: nat)
    requires Sound(d) && t < |d.tables| && r.normalize(key) == Some(name)
    requires n < |d.tables| && Lookup(d, d.tables[t], name) == FoundTab(n) && d.tables[n].isImplicit
    ensures Named(d, CreateTable(r, d, t, key), t, name, false)
    ensures var c := CreateTable(r, d, t, key);
            c.id.Some? && Lookup(c.doc, c.doc.tables[t], name) == FoundTab(c.id.value)
            && !c.doc.tables[c.id.value].isImplicit
  {
    CreateTableKeeps(r, d, t, key);
    assert TableOk(d, d.tables[n]);
    var e := CreateTable(r, d, t, key).doc;
    assert e == MakeExplicit(d, n);
    hide Lookup, Keys, ArrOk, Extends, Walk, Sound;
    FoundAgain(d, e, t, name);
    OneStep(e, t, name);
  }

  lemma SelectLast(r: Reader, d: Doc, t: nat, last: string, name: string, llb: bool)
    requires Sound(d) && t < |d.tables| && r.normalize(last) == Some(name)
    ensures Named(d, if llb then AppendTable(r, d, t, last) else CreateTable(r, d, t, last), t, name, llb)
    ensures !llb ==> CreateTable(r, d, t, last).doc.arrays == d.arrays
  {
    if llb {
      AppendTableNames(r, d, t, last, name);
    } else {
      CreateTableNames(r, d, t, last, name);
    }
  }

  /**
   A header is accepted exactly if its path is passable and its last key selectable. The last key then leads from
   the table at the end of the path to the table that is current from then on, and for `[x.y.z]` so does the whole
   path from the root, with nothing created on the way.
   */
  lemma SelectNames(r: Reader, d: Doc, keys: seq<string>, last: string, name: string, llb: bool)
    requires Sound(d) && r.normalize(last) == Some(name)
    ensures var w := Walk(d, 0, keys);
            var c := SelectTable(r, d, keys, last, llb);
            && Sound(c.doc) && Extends(d, c.doc) && (w.id.Some? <==> Passable(d, 0, keys))
            && (c.id.Some? <==> w.id.Some? && Selectable(w.doc, w.id.value, name, llb))
            && (c.id.Some? ==> Walk(c.doc, w.id.value, [name]) == c)
            && (c.id.Some? && !llb ==> Walk(c.doc, 0, keys + [name]) == c)
  {
    hide TableOk, ArrOk, Later, LaterArray, Keys, Lookup;
    WalkKeeps(d, 0, keys);
    var w := Walk(d, 0, keys);
    if w.id.Some? {
      var c := SelectTable(r, d, keys, last, llb);
      SelectLast(r, w.doc, w.id.value, last, name, llb);
      ExtendsTwice(d, w.doc, c.doc);
      if c.id.Some? && !llb {
        WalkAgain(d, c.doc, 0, keys);
        WalkInTwo(c.doc, 0, keys, name);
      }
    }
  }

  /** A table that was made current by `[x.y.z]` cannot be made current so again. */
  lemma NotTwice(r: Reader, d: Doc, keys: seq<string>, last: string)
    requires Sound(d) && r.normalize(last).Some? && SelectTable(r, d, keys, last, false).id.Some?
    ensures SelectTable(r, SelectTable(r, d, keys, last, false).doc, keys, last, false).id.None?
  {
    hide TableOk, ArrOk, Later, LaterArray, Keys, Lookup;
    var name := r.normalize(last).value;
    WalkKeeps(d, 0, keys);
    var w := Walk(d, 0, keys);
    CreateTableKeeps(r, w.doc, w.id.value, last);
    CreateTableNames(r, w.doc, w.id.value, last, name);
    var c := CreateTable(r, w.doc, w.id.value, last);
    WalkAgain(d, c.doc, 0, keys);
    CreateTableNames(r, c.doc, w.id.value, last, name);
  }

  // What a header changes in the tables that are there

  /** The path leads to the table `u` with a key that the table does not have. */
  predicate Reaches(d: Doc, t: nat, keys: seq<string>, u: nat)
    requires Closed(d) && t < |d.tables|
    decreases |keys|
  {
    keys != []
    && match Lookup(d, d.tables[t], keys[0])
       case FoundTab(n) => Reaches(d, n, keys[1..], u)
       case FoundArr(a) => LastTable(d, a).Some? && Reaches(d, LastTable(d, a).value, keys[1..], u)
       case FoundVal => false
       case Nothing => t == u
  }

  /** Walking changes exactly the table that lacks a key of the path. */
  lemma {:induction false} WalkChanges(d: Doc, t: nat, keys: seq<string>, u: nat)
    requires Closed(d) && t < |d.tables| && u < |d.tables|
    ensures var w := Walk(d, t, keys).doc;
            if Reaches(d, t, keys, u) then |w.tables[u].tabs| > |d.tables[u].tabs| else w.tables[u] == d.tables[u]
    decreases |keys|
  {
    if keys != [] {
      match Lookup(d, d.tables[t], keys[0])
      case FoundTab(n) => WalkChanges(d, n, keys[1..], u);
      case FoundArr(a) =>
        if LastTable(d, a).Some? {
          WalkChanges(d, LastTable(d, a).value, keys[1..], u);
        }
      case FoundVal =>
      case Nothing =>
        var e := AddTable(d, t, keys[0], true);
        NewTableIsEmpty(d, t, keys[0], true);
        WalkChanges(e, |d.tables|, keys[1..], u);
        assert |e.tables[t].tabs| == |d.tables[t].tabs| + 1;
    }
  }

  /** The whole path leads to a table that lacks a key of it if the path without its last key does, or ends there. */
  lemma {:induction false} ReachesInTwo(d: Doc, t: nat, keys: seq<string>, last: string, u: nat)
    requires Closed(d) && t < |d.tables| && u < |d.tables|
    ensures var w := Walk(d, t, keys);
            Reaches(d, t, keys + [last], u) <==>
            Reaches(d, t, keys, u)
            || (w.id == Some(u) && w.doc == d && Lookup(d, d.tables[u], last) == Nothing)
    ensures var w := Walk(d, t, keys); w.id == Some(u) ==> w.doc == d
    decreases |keys|
  {
    if keys == [] {
      assert [] + [last] == [last] && [last][1..] == [];
    } else {
      assert (keys + [last])[0] == keys[0] && (keys + [last])[1..] == keys[1..] + [last];
      match Lookup(d, d.tables[t], keys[0])
      case FoundTab(n) => ReachesInTwo(d, n, keys[1..], last, u);
      case FoundArr(a) =>
        if LastTable(d, a).Some? {
          ReachesInTwo(d, LastTable(d, a).value, keys[1..], last, u);
        }
      case FoundVal =>
      case Nothing =>
        var e := AddTable(d, t, keys[0], true);
        NewTableIsEmpty(d, t, keys[0], true);
        WalkFromNew(e, |d.tables|, keys[1..], u);
    }
  }

  /** From a table without keys, no older table is reached. */
  lemma {:induction false} WalkFromNew(d: Doc, t: nat, keys: seq<string>, u: nat)
    requires Closed(d) && t < |d.tables| && u < t && Keys(d, d.tables[t]) == []
    ensures Walk(d, t, keys).id != Some(u)
    decreases |keys|
  {
    if keys != [] {
      assert Lookup(d, d.tables[t], keys[0]) == Nothing;
      NewTableIsEmpty(d, t, keys[0], true);
      WalkFromNew(AddTable(d, t, keys[0], true), |d.tables|, keys[1..], u);
    }
  }

  /** A key that a table lacked and now has makes it another one. */
  lemma NewKeyChanges(d: Doc, c: Created, t: nat, name: string, llb: bool)
    requires Closed(d) && t < |d.tables| && Closed(c.doc) && NotSmaller(d, c.doc) && c.id.Some?
    requires Named(d, c, t, name, llb) && Lookup(d, d.tables[t], name) == Nothing
    ensures c.doc.tables[t] != d.tables[t]
  {
    KeysStay(d, c.doc, d.tables[t]);
  }

  /**
   A header changes a table that is read-only exactly if its path passes through the table, or ends in it, with a
   key that the table lacks.
   */
  lemma HeaderChanges(r: Reader, d: Doc, keys: seq<string>, last: string, name: string, llb: bool, u: nat)
    requires Sound(d) && r.normalize(last) == Some(name) && u < |d.tables| && d.tables[u].isReadonly
    ensures SelectTable(r, d, keys, last, llb).doc.tables[u] != d.tables[u] <==> Reaches(d, 0, keys + [name], u)
  {
    hide TableOk, ArrOk, LaterArray, Keys, Lookup;
    WalkKeeps(d, 0, keys);
    WalkChanges(d, 0, keys, u);
    ReachesInTwo(d, 0, keys, name, u);
    var w := Walk(d, 0, keys);
    assert Later(d.tables[u], w.doc.tables[u]);
    if w.id.Some? {
      var c := SelectTable(r, d, keys, last, llb);
      SelectLast(r, w.doc, w.id.value, last, name, llb);
      assert Later(w.doc.tables[u], c.doc.tables[u]);
      if w.id == Some(u) && Lookup(w.doc, w.doc.tables[u], name) == Nothing {
        NewKeyChanges(w.doc, c, u, name, llb);
      }
    }
  }

  /** What is read of `x = {a = 1}`: a closed table `x` with one value. */
  const CLOSED: TableVal := TableVal("x", [KeyVal("a", "1")], [], [], false, true, 0)

  const WITH_CLOSED: Doc := Doc([ROOT.(tabs := [1]), CLOSED], [])

  lemma ClosedKeys()
    ensures InDoc(WITH_CLOSED, WITH_CLOSED.tables[0]) && InDoc(WITH_CLOSED, CLOSED)
    ensures Keys(WITH_CLOSED, WITH_CLOSED.tables[0]) == ["x"] && Keys(WITH_CLOSED, CLOSED) == ["a"]
  {
    assert TabKeys(WITH_CLOSED, WITH_CLOSED.tables[0]) == ["x"];
  }

  lemma ClosedSound()
    ensures Sound(WITH_CLOSED)
  {
    hide Keys;
    ClosedKeys();
  }

  /** After `x = {a = 1}`, the header `[x.y]` gives `x` another table although it is read-only. */
  lemma ReadOnlyWitness(r: Reader)
    requires r.normalize("y") == Some("y")
    ensures Sound(WITH_CLOSED) && SelectTable(r, WITH_CLOSED, ["x"], "y", false).id == Some(2)
    ensures SelectTable(r, WITH_CLOSED, ["x"], "y", false).doc.tables[1] == CLOSED.(tabs := [2])
  {
    hide Keys, Lookup, TableOk, ArrOk;
    ClosedSound();
    ClosedKeys();
    FoundClosed();
    OneStep(WITH_CLOSED, 0, "x");
    assert Lookup(WITH_CLOSED, CLOSED, "y") == Nothing;
  }

  lemma FoundClosed()
    ensures InDoc(WITH_CLOSED, WITH_CLOSED.tables[0])
    ensures Lookup(WITH_CLOSED, WITH_CLOSED.tables[0], "x") == FoundTab(1)
  {
    ClosedKeys();
    FoundAt(WITH_CLOSED, WITH_CLOSED.tables[0], 0);
  }

  // Whole texts

  lemma ReadHeaderKeeps(r: Reader, tok: TomlTokens.Token, d: Doc)
    requires At(r, tok) && Sound(d)
    ensures var line := ReadHeader(r, tok, d); Sound(line.doc) && Extends(d, line.doc)
  {
    ExtendsSelf(d);
    hide Sound, Extends, Opening, Closing, ReadPath, SelectTable, Walk;
    var e := Opening(r, tok);
    if e.ok {
      var p := ReadPath(r, e.tok, [], "");
      if p.ok {
        var keys := p.keys[..|p.keys| - 1];
        SelectNames(r, d, keys, p.last, p.keys[|p.keys| - 1], IsDouble(r, tok, '['));
      }
    }
  }

  /** A line keeps all tables and arrays sound and loses nothing. */
  lemma ReadLineKeeps(r: Reader, tok: TomlTokens.Token, d: Doc, cur: nat)
    requires At(r, tok) && !tok.eof && Sound(d) && cur < |d.tables|
    ensures var line := ReadLine(r, tok, d, cur); Sound(line.doc) && Extends(d, line.doc)
  {
    ExtendsSelf(d);
    hide Sound, Extends, ReadHeader, ReadKeyVal;
    match tok.kind
    case STRING => ReadKeyValKeeps(r, tok, d, cur);
    case LBRACKET => ReadHeaderKeeps(r, tok, d);
    case _ =>
  }

  lemma {:induction false} ReadLinesKeep(r: Reader, tok: TomlTokens.Token, d: Doc, cur: nat)
    requires At(r, tok) && Sound(d) && cur < |d.tables|
    ensures var res := ReadLines(r, tok, d, cur); Sound(res.doc) && Extends(d, res.doc)
    decreases Left(r, tok)
  {
    hide TableOk, ArrOk, Later, LaterArray, Keys, Lookup;
    ExtendsSelf(d);
    if !tok.eof {
      ReadLineKeeps(r, tok, d, cur);
      var line := ReadLine(r, tok, d, cur);
      if line.ok {
        ReadLinesKeep(r, line.tok, line.doc, line.cur);
        ExtendsTwice(d, line.doc, ReadLines(r, line.tok, line.doc, line.cur).doc);
      }
    }
  }

  lemma EmptySound()
    ensures Sound(EMPTY)
  {
    assert Keys(EMPTY, ROOT) == [];
  }

  /** Whatever is read of a text, in every table the keys are unique, and arrays of tables hold only tables. */
  lemma DocumentSound(r: Reader)
    ensures Sound(ReadDocument(r).doc)
  {
    EmptySound();
    var e := Next(r, START, true);
    if e.ok {
      ReadLinesKeep(r, e.tok, EMPTY, 0);
    }
  }
}

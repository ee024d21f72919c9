/** What reading entries keeps: sound tables, everything read before, and the tables that are read-only. */
module TomlKept {
  import opened TomlDoc
  import opened TomlRead
  import opened TomlSteps
  import opened TomlTokens

  /** The tables that are read-only stay exactly what they are. */
  predicate KeepsClosed(d: Doc, e: Doc) {
    |d.tables| <= |e.tables|
    && forall t :: 0 <= t < |d.tables| && d.tables[t].isReadonly ==> e.tables[t] == d.tables[t]
  }

  /** All arrays but one stay exactly what they are. */
  predicate KeepsArrays(d: Doc, e: Doc, a: int) {
    |d.arrays| <= |e.arrays| && forall i :: 0 <= i < |d.arrays| && i != a ==> e.arrays[i] == d.arrays[i]
  }

  /** The effect of entries in some table, or of elements of the array `a`. */
  ghost predicate Entered(d: Doc, e: Doc, a: int) {
    Sound(e) && Extends(d, e) && KeepsClosed(d, e) && KeepsArrays(d, e, a)
  }

  /** No array that was there before. */
  const NONE: int := -1

  lemma EnteredSelf(d: Doc, a: int)
    requires Sound(d)
    ensures Entered(d, d, a)
  {
  }

  lemma EnteredTwice(d: Doc, e: Doc, f: Doc, a: int, b: int)
    requires Entered(d, e, a) && Entered(e, f, b) && (b == a || b == NONE || b >= |d.arrays|)
    ensures Entered(d, f, a)
  {
    ExtendsTwice(d, e, f);
  }

  /** A table has an entry under a key. */
  ghost predicate HasKey(r: Reader, d: Doc, t: nat, key: string)
    requires Closed(d) && t < |d.tables|
  {
    r.normalize(key).Some? && r.normalize(key).value in Keys(d, d.tables[t])
  }

  lemma StillHasKey(r: Reader, d: Doc, e: Doc, t: nat, key: string)
    requires Closed(d) && Closed(e) && Extends(d, e) && t < |d.tables| && HasKey(r, d, t, key)
    ensures HasKey(r, e, t, key)
  {
    KeyStays(d, e, t, r.normalize(key).value);
  }

  // One entry

  /** A value is added exactly if its key is new. */
  lemma CreateValKeeps(r: Reader, d: Doc, t: nat, key: string, val: string)
    requires Sound(d) && t < |d.tables| && !d.tables[t].isReadonly
    ensures var c := CreateVal(r, d, t, key, val);
            && Entered(d, c.doc, NONE)
            && (c.id.Some? <==> r.normalize(key).Some? && !HasKey(r, d, t, key))
            && (if c.id.Some? then HasKey(r, c.doc, t, key) else c.doc == d)
  {
    EnteredSelf(d, NONE);
    if r.normalize(key).Some? && !HasKey(r, d, t, key) {
      AddValKeeps(d, t, KeyVal(r.normalize(key).value, val));
    }
  }

  /**
   A table is given exactly if its key is new or belongs to an implicit table, and it is explicit then; a table
   that is explicit already is never given.
   */
  lemma CreateTableKeeps(r: Reader, d: Doc, t: nat, key: string)
    requires Sound(d) && t < |d.tables|
    ensures var c := CreateTable(r, d, t, key);
            && Sound(c.doc) && Extends(d, c.doc) && c.doc.arrays == d.arrays
            && (!d.tables[t].isReadonly ==> Entered(d, c.doc, NONE))
            && (c.id.None? ==> c.doc == d)
            && (c.id.Some? ==> !c.doc.tables[c.id.value].isImplicit && HasKey(r, c.doc, t, key)
                               && (c.id.value < |d.tables| ==> d.tables[c.id.value].isImplicit))
  {
    hide TableOk, ArrOk, Extends, Keys, Lookup;
    EnteredSelf(d, NONE);
    match r.normalize(key)
    case None =>
    case Some(name) =>
      match Lookup(d, d.tables[t], name)
      case Nothing => AddTableKeeps(d, t, name, false);
      case FoundTab(n) =>
        if d.tables[n].isImplicit {
          ImplicitIsGiven(d, t, n, name);
        }
      case _ =>
  }

  /** An implicit table is not read-only, so all that are stay as they are. */
  lemma ImplicitIsGiven(d: Doc, t: nat, n: nat, name: string)
    requires Sound(d) && t < |d.tables| && n < |d.tables| && d.tables[n].isImplicit && name in Keys(d, d.tables[t])
    ensures var e := MakeExplicit(d, n); Entered(d, e, NONE) && name in Keys(e, e.tables[t])
    ensures !MakeExplicit(d, n).tables[n].isImplicit
  {
    hide Keys;
    assert TableOk(d, d.tables[n]);
    MakeExplicitKeeps(d, n);
    KeyStays(d, MakeExplicit(d, n), t, name);
  }

  lemma CreateArrayKeeps(r: Reader, d: Doc, t: nat, key: string)
    requires Sound(d) && t < |d.tables|
    ensures var c := CreateArray(r, d, t, key);
            && Sound(c.doc) && Extends(d, c.doc) && KeepsArrays(d, c.doc, NONE)
            && (!d.tables[t].isReadonly ==> Entered(d, c.doc, NONE))
            && (c.id.Some? <==> r.normalize(key).Some? && !HasKey(r, d, t, key))
            && (if c.id.Some? then HasKey(r, c.doc, t, key) && c.id.value == |d.arrays| else c.doc == d)
  {
    if r.normalize(key).Some? && !HasKey(r, d, t, key) {
      AddArrayKeeps(d, t, r.normalize(key).value);
    }
  }

  lemma SubTableKeeps(r: Reader, d: Doc, t: nat, key: string)
    requires Sound(d) && t < |d.tables| && !d.tables[t].isReadonly
    ensures var c := SubTable(r, d, t, key);
            Entered(d, c.doc, NONE) && (c.id.Some? ==> HasKey(r, c.doc, t, key))
  {
    EnteredSelf(d, NONE);
    match r.normalize(key)
    case None =>
    case Some(name) =>
      match IndexOf(TabKeys(d, d.tables[t]), name)
      case None => CreateTableKeeps(r, d, t, key);
      case Some(i) => assert Keys(d, d.tables[t])[|d.tables[t].kvals| + |d.tables[t].arrs| + i] == name;
  }

  // Key-value lines

  /**
   A key-value line keeps all tables and arrays sound, loses nothing, and leaves the whole state of every read-only
   table and of every array as it is; if it is accepted, its key is in the table.
   */
  lemma {:induction false} ReadKeyValKeeps(r: Reader, tok: Token, d: Doc, t: nat)
    requires At(r, tok) && Sound(d) && t < |d.tables|
    ensures var res := ReadKeyVal(r, tok, d, t);
            Entered(d, res.doc, NONE) && (res.ok ==> HasKey(r, res.doc, t, Text(r, tok)))
    decreases Left(r, tok), 1
  {
    hide Entered, HasKey;
    EnteredSelf(d, NONE);
    if !d.tables[t].isReadonly {
      var e := Eat(r, tok, STRING, true);
      if e.ok && e.tok.kind == DOT {
        ReadDottedKeeps(r, e.tok, d, t, Text(r, tok));
      } else if e.ok && e.tok.kind == EQUAL {
        var v := Next(r, e.tok, false);
        if v.ok {
          ReadValueKeeps(r, v.tok, d, t, Text(r, tok));
        }
      }
    }
  }

  lemma {:induction false} ReadDottedKeeps(r: Reader, tok: Token, d: Doc, t: nat, key: string)
    requires At(r, tok) && tok.kind == DOT && Sound(d) && t < |d.tables| && !d.tables[t].isReadonly
    ensures var res := ReadDotted(r, tok, d, t, key);
            Entered(d, res.doc, NONE) && (res.ok ==> HasKey(r, res.doc, t, key))
    decreases Left(r, tok), 0
  {
    hide HasKey, Extends, TableOk, ArrOk, Closed, KeepsClosed, KeepsArrays;
    SubTableKeeps(r, d, t, key);
    var c := SubTable(r, d, t, key);
    if c.id.Some? {
      var e := Next(r, tok, true);
      if e.ok {
        ReadKeyValKeeps(r, e.tok, c.doc, c.id.value);
        var res := ReadKeyVal(r, e.tok, c.doc, c.id.value);
        EnteredTwice(d, c.doc, res.doc, NONE, NONE);
        StillHasKey(r, c.doc, res.doc, t, key);
      }
    }
  }

  lemma {:induction false} ReadValueKeeps(r: Reader, tok: Token, d: Doc, t: nat, key: string)
    requires At(r, tok) && Sound(d) && t < |d.tables| && !d.tables[t].isReadonly
    ensures var res := ReadValue(r, tok, d, t, key);
            Entered(d, res.doc, NONE) && (res.ok ==> HasKey(r, res.doc, t, key))
    decreases Left(r, tok), 2
  {
    hide HasKey, Extends, TableOk, ArrOk, Closed, KeepsClosed, KeepsArrays;
    EnteredSelf(d, NONE);
    match tok.kind
    case STRING => CreateValKeeps(r, d, t, key, Text(r, tok));
    case LBRACKET =>
      CreateArrayKeeps(r, d, t, key);
      var c := CreateArray(r, d, t, key);
      if c.id.Some? {
        ReadArrayKeeps(r, tok, c.doc, c.id.value);
        var res := ReadArray(r, tok, c.doc, c.id.value);
        EnteredTwice(d, c.doc, res.doc, NONE, c.id.value);
        StillHasKey(r, c.doc, res.doc, t, key);
      }
    case LBRACE =>
      CreateTableKeeps(r, d, t, key);
      var c := CreateTable(r, d, t, key);
      if c.id.Some? {
        ReadInlineKeeps(r, tok, c.doc, c.id.value);
        var res := ReadInline(r, tok, c.doc, c.id.value);
        EnteredTwice(d, c.doc, res.doc, NONE, NONE);
        StillHasKey(r, c.doc, res.doc, t, key);
      }
    case _ =>
  }

  lemma {:induction false} ReadArrayKeeps(r: Reader, tok: Token, d: Doc, a: nat)
    requires At(r, tok) && tok.kind == LBRACKET && Sound(d) && a < |d.arrays|
    ensures Entered(d, ReadArray(r, tok, d, a).doc, a)
    decreases Left(r, tok), 1
  {
    hide Entered;
    EnteredSelf(d, a);
    var e := Eat(r, tok, LBRACKET, false);
    if e.ok {
      ReadElementsKeep(r, e.tok, d, a);
    }
  }

  lemma {:induction false} ReadElementsKeep(r: Reader, tok: Token, d: Doc, a: nat)
    requires At(r, tok) && Sound(d) && a < |d.arrays|
    ensures Entered(d, ReadElements(r, tok, d, a).doc, a)
    decreases Left(r, tok), 4
  {
    hide Extends, TableOk, ArrOk, Closed, KeepsClosed, KeepsArrays;
    EnteredSelf(d, a);
    var e := SkipNewlines(r, tok);
    if e.ok && e.tok.kind != RBRACKET {
      ReadElementKeeps(r, e.tok, d, a);
      var item := ReadElement(r, e.tok, d, a);
      if item.ok {
        var s := SkipNewlines(r, item.tok);
        if s.ok && s.tok.kind == COMMA {
          var c := Eat(r, s.tok, COMMA, false);
          if c.ok {
            ReadElementsKeep(r, c.tok, item.doc, a);
            EnteredTwice(d, item.doc, ReadElements(r, c.tok, item.doc, a).doc, a, a);
          }
        }
      }
    }
  }

  lemma PushIsEntered(d: Doc, a: nat, item: Item)
    requires Sound(d) && a < |d.arrays| && ItemInDoc(d, item)
    ensures Entered(d, Push(d, a, item), a)
  {
    PushKeeps(d, a, item);
    hide Sound, Extends;
  }

  lemma PushedIsEntered(d: Doc, a: nat)
    requires Sound(d) && a < |d.arrays|
    ensures Entered(d, PushArray(d, a), a) && Entered(d, PushTable(d, a, ""), a)
    ensures !PushTable(d, a, "").tables[|d.tables|].isImplicit
  {
    PushArrayKeeps(d, a);
    PushTableKeeps(d, a, "");
    hide Sound, Extends;
  }

  lemma {:induction false} ReadElementKeeps(r: Reader, tok: Token, d: Doc, a: nat)
    requires At(r, tok) && Sound(d) && a < |d.arrays|
    ensures Entered(d, ReadElement(r, tok, d, a).doc, a)
    decreases Left(r, tok), 3
  {
    EnteredSelf(d, a);
    PushedIsEntered(d, a);
    assert Sound(PushArray(d, a)) && Sound(PushTable(d, a, ""));
    hide Entered, PushArray, PushTable, Push, ReadArray, ReadInline, Sound;
    match tok.kind
    case STRING => PushIsEntered(d, a, Value(r.typeOf(Text(r, tok)), Text(r, tok)));
    case LBRACKET =>
      ReadArrayKeeps(r, tok, PushArray(d, a), |d.arrays|);
      EnteredTwice(d, PushArray(d, a), ReadArray(r, tok, PushArray(d, a), |d.arrays|).doc, a, |d.arrays|);
    case LBRACE =>
      ReadInlineKeeps(r, tok, PushTable(d, a, ""), |d.tables|);
      EnteredTwice(d, PushTable(d, a, ""), ReadInline(r, tok, PushTable(d, a, ""), |d.tables|).doc, a, NONE);
    case _ =>
  }

  /** An inline table that is read to its closing brace is read-only. */
  lemma {:induction false} ReadInlineKeeps(r: Reader, tok: Token, d: Doc, t: nat)
    requires At(r, tok) && tok.kind == LBRACE && Sound(d) && t < |d.tables| && !d.tables[t].isImplicit
    ensures var res := ReadInline(r, tok, d, t);
            Entered(d, res.doc, NONE) && (res.ok ==> res.doc.tables[t].isReadonly)
    decreases Left(r, tok), 1
  {
    EnteredSelf(d, NONE);
    var e := Eat(r, tok, LBRACE, true);
    if e.ok {
      hide ReadEntries;
      ReadEntriesKeep(r, e.tok, d, t);
      var b := ReadEntries(r, e.tok, d, t);
      assert Later(d.tables[t], b.doc.tables[t]);
      if b.ok && Eat(r, b.tok, RBRACE, true).ok {
        ClosedIsEntered(b.doc, t);
        hide Entered;
        EnteredTwice(d, b.doc, Close(b.doc, t), NONE, NONE);
      }
    }
  }

  lemma ClosedIsEntered(d: Doc, t: nat)
    requires Sound(d) && t < |d.tables| && !d.tables[t].isImplicit
    ensures Entered(d, Close(d, t), NONE)
  {
    CloseKeeps(d, t);
    hide Sound, Extends;
  }

  lemma {:induction false} ReadEntriesKeep(r: Reader, tok: Token, d: Doc, t: nat)
    requires At(r, tok) && Sound(d) && t < |d.tables|
    ensures Entered(d, ReadEntries(r, tok, d, t).doc, NONE)
    decreases Left(r, tok), 2
  {
    hide Extends, TableOk, ArrOk, Closed, KeepsClosed, KeepsArrays;
    EnteredSelf(d, NONE);
    if tok.kind == STRING {
      ReadKeyValKeeps(r, tok, d, t);
      var k := ReadKeyVal(r, tok, d, t);
      if k.ok && k.tok.kind == COMMA {
        var e := Eat(r, k.tok, COMMA, true);
        if e.ok {
          ReadEntriesKeep(r, e.tok, k.doc, t);
          EnteredTwice(d, k.doc, ReadEntries(r, e.tok, k.doc, t).doc, NONE, NONE);
        }
      }
    }
  }
}

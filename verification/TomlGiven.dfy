/** What an accepted key-value line leaves under its key. */
module TomlGiven {
  import opened Options
  import opened TomlDoc
  import opened TomlHeaders
  import opened TomlKept
  import opened TomlRead
  import opened TomlSteps
  import opened TomlTokens

  /** Under the key there is what the token behind the equals sign begins: a value, a new array or a closed table. */
  predicate Given(r: Reader, d: Doc, e: Doc, t: nat, name: string, value: Token)
    requires Closed(e) && t < |e.tables| && At(r, value)
  {
    var found := Lookup(e, e.tables[t], name);
    match value.kind
    case STRING => found == FoundVal && KeyVal(name, Text(r, value)) in e.tables[t].kvals
    case LBRACKET => found == FoundArr(|d.arrays|)
    case LBRACE => found.FoundTab? && e.tables[found.tab].isReadonly
    case _ => false
  }

  lemma ValueIsGiven(r: Reader, tok: Token, d: Doc, t: nat, key: string, name: string)
    requires At(r, tok) && Sound(d) && t < |d.tables| && !d.tables[t].isReadonly && r.normalize(key) == Some(name)
    requires ReadValue(r, tok, d, t, key).ok
    ensures Given(r, d, ReadValue(r, tok, d, t, key).doc, t, name, tok)
  {
    match tok.kind
    case STRING => StringIsGiven(r, tok, d, t, key, name);
    case LBRACKET => ArrayIsGiven(r, tok, d, t, key, name);
    case LBRACE => TableIsGiven(r, tok, d, t, key, name);
    case _ =>
  }

  lemma StringIsGiven(r: Reader, tok: Token, d: Doc, t: nat, key: string, name: string)
    requires At(r, tok) && Sound(d) && t < |d.tables| && !d.tables[t].isReadonly && r.normalize(key) == Some(name)
    requires tok.kind == STRING && ReadValue(r, tok, d, t, key).ok
    ensures Given(r, d, ReadValue(r, tok, d, t, key).doc, t, name, tok)
  {
    hide TableOk, ArrOk, Extends, Keys;
    CreateValKeeps(r, d, t, key, Text(r, tok));
    var e := CreateVal(r, d, t, key, Text(r, tok)).doc;
    var tab := e.tables[t];
    var last := |tab.kvals| - 1;
    assert tab.kvals[last] == KeyVal(name, Text(r, tok));
    LastValueIsFound(e, t, last);
  }

  lemma LastValueIsFound(d: Doc, t: nat, i: nat)
    requires Sound(d) && t < |d.tables| && i < |d.tables[t].kvals|
    ensures Lookup(d, d.tables[t], d.tables[t].kvals[i].key) == FoundVal
  {
    var tab := d.tables[t];
    assert TableOk(d, tab) && InDoc(d, tab);
    assert Keys(d, tab)[i] == ValKeys(tab.kvals)[i] == tab.kvals[i].key;
    FoundAt(d, tab, i);
  }

  lemma ArrayIsGiven(r: Reader, tok: Token, d: Doc, t: nat, key: string, name: string)
    requires At(r, tok) && Sound(d) && t < |d.tables| && !d.tables[t].isReadonly && r.normalize(key) == Some(name)
    requires tok.kind == LBRACKET && ReadValue(r, tok, d, t, key).ok
    ensures Given(r, d, ReadValue(r, tok, d, t, key).doc, t, name, tok)
  {
    hide TableOk, ArrOk, Extends, Keys, Lookup;
    CreateArrayKeeps(r, d, t, key);
    var c := CreateArray(r, d, t, key);
    LastArrayIsFound(c.doc, t, name, |d.arrays|);
    ReadArrayKeeps(r, tok, c.doc, |d.arrays|);
    FoundAgain(c.doc, ReadArray(r, tok, c.doc, |d.arrays|).doc, t, name);
  }

  lemma TableIsGiven(r: Reader, tok: Token, d: Doc, t: nat, key: string, name: string)
    requires At(r, tok) && Sound(d) && t < |d.tables| && !d.tables[t].isReadonly && r.normalize(key) == Some(name)
    requires tok.kind == LBRACE && ReadValue(r, tok, d, t, key).ok
    ensures Given(r, d, ReadValue(r, tok, d, t, key).doc, t, name, tok)
  {
    hide TableOk, ArrOk, Extends, Keys, Lookup;
    CreateTableKeeps(r, d, t, key);
    CreateTableNames(r, d, t, key, name);
    var c := CreateTable(r, d, t, key);
    ReadInlineKeeps(r, tok, c.doc, c.id.value);
    FoundAgain(c.doc, ReadInline(r, tok, c.doc, c.id.value).doc, t, name);
  }

  /** For `key = value`, what is under the key afterwards. */
  lemma KeyIsGiven(r: Reader, tok: Token, d: Doc, t: nat)
    requires At(r, tok) && Sound(d) && t < |d.tables| && ReadKeyVal(r, tok, d, t).ok
    requires Eat(r, tok, STRING, true).tok.kind == EQUAL
    ensures var value := Next(r, Eat(r, tok, STRING, true).tok, false).tok;
            && r.normalize(Text(r, tok)).Some?
            && Given(r, d, ReadKeyVal(r, tok, d, t).doc, t, r.normalize(Text(r, tok)).value, value)
  {
    hide Given;
    var e := Eat(r, tok, STRING, true);
    var v := Next(r, e.tok, false);
    ReadKeyValKeeps(r, tok, d, t);
    ValueIsGiven(r, v.tok, d, t, Text(r, tok), r.normalize(Text(r, tok)).value);
  }

  /**
   For `key.rest = value` there is a table under the key, and the rest of the line is read in that table, from a
   document in which at most that table is new or explicit.
   */
  lemma DottedKeyIsGiven(r: Reader, tok: Token, d: Doc, t: nat)
    requires At(r, tok) && Sound(d) && t < |d.tables| && ReadKeyVal(r, tok, d, t).ok
    requires Eat(r, tok, STRING, true).tok.kind == DOT
    ensures var rest, c := Next(r, Eat(r, tok, STRING, true).tok, true).tok, SubTable(r, d, t, Text(r, tok));
            var res := ReadKeyVal(r, tok, d, t);
            && r.normalize(Text(r, tok)).Some? && c.id.Some? && res == ReadKeyVal(r, rest, c.doc, c.id.value)
            && Lookup(res.doc, res.doc.tables[t], r.normalize(Text(r, tok)).value) == FoundTab(c.id.value)
  {
    hide TableOk, ArrOk, Extends, Keys, Lookup;
    var key := Text(r, tok);
    var name := r.normalize(key).value;
    var c := SubTable(r, d, t, key);
    SubTableKeeps(r, d, t, key);
    SubTableIsFound(r, d, t, key, name);
    var rest := Next(r, Eat(r, tok, STRING, true).tok, true).tok;
    ReadKeyValKeeps(r, rest, c.doc, c.id.value);
    FoundAgain(c.doc, ReadKeyVal(r, rest, c.doc, c.id.value).doc, t, name);
  }

  lemma SubTableIsFound(r: Reader, d: Doc, t: nat, key: string, name: string)
    requires Sound(d) && t < |d.tables| && r.normalize(key) == Some(name) && SubTable(r, d, t, key).id.Some?
    ensures var c := SubTable(r, d, t, key); Lookup(c.doc, c.doc.tables[t], name) == FoundTab(c.id.value)
  {
    var tab := d.tables[t];
    match IndexOf(TabKeys(d, tab), name)
    case None => CreateTableNames(r, d, t, key, name);
    case Some(i) =>
      assert TableOk(d, tab) && InDoc(d, tab);
      assert Keys(d, tab)[|tab.kvals| + |tab.arrs| + i] == name;
      FoundAt(d, tab, |tab.kvals| + |tab.arrs| + i);
  }
}

/** The recursive TOML parser, updating its token and its document in place. */
module TomlParser {
  import opened CStrings
  import opened Options
  import D = TomlDoc
  import R = TomlRead
  import opened TomlDocument
  import opened TomlHeaders
  import opened TomlTables
  import opened TomlTokens

  class Parser {
    const text: string

    /** How a key token is normalised, and the type of a raw value. */
    const normalize: string -> Option<string>
    const typeOf: string -> char

    const doc: Document
    var tok: Token
    var curtab: Table
    var path: seq<string>

    ghost function Reader(): R.Reader {
      R.Reader(text, normalize, typeOf)
    }

    ghost predicate DocReady()
      reads doc, doc.tables, doc.arrays
    {
      NoNul(text) && doc.Linked() && D.Closed(doc.Val())
    }

    ghost predicate Ready()
      reads `tok, doc, doc.tables, doc.arrays
    {
      DocReady() && R.At(Reader(), tok)
    }

    /** The artificial newline of length zero comes first. */
    constructor (text: string, normalize: string -> Option<string>, typeOf: string -> char)
      requires NoNul(text)
      ensures DocReady() && tok == R.START && doc.Val() == R.EMPTY && curtab == doc.root
      ensures fresh(doc) && fresh(doc.root) && doc.tables == [doc.root] && doc.arrays == []
      ensures Reader() == R.Reader(text, normalize, typeOf)
    {
      this.text, this.normalize, this.typeOf := text, normalize, typeOf;
      var d := new Document();
      doc, curtab, path, tok := d, d.root, [], Token(NEWLINE, 0, 0, false);
      new;
      doc.IsClosed();
    }

    // Tokens

    method Next(dotIsSpecial: bool) returns (ok: bool)
      requires NoNul(text) && InText(tok, text)
      modifies `tok
      ensures R.Eaten(ok, tok) == R.Next(Reader(), old(tok), dotIsSpecial)
    {
      var next;
      ok, next := NextToken(text, tok, dotIsSpecial);
      if ok {
        tok := next;
      }
    }

    method Eat(kind: Kind, dotIsSpecial: bool) returns (ok: bool)
      requires NoNul(text) && R.At(Reader(), tok)
      modifies `tok
      ensures R.Eaten(ok, tok) == R.Eat(Reader(), old(tok), kind, dotIsSpecial)
    {
      if tok.kind != kind {
        return false;
      }
      ok := Next(dotIsSpecial);
    }

    method SkipNewlines() returns (ok: bool)
      requires NoNul(text) && R.At(Reader(), tok)
      modifies `tok
      ensures R.Eaten(ok, tok) == R.SkipNewlines(Reader(), old(tok))
    {
      ok := true;
      while tok.kind == NEWLINE
        invariant ok && R.At(Reader(), tok)
        invariant R.SkipNewlines(Reader(), tok) == R.SkipNewlines(Reader(), old(tok))
        decreases |text| - tok.ptr
      {
        ok := Next(false);
        if !ok || tok.eof {
          return;
        }
      }
    }

    function TokenText(t: Token): string
      requires t.ptr + t.len <= |text|
    {
      text[t.ptr..t.ptr + t.len]
    }

    /** What is left of the text, for termination: strings may be empty, but every loop eats punctuation. */
    function Left(): nat
      requires tok.ptr <= |text|
      reads `tok
    {
      |text| - tok.ptr
    }

    // Entries

    ghost predicate IsTable(t: Table?, id: Option<nat>)
      reads doc
    {
      if t == null then id == None else doc.HasTable(t) && id == Some(t.id)
    }

    ghost predicate IsArray(a: Arr?, id: Option<nat>)
      reads doc
    {
      if a == null then id == None else doc.HasArray(a) && id == Some(a.id)
    }

    /** `create_keyval_in_table` */
    method CreateKeyVal(tab: Table, key: string, val: string) returns (ok: bool)
      requires DocReady() && doc.HasTable(tab)
      modifies tab
      ensures DocReady() && doc.Grown()
      ensures D.Closed(old(doc.Val())) && tab.id < |old(doc.Val()).tables|
      ensures var c := R.CreateVal(Reader(), old(doc.Val()), tab.id, key, val); doc.Val() == c.doc && ok == c.id.Some?
    {
      hide Document.Linked, TableVals, ArrVals, D.Lookup;
      var newkey := normalize(key);
      if newkey.None? {
        return false;
      }
      var found := doc.CheckKey(tab, newkey.value);
      if found != Nothing {
        return false;
      }
      doc.AddVal(tab, D.KeyVal(newkey.value, val));
      ok := true;
    }

    /** `create_keytable_in_table`: a new table, or one that was implicit so far and no longer is. */
    method CreateKeyTable(tab: Table, key: string) returns (dest: Table?)
      requires DocReady() && doc.HasTable(tab)
      modifies doc, doc.tables
      ensures DocReady() && doc.Grown() && doc.arrays == old(doc.arrays)
      ensures D.Closed(old(doc.Val())) && tab.id < |old(doc.Val()).tables|
      ensures var c := R.CreateTable(Reader(), old(doc.Val()), tab.id, key); doc.Val() == c.doc && IsTable(dest, c.id)
    {
      hide Document.Linked, D.Lookup;
      var newkey := normalize(key);
      if newkey.None? {
        return null;
      }
      var found := doc.CheckKey(tab, newkey.value);
      if found == Nothing {
        dest := doc.AddTable(tab, newkey.value, false);
        return;
      }
      if found.FoundTab? && found.tab.isImplicit {
        doc.MakeExplicit(found.tab);
        return found.tab;
      }
      dest := null;
    }

    /** `create_keyarray_in_table` for an array whose kind is not known yet. */
    method CreateKeyArray(tab: Table, key: string) returns (dest: Arr?)
      requires DocReady() && doc.HasTable(tab)
      modifies doc, tab
      ensures DocReady() && doc.Grown() && doc.tables == old(doc.tables)
      ensures D.Closed(old(doc.Val())) && tab.id < |old(doc.Val()).tables|
      ensures var c := R.CreateArray(Reader(), old(doc.Val()), tab.id, key); doc.Val() == c.doc && IsArray(dest, c.id)
    {
      hide Document.Linked, TableVals, ArrVals, D.Lookup;
      var newkey := normalize(key);
      if newkey.None? {
        return null;
      }
      var found := doc.CheckKey(tab, newkey.value);
      if found != Nothing {
        return null;
      }
      dest := doc.AddArray(tab, newkey.value);
    }

    /** The table under a key, which is created if there is none. */
    method SubTable(tab: Table, key: string) returns (subtab: Table?)
      requires DocReady() && doc.HasTable(tab)
      modifies doc, doc.tables
      ensures DocReady() && doc.Grown() && doc.arrays == old(doc.arrays)
      ensures D.Closed(old(doc.Val())) && tab.id < |old(doc.Val()).tables|
      ensures var c := R.SubTable(Reader(), old(doc.Val()), tab.id, key); doc.Val() == c.doc && IsTable(subtab, c.id)
    {
      hide Document.Linked, D.Lookup;
      var name := normalize(key);
      if name.None? {
        return null;
      }
      subtab := doc.TableIn(tab, name.value);
      if subtab == null {
        subtab := CreateKeyTable(tab, key);
      }
    }

    // Values and lines

    /** `parse_keyval`: a value, an array or a table under a key, which may be dotted. */
    method ParseKeyVal(tab: Table) returns (ok: bool)
      requires Ready() && doc.HasTable(tab)
      modifies `tok, doc, doc.tables, doc.arrays
      ensures Ready() && doc.Grown() && tok.ptr >= old(tok.ptr)
      ensures R.At(Reader(), old(tok)) && D.Closed(old(doc.Val())) && tab.id < |old(doc.Val()).tables|
      ensures R.Read(ok, tok, doc.Val()) == R.ReadKeyVal(Reader(), old(tok), old(doc.Val()), tab.id)
      decreases Left(), 1
    {
      hide Document.Linked, ArrVals, D.Closed, InText, NoNul, R.ReadDotted, R.ReadValue, R.Onward;
      if tab.isReadonly {
        return false;
      }
      var key := tok;
      ok := Eat(STRING, true);
      if !ok {
        return;
      }
      if tok.kind == DOT {
        ok := ParseDotted(tab, TokenText(key));
        return;
      }
      if tok.kind != EQUAL {
        return false;
      }
      ok := Next(false);
      if !ok {
        return;
      }
      ok := ParseValue(tab, TokenText(key));
    }

    /** The rest of a dotted key belongs to a table of the given one. */
    method ParseDotted(tab: Table, key: string) returns (ok: bool)
      requires Ready() && doc.HasTable(tab) && tok.kind == DOT
      modifies `tok, doc, doc.tables, doc.arrays
      ensures Ready() && doc.Grown() && tok.ptr >= old(tok.ptr)
      ensures R.At(Reader(), old(tok)) && D.Closed(old(doc.Val())) && tab.id < |old(doc.Val()).tables|
      ensures R.Read(ok, tok, doc.Val()) == R.ReadDotted(Reader(), old(tok), old(doc.Val()), tab.id, key)
      decreases Left(), 0
    {
      hide Document.Linked, TableVals, ArrVals, D.Closed, NoNul, R.SubTable, R.ReadKeyVal, R.Onward;
      var subtab := SubTable(tab, key);
      if subtab == null {
        return false;
      }
      ok := Next(true);
      if !ok {
        return;
      }
      ok := ParseKeyVal(subtab);
    }

    /** What stands behind the equals sign. */
    method ParseValue(tab: Table, key: string) returns (ok: bool)
      requires Ready() && doc.HasTable(tab)
      modifies `tok, doc, doc.tables, doc.arrays
      ensures Ready() && doc.Grown() && tok.ptr >= old(tok.ptr)
      ensures R.At(Reader(), old(tok)) && D.Closed(old(doc.Val())) && tab.id < |old(doc.Val()).tables|
      ensures R.Read(ok, tok, doc.Val()) == R.ReadValue(Reader(), old(tok), old(doc.Val()), tab.id, key)
      decreases Left(), 2
    {
      hide Document.Linked, TableVals, ArrVals, D.Closed, NoNul, R.CreateVal, R.CreateArray, R.CreateTable;
      hide R.ReadArray, R.ReadInline, R.Onward;
      match tok.kind
      case STRING =>
        ok := CreateKeyVal(tab, key, TokenText(tok));
        if ok {
          ok := Next(true);
        }
      case LBRACKET =>
        var arr := CreateKeyArray(tab, key);
        if arr == null {
          return false;
        }
        ok := ParseArray(arr);
      case LBRACE =>
        var nxttab := CreateKeyTable(tab, key);
        if nxttab == null {
          return false;
        }
        ok := ParseInlineTable(nxttab);
      case _ => ok := false;
    }

    /** `parse_array`, at the opening bracket. */
    method ParseArray(arr: Arr) returns (ok: bool)
      requires Ready() && doc.HasArray(arr) && tok.kind == LBRACKET
      modifies `tok, doc, doc.tables, doc.arrays
      ensures Ready() && doc.Grown() && tok.ptr >= old(tok.ptr)
      ensures R.At(Reader(), old(tok)) && D.Closed(old(doc.Val())) && arr.id < |old(doc.Val()).arrays|
      ensures R.Read(ok, tok, doc.Val()) == R.ReadArray(Reader(), old(tok), old(doc.Val()), arr.id)
      decreases Left(), 1
    {
      hide Document.Linked, TableVals, ArrVals, D.Closed, NoNul, R.ReadElement, R.Onward, R.ReadElements;
      ok := Eat(LBRACKET, false);
      if !ok {
        return;
      }
      ghost var start, d := tok, doc.Val();
      var more := true;
      while more
        invariant ok && Ready() && doc.Grown() && tok.ptr >= start.ptr
        invariant Elements(more, arr.id) == R.ReadElements(Reader(), start, d, arr.id)
        decreases more, Left()
      {
        ok, more := ParseItem(arr);
        if !ok {
          return;
        }
      }
      ok := Eat(RBRACKET, true);
    }

    /** What the rest of an array is read to, or the end of it if there are no more elements. */
    ghost function Elements(more: bool, a: nat): R.Read
      requires Ready() && a < |doc.Val().arrays|
      reads `tok, doc, doc.tables, doc.arrays
    {
      if more then R.ReadElements(Reader(), tok, doc.Val(), a) else R.EndArray(Reader(), tok, doc.Val())
    }

    /** One turn of the loop over the elements. */
    method ParseItem(arr: Arr) returns (ok: bool, more: bool)
      requires Ready() && doc.HasArray(arr)
      modifies `tok, doc, doc.tables, doc.arrays
      ensures Ready() && doc.Grown() && tok.ptr >= old(tok.ptr) && (ok && more ==> tok.ptr > old(tok.ptr))
      ensures R.At(Reader(), old(tok)) && D.Closed(old(doc.Val())) && arr.id < |old(doc.Val()).arrays|
      ensures (if ok then Elements(more, arr.id) else R.Read(false, tok, doc.Val()))
              == R.ReadElements(Reader(), old(tok), old(doc.Val()), arr.id)
      decreases Left(), 3
    {
      hide Document.Linked, TableVals, ArrVals, D.Closed, NoNul, R.ReadElement, R.Onward, R.EndArray;
      hide R.SkipNewlines;
      more := false;
      ok := SkipNewlines();
      if !ok || tok.kind == RBRACKET {
        return;
      }
      ok := ParseElement(arr);
      if !ok {
        return;
      }
      ok := SkipNewlines();
      if !ok {
        return;
      }
      more := tok.kind == COMMA;
      if more {
        ok := Eat(COMMA, false);
      }
    }

    /** One element of an array. */
    method ParseElement(arr: Arr) returns (ok: bool)
      requires Ready() && doc.HasArray(arr)
      modifies `tok, doc, doc.tables, doc.arrays
      ensures Ready() && doc.Grown() && tok.ptr >= old(tok.ptr)
      ensures R.At(Reader(), old(tok)) && D.Closed(old(doc.Val())) && arr.id < |old(doc.Val()).arrays|
      ensures R.Read(ok, tok, doc.Val()) == R.ReadElement(Reader(), old(tok), old(doc.Val()), arr.id)
      decreases Left(), 2
    {
      hide Document.Linked, TableVals, ArrVals, D.Closed, NoNul, D.Push, D.PushArray, D.PushTable, R.ReadArray;
      hide R.ReadInline, R.Onward, R.Eat;
      match tok.kind
      case STRING =>
        var val := TokenText(tok);
        doc.Push(arr, Raw(typeOf(val), val));
        ok := Eat(STRING, false);
      case LBRACKET =>
        var subarr := doc.PushArray(arr);
        ok := ParseArray(subarr);
      case LBRACE =>
        var subtab := doc.PushTable(arr, "");
        ok := ParseInlineTable(subtab);
      case _ => ok := false;
    }

    /** `parse_inline_table`, at the opening brace. */
    method ParseInlineTable(tab: Table) returns (ok: bool)
      requires Ready() && doc.HasTable(tab) && tok.kind == LBRACE
      modifies `tok, doc, doc.tables, doc.arrays
      ensures Ready() && doc.Grown() && tok.ptr >= old(tok.ptr)
      ensures R.At(Reader(), old(tok)) && D.Closed(old(doc.Val())) && tab.id < |old(doc.Val()).tables|
      ensures R.Read(ok, tok, doc.Val()) == R.ReadInline(Reader(), old(tok), old(doc.Val()), tab.id)
      decreases Left(), 1
    {
      hide Document.Linked, TableVals, ArrVals, D.Closed, NoNul, D.Close, R.ReadKeyVal, R.Onward;
      hide R.ReadEntries, R.Eat;
      ok := Eat(LBRACE, true);
      if !ok {
        return;
      }
      ghost var start, d := tok, doc.Val();
      var more := true;
      while more
        invariant ok && Ready() && doc.Grown() && tok.ptr >= start.ptr
        invariant Entries(more, tab.id) == R.ReadEntries(Reader(), start, d, tab.id)
        decreases more, Left()
      {
        ok, more := ParseEntry(tab);
        if !ok {
          return;
        }
      }
      ok := Eat(RBRACE, true);
      if ok {
        doc.Close(tab);
      }
    }

    /** What the rest of an inline table is read to, or the state if there are no more entries. */
    ghost function Entries(more: bool, t: nat): R.Read
      requires Ready() && t < |doc.Val().tables|
      reads `tok, doc, doc.tables, doc.arrays
    {
      if more then R.ReadEntries(Reader(), tok, doc.Val(), t) else R.Read(true, tok, doc.Val())
    }

    /** One turn of the loop over the entries. */
    method ParseEntry(tab: Table) returns (ok: bool, more: bool)
      requires Ready() && doc.HasTable(tab)
      modifies `tok, doc, doc.tables, doc.arrays
      ensures Ready() && doc.Grown() && tok.ptr >= old(tok.ptr) && (ok && more ==> tok.ptr > old(tok.ptr))
      ensures R.At(Reader(), old(tok)) && D.Closed(old(doc.Val())) && tab.id < |old(doc.Val()).tables|
      ensures (if ok then Entries(more, tab.id) else R.Read(false, tok, doc.Val()))
              == R.ReadEntries(Reader(), old(tok), old(doc.Val()), tab.id)
      decreases Left(), 2
    {
      hide Document.Linked, TableVals, ArrVals, D.Closed, NoNul, R.ReadKeyVal, R.Onward;
      more := false;
      if tok.kind == NEWLINE {
        return false, more;
      }
      if tok.kind == RBRACE {
        return true, more;
      }
      if tok.kind != STRING {
        return false, more;
      }
      ok := ParseKeyVal(tab);
      if !ok {
        return;
      }
      if tok.kind == NEWLINE {
        return false, more;
      }
      more := tok.kind == COMMA;
      if more {
        ok := Eat(COMMA, true);
      }
    }

    // Headers

    /** `fill_tabpath`: the keys up to the closing bracket, and the text of the last one. */
    method FillTabPath() returns (ok: bool, z: string)
      requires NoNul(text) && R.At(Reader(), tok)
      modifies `tok, `path
      ensures R.Path(ok, tok, path, z) == R.ReadPath(Reader(), old(tok), [], "")
    {
      path, z, ok := [], "", true;
      while true
        invariant ok && R.At(Reader(), tok)
        invariant R.ReadPath(Reader(), tok, path, z) == R.ReadPath(Reader(), old(tok), [], "")
        decreases Left()
      {
        if |path| >= 10 || tok.kind != STRING {
          return false, z;
        }
        z := TokenText(tok);
        var key := normalize(z);
        if key.None? {
          return false, z;
        }
        path := path + [key.value];
        ok := Next(true);
        if !ok || tok.kind == RBRACKET {
          return;
        }
        if tok.kind != DOT {
          return false, z;
        }
        ok := Next(true);
        if !ok {
          return;
        }
      }
    }

    /** `walk_tabpath`: from the root along the path, through last elements and through new implicit tables. */
    method WalkTabPath() returns (ok: bool)
      requires DocReady() && D.Sound(doc.Val())
      modifies `curtab, doc, doc.tables
      ensures DocReady() && doc.Grown() && doc.arrays == old(doc.arrays)
      ensures D.Closed(old(doc.Val()))
      ensures var c := R.Walk(old(doc.Val()), 0, path);
              doc.Val() == c.doc && if ok then IsTable(curtab, c.id) else c.id == None
    {
      hide Document.Linked, TableVals, ArrVals, D.Closed, D.TableOk, D.ArrOk, D.Lookup;
      var t := doc.root;
      var i := 0;
      ghost var d := doc.Val();
      RootIsFirst();
      assert path[0..] == path;
      while i < |path|
        invariant 0 <= i <= |path| && path == old(path)
        invariant DocReady() && D.Sound(doc.Val()) && doc.Grown() && doc.arrays == old(doc.arrays) && doc.HasTable(t)
        invariant R.Walk(doc.Val(), t.id, path[i..]) == R.Walk(d, 0, path)
      {
        var next;
        assert path[i..][0] == path[i] && path[i..][1..] == path[i + 1..];
        ok, next := WalkOne(t, path[i], path[i..]);
        if !ok {
          return;
        }
        t := next;
        i := i + 1;
      }
      curtab := t;
      ok := true;
    }

    lemma RootIsFirst()
      requires doc.Linked()
      ensures doc.HasTable(doc.root) && doc.root.id == 0
    {
    }

    /**
     One step of the path: to the table under the key, to the last table of the array under it, or to a new implicit
     table; refused for a value and for an array that is not one of tables.
     */
    method WalkOne(tab: Table, key: string, ghost keys: seq<string>) returns (ok: bool, next: Table)
      requires DocReady() && D.Sound(doc.Val()) && doc.HasTable(tab) && keys != [] && keys[0] == key
      modifies doc, tab
      ensures DocReady() && D.Sound(doc.Val()) && doc.Grown() && doc.arrays == old(doc.arrays)
      ensures D.Closed(old(doc.Val())) && tab.id < |old(doc.Val()).tables| && doc.HasTable(next)
      ensures match D.Lookup(old(doc.Val()), old(doc.Val()).tables[tab.id], key)
              case FoundTab(n) => ok && next.id == n && doc.Val() == old(doc.Val())
              case FoundArr(a) =>
                doc.Val() == old(doc.Val()) && a < |doc.arrays|
                && ok == (doc.arrays[a].kind == 't') && (ok ==> R.LastTable(doc.Val(), a) == Some(next.id))
              case FoundVal => !ok && doc.Val() == old(doc.Val())
              case Nothing => ok && next.id == |old(doc.tables)|
                              && doc.Val() == D.AddTable(old(doc.Val()), tab.id, key, true)
      ensures R.Walk(old(doc.Val()), tab.id, keys)
              == if ok then R.Walk(doc.Val(), next.id, keys[1..]) else R.Created(doc.Val(), None)
    {
      next := tab;
      var found := doc.CheckKey(tab, key);
      match found
      case FoundTab(t) =>
        return true, t;
      case FoundArr(a) =>
        HasLastTable(doc.Val(), a.id);
        if a.kind != 't' {
          return false, next;
        }
        LastItem(a);
        next := a.items[|a.items| - 1].tab;
        ok := true;
      case FoundVal => ok := false;
      case Nothing =>
        TomlSteps.AddTableKeeps(doc.Val(), tab.id, key, true);
        next := doc.AddTable(tab, key, true);
        ok := true;
    }

    /** An array of tables has a last element, and it is a table. */
    lemma LastItem(a: Arr)
      requires DocReady() && D.Sound(doc.Val()) && doc.HasArray(a) && a.kind == 't'
      ensures a.items != [] && a.items[|a.items| - 1].SubTable? && doc.HasTable(a.items[|a.items| - 1].tab)
      ensures R.LastTable(doc.Val(), a.id) == Some(a.items[|a.items| - 1].tab.id)
    {
      HasLastTable(doc.Val(), a.id);
      assert doc.ArrayLinked(a) && doc.HasItem(a.items[|a.items| - 1]);
    }

    /** `toml_array_in` */
    method FindArray(tab: Table, key: string) returns (arr: Arr?)
      requires DocReady() && doc.HasTable(tab)
      ensures tab.id < |doc.Val().tables| && IsArray(arr, R.ArrayIn(doc.Val(), tab.id, key))
      ensures arr != null ==> arr.id < |doc.Val().arrays| && doc.Val().arrays[arr.id].kind == arr.kind
    {
      arr := doc.ArrayIn(tab, key);
    }

    /** `[[x.y.z]]` adds a table to the array `z`, which is created if there is none. */
    method AppendTable(tab: Table, key: string) returns (dest: Table?)
      requires DocReady() && doc.HasTable(tab)
      modifies doc, tab, doc.arrays
      ensures DocReady() && doc.Grown()
      ensures D.Closed(old(doc.Val())) && tab.id < |old(doc.Val()).tables|
      ensures var c := R.AppendTable(Reader(), old(doc.Val()), tab.id, key); doc.Val() == c.doc && IsTable(dest, c.id)
    {
      hide Document.Linked, TableVals, ArrVals, D.PushTable, R.CreateArray, R.ArrayIn, D.Closed;
      var name := normalize(key);
      if name.None? {
        return null;
      }
      var arr := FindArray(tab, name.value);
      if arr == null {
        arr := CreateKeyArray(tab, key);
        if arr == null {
          return null;
        }
      } else if arr.kind != 't' {
        return null;
      }
      dest := doc.PushTable(arr, "__anon__");
    }

    /** Makes the table that a header names the current one. */
    method Select(z: string, llb: bool) returns (ok: bool)
      requires DocReady() && D.Sound(doc.Val())
      modifies `curtab, doc, doc.tables, doc.arrays
      ensures DocReady() && doc.Grown() && D.Closed(old(doc.Val()))
      ensures var c := R.SelectTable(Reader(), old(doc.Val()), path, z, llb);
              doc.Val() == c.doc && if ok then IsTable(curtab, c.id) else c.id == None
    {
      hide Document.Linked, TableVals, ArrVals, D.Closed, D.TableOk, D.ArrOk, R.Walk, R.AppendTable, R.CreateTable;
      ok := WalkTabPath();
      if !ok {
        return;
      }
      var t;
      if !llb {
        t := CreateKeyTable(curtab, z);
      } else {
        t := AppendTable(curtab, z);
      }
      if t == null {
        return false;
      }
      curtab := t;
    }

    /** `[` or `[[`; the two brackets must not be apart. */
    method EatOpening() returns (ok: bool, llb: bool)
      requires NoNul(text) && R.At(Reader(), tok)
      modifies `tok
      ensures R.Eaten(ok, tok) == R.Opening(Reader(), old(tok)) && llb == R.IsDouble(Reader(), old(tok), '[')
    {
      llb := At(text, tok.ptr + 1) == '[';
      ok := Eat(LBRACKET, true);
      if ok && llb {
        ok := Eat(LBRACKET, true);
      }
    }

    /** `]` or `]]`, and the end of the line. */
    method EatClosing(llb: bool) returns (ok: bool)
      requires NoNul(text) && R.At(Reader(), tok)
      modifies `tok
      ensures R.Eaten(ok, tok) == R.Closing(Reader(), old(tok), llb)
    {
      if llb {
        if At(text, tok.ptr + 1) != ']' {
          return false;
        }
        ok := Eat(RBRACKET, true);
        if !ok {
          return;
        }
      }
      ok := Eat(RBRACKET, true);
      if ok && tok.kind != NEWLINE {
        ok := false;
      }
    }

    /** The state after a line. */
    ghost predicate IsLine(ok: bool, line: R.Line)
      reads `tok, `curtab, doc, doc.tables, doc.arrays
    {
      ok == line.ok && tok == line.tok && doc.Val() == line.doc
      && (ok ==> doc.HasTable(curtab) && curtab.id == line.cur)
    }

    /** `parse_select`, at the opening bracket of `[x.y.z]` or `[[x.y.z]]`. */
    method ParseSelect() returns (ok: bool)
      requires Ready() && D.Sound(doc.Val()) && tok.kind == LBRACKET
      modifies this, doc, doc.tables, doc.arrays
      ensures Ready() && doc.Grown() && R.At(Reader(), old(tok)) && D.Closed(old(doc.Val()))
      ensures IsLine(ok, R.ReadHeader(Reader(), old(tok), old(doc.Val())))
    {
      hide Document.Linked, TableVals, ArrVals, D.Closed, D.Sound, R.Opening, R.ReadNames;
      var llb;
      ok, llb := EatOpening();
      if ok {
        ok := ParseNames(llb);
      }
    }

    /** What is behind the opening brackets. */
    method ParseNames(llb: bool) returns (ok: bool)
      requires Ready() && D.Sound(doc.Val())
      modifies this, doc, doc.tables, doc.arrays
      ensures Ready() && doc.Grown() && R.At(Reader(), old(tok)) && D.Closed(old(doc.Val()))
      ensures IsLine(ok, R.ReadNames(Reader(), old(tok), old(doc.Val()), llb))
    {
      hide Document.Linked, TableVals, ArrVals, D.Closed, D.Sound, R.SelectTable, R.Closing, R.ReadPath;
      var z;
      ok, z := FillTabPath();
      if !ok {
        return;
      }
      path := path[..|path| - 1];
      ok := Select(z, llb);
      if !ok {
        return;
      }
      ok := EatClosing(llb);
    }

    /** One turn of the main loop: the end of a line, an entry, or a header. */
    method ParseLine() returns (ok: bool)
      requires Ready() && D.Sound(doc.Val()) && doc.HasTable(curtab) && !tok.eof
      modifies this, doc, doc.tables, doc.arrays
      ensures Ready() && doc.Grown() && D.Sound(doc.Val())
      ensures R.At(Reader(), old(tok)) && D.Closed(old(doc.Val())) && old(curtab.id) < |old(doc.Val()).tables|
      ensures IsLine(ok, R.ReadLine(Reader(), old(tok), old(doc.Val()), old(curtab.id)))
    {
      hide Document.Linked, ArrVals, D.Closed, D.Sound, R.ReadHeader, R.ReadKeyVal, TomlSteps.Extends;
      ReadLineKeeps(Reader(), tok, doc.Val(), curtab.id);
      match tok.kind
      case NEWLINE => ok := Next(true);
      case STRING =>
        ok := ParseKeyVal(curtab);
        if ok {
          ok := Eat(NEWLINE, true);
        }
      case LBRACKET => ok := ParseSelect();
      case _ => ok := false;
    }

    /** `toml_parse` of a document, from the artificial newline on. */
    method Parse() returns (ok: bool)
      requires DocReady() && tok == R.START && doc.Val() == R.EMPTY && curtab == doc.root
      modifies this, doc, doc.tables, doc.arrays
      ensures DocReady() && doc.Grown() && D.Sound(doc.Val())
      ensures R.Read(ok, tok, doc.Val()) == R.ReadDocument(Reader())
    {
      hide Document.Linked, TableVals, ArrVals, D.Closed, D.Sound, R.ReadLine;
      DocumentSound(Reader());
      EmptySound();
      RootIsFirst();
      ok := Next(true);
      if !ok {
        return;
      }
      ghost var start := tok;
      while !tok.eof
        invariant ok && Ready() && doc.Grown() && D.Sound(doc.Val()) && doc.HasTable(curtab)
        invariant R.ReadLines(Reader(), tok, doc.Val(), curtab.id) == R.ReadLines(Reader(), start, R.EMPTY, 0)
        decreases |text| - tok.ptr
      {
        ok := ParseLine();
        if !ok {
          return;
        }
      }
    }
  }
}

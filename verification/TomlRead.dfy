/** What the TOML reader makes of a text: the document, and whether the text is accepted. */
module TomlRead {
  import opened CStrings
  import opened Options
  import opened TomlDoc
  import opened TomlTokens

  /** The text, how a key token is normalised, and the type of a raw value. */
  datatype Reader = Reader(text: string, normalize: string -> Option<string>, typeOf: string -> char)

  /** The token at which reading stopped, and the document then. */
  datatype Read = Read(ok: bool, tok: Token, doc: Doc)

  datatype Eaten = Eaten(ok: bool, tok: Token)

  predicate At(r: Reader, tok: Token) {
    InText(tok, r.text) && Regular(tok)
  }

  function Left(r: Reader, tok: Token): nat
    requires At(r, tok)
  {
    |r.text| - tok.ptr
  }

  function Text(r: Reader, tok: Token): string
    requires At(r, tok)
  {
    r.text[tok.ptr..tok.ptr + tok.len]
  }

  // Tokens

  function Next(r: Reader, tok: Token, dotIsSpecial: bool): (e: Eaten)
    requires InText(tok, r.text)
    ensures InText(e.tok, r.text) && (e.ok || Regular(tok) ==> Regular(e.tok))
    ensures if e.ok then e.tok.ptr >= tok.ptr + tok.len else e.tok == tok
  {
    match NextOf(r.text, tok, dotIsSpecial)
    case None => Eaten(false, tok)
    case Some(next) => Eaten(true, next)
  }

  function Eat(r: Reader, tok: Token, kind: Kind, dotIsSpecial: bool): (e: Eaten)
    requires At(r, tok)
    ensures At(r, e.tok) && (e.ok ==> tok.kind == kind)
    ensures if e.ok then e.tok.ptr >= tok.ptr + tok.len else e.tok == tok
  {
    if tok.kind != kind then Eaten(false, tok) else Next(r, tok, dotIsSpecial)
  }

  function SkipNewlines(r: Reader, tok: Token): (e: Eaten)
    requires At(r, tok)
    ensures At(r, e.tok) && e.tok.ptr >= tok.ptr
    decreases Left(r, tok)
  {
    if tok.kind != NEWLINE then Eaten(true, tok)
    else
      var e := Next(r, tok, false);
      if !e.ok || e.tok.eof then e else SkipNewlines(r, e.tok)
  }

  // Entries

  datatype Created = Created(doc: Doc, id: Option<nat>)

  /** `create_keyval_in_table`: the number of the table, if the value was added. */
  function CreateVal(r: Reader, d: Doc, t: nat, key: string, val: string): (c: Created)
    requires Closed(d) && t < |d.tables|
    ensures Closed(c.doc) && NotSmaller(d, c.doc)
  {
    match r.normalize(key)
    case None => Created(d, None)
    case Some(name) =>
      if Lookup(d, d.tables[t], name) != Nothing then Created(d, None)
      else Created(AddVal(d, t, KeyVal(name, val)), Some(t))
  }

  /** `create_keytable_in_table`: a new table, or one that was implicit so far and no longer is. */
  function CreateTable(r: Reader, d: Doc, t: nat, key: string): (c: Created)
    requires Closed(d) && t < |d.tables|
    ensures Closed(c.doc) && NotSmaller(d, c.doc) && (c.id.Some? ==> c.id.value < |c.doc.tables|)
  {
    match r.normalize(key)
    case None => Created(d, None)
    case Some(name) =>
      match Lookup(d, d.tables[t], name)
      case Nothing => Created(AddTable(d, t, name, false), Some(|d.tables|))
      case FoundTab(n) => if d.tables[n].isImplicit then Created(MakeExplicit(d, n), Some(n)) else Created(d, None)
      case _ => Created(d, None)
  }

  /** `create_keyarray_in_table` */
  function CreateArray(r: Reader, d: Doc, t: nat, key: string): (c: Created)
    requires Closed(d) && t < |d.tables|
    ensures Closed(c.doc) && NotSmaller(d, c.doc) && (c.id.Some? ==> c.id.value < |c.doc.arrays|)
  {
    match r.normalize(key)
    case None => Created(d, None)
    case Some(name) =>
      if Lookup(d, d.tables[t], name) != Nothing then Created(d, None)
      else Created(AddArray(d, t, name), Some(|d.arrays|))
  }

  /** `toml_table_in` */
  function TableIn(d: Doc, t: nat, name: string): (n: Option<nat>)
    requires Closed(d) && t < |d.tables|
    ensures n.Some? ==> n.value < |d.tables|
  {
    match IndexOf(TabKeys(d, d.tables[t]), name)
    case None => None
    case Some(i) => Some(d.tables[t].tabs[i])
  }

  /** `toml_array_in` */
  function ArrayIn(d: Doc, t: nat, name: string): (n: Option<nat>)
    requires Closed(d) && t < |d.tables|
    ensures n.Some? ==> n.value < |d.arrays|
  {
    match IndexOf(ArrKeys(d, d.tables[t]), name)
    case None => None
    case Some(i) => Some(d.tables[t].arrs[i])
  }

  /** The table to which the rest of a dotted key belongs. */
  function SubTable(r: Reader, d: Doc, t: nat, key: string): (c: Created)
    requires Closed(d) && t < |d.tables|
    ensures Closed(c.doc) && NotSmaller(d, c.doc) && (c.id.Some? ==> c.id.value < |c.doc.tables|)
  {
    match r.normalize(key)
    case None => Created(d, None)
    case Some(name) =>
      match TableIn(d, t, name)
      case Some(n) => Created(d, Some(n))
      case None => CreateTable(r, d, t, key)
  }

  // Values

  /** Reading went on, or stopped, and nothing was taken out of the document. */
  predicate Onward(r: Reader, tok: Token, d: Doc, res: Read) {
    At(r, res.tok) && res.tok.ptr >= tok.ptr && Closed(res.doc) && NotSmaller(d, res.doc)
  }

  /** `parse_keyval`: a value, an array or a table under a key, which may be dotted. */
  function ReadKeyVal(r: Reader, tok: Token, d: Doc, t: nat): (res: Read)
    requires At(r, tok) && Closed(d) && t < |d.tables|
    ensures Onward(r, tok, d, res) && (res.ok ==> res.tok.ptr > tok.ptr)
    decreases Left(r, tok), 1
  {
    if d.tables[t].isReadonly then Read(false, tok, d)
    else
      var e := Eat(r, tok, STRING, true);
      if !e.ok then Read(false, e.tok, d)
      else if e.tok.kind == DOT then ReadDotted(r, e.tok, d, t, Text(r, tok))
      else if e.tok.kind != EQUAL then Read(false, e.tok, d)
      else
        var v := Next(r, e.tok, false);
        if !v.ok then Read(false, v.tok, d) else ReadValue(r, v.tok, d, t, Text(r, tok))
  }

  /** The rest of a dotted key, from a dot on. */
  function ReadDotted(r: Reader, tok: Token, d: Doc, t: nat, key: string): (res: Read)
    requires At(r, tok) && tok.kind == DOT && Closed(d) && t < |d.tables|
    ensures Onward(r, tok, d, res) && (res.ok ==> res.tok.ptr > tok.ptr)
    decreases Left(r, tok), 0
  {
    var c := SubTable(r, d, t, key);
    match c.id
    case None => Read(false, tok, c.doc)
    case Some(n) =>
      var e := Next(r, tok, true);
      if !e.ok then Read(false, e.tok, c.doc) else ReadKeyVal(r, e.tok, c.doc, n)
  }

  /** What stands behind the equals sign. */
  function ReadValue(r: Reader, tok: Token, d: Doc, t: nat, key: string): (res: Read)
    requires At(r, tok) && Closed(d) && t < |d.tables|
    ensures Onward(r, tok, d, res)
    decreases Left(r, tok), 2
  {
    match tok.kind
    case STRING =>
      var c := CreateVal(r, d, t, key, Text(r, tok));
      if c.id.None? then Read(false, tok, c.doc)
      else
        var e := Next(r, tok, true);
        Read(e.ok, e.tok, c.doc)
    case LBRACKET =>
      var c := CreateArray(r, d, t, key);
      if c.id.None? then Read(false, tok, c.doc) else ReadArray(r, tok, c.doc, c.id.value)
    case LBRACE =>
      var c := CreateTable(r, d, t, key);
      if c.id.None? then Read(false, tok, c.doc) else ReadInline(r, tok, c.doc, c.id.value)
    case _ => Read(false, tok, d)
  }

  /** `parse_array`, from the opening bracket on. */
  function ReadArray(r: Reader, tok: Token, d: Doc, a: nat): (res: Read)
    requires At(r, tok) && tok.kind == LBRACKET && Closed(d) && a < |d.arrays|
    ensures Onward(r, tok, d, res) && (res.ok ==> res.tok.ptr > tok.ptr)
    decreases Left(r, tok), 1
  {
    var e := Eat(r, tok, LBRACKET, false);
    if !e.ok then Read(false, e.tok, d) else ReadElements(r, e.tok, d, a)
  }

  /** The elements that are left, and the closing bracket. */
  function ReadElements(r: Reader, tok: Token, d: Doc, a: nat): (res: Read)
    requires At(r, tok) && Closed(d) && a < |d.arrays|
    ensures Onward(r, tok, d, res)
    decreases Left(r, tok), 4
  {
    var e := SkipNewlines(r, tok);
    if !e.ok then Read(false, e.tok, d)
    else if e.tok.kind == RBRACKET then EndArray(r, e.tok, d)
    else
      var item := ReadElement(r, e.tok, d, a);
      if !item.ok then item
      else
        var s := SkipNewlines(r, item.tok);
        if !s.ok then Read(false, s.tok, item.doc)
        else if s.tok.kind != COMMA then EndArray(r, s.tok, item.doc)
        else
          var c := Eat(r, s.tok, COMMA, false);
          if !c.ok then Read(false, c.tok, item.doc) else ReadElements(r, c.tok, item.doc, a)
  }

  function EndArray(r: Reader, tok: Token, d: Doc): (res: Read)
    requires At(r, tok) && Closed(d)
    ensures Onward(r, tok, d, res) && res.doc == d
  {
    var e := Eat(r, tok, RBRACKET, true);
    Read(e.ok, e.tok, d)
  }

  /** One element of an array. */
  function ReadElement(r: Reader, tok: Token, d: Doc, a: nat): (res: Read)
    requires At(r, tok) && Closed(d) && a < |d.arrays|
    ensures Onward(r, tok, d, res)
    decreases Left(r, tok), 3
  {
    match tok.kind
    case STRING =>
      var val := Text(r, tok);
      var e := Eat(r, tok, STRING, false);
      Read(e.ok, e.tok, Push(d, a, Value(r.typeOf(val), val)))
    case LBRACKET => ReadArray(r, tok, PushArray(d, a), |d.arrays|)
    case LBRACE => ReadInline(r, tok, PushTable(d, a, ""), |d.tables|)
    case _ => Read(false, tok, d)
  }

  /** `parse_inline_table`, from the opening brace on. */
  function ReadInline(r: Reader, tok: Token, d: Doc, t: nat): (res: Read)
    requires At(r, tok) && tok.kind == LBRACE && Closed(d) && t < |d.tables|
    ensures Onward(r, tok, d, res) && (res.ok ==> res.tok.ptr > tok.ptr)
    decreases Left(r, tok), 1
  {
    var e := Eat(r, tok, LBRACE, true);
    if !e.ok then Read(false, e.tok, d)
    else
      var b := ReadEntries(r, e.tok, d, t);
      if !b.ok then b
      else
        var c := Eat(r, b.tok, RBRACE, true);
        Read(c.ok, c.tok, if c.ok then Close(b.doc, t) else b.doc)
  }

  /** The entries that are left in an inline table, up to the closing brace. */
  function ReadEntries(r: Reader, tok: Token, d: Doc, t: nat): (res: Read)
    requires At(r, tok) && Closed(d) && t < |d.tables|
    ensures Onward(r, tok, d, res)
    decreases Left(r, tok), 2
  {
    if tok.kind == RBRACE then Read(true, tok, d)
    else if tok.kind != STRING then Read(false, tok, d)
    else
      var k := ReadKeyVal(r, tok, d, t);
      if !k.ok then k
      else if k.tok.kind == NEWLINE then Read(false, k.tok, k.doc)
      else if k.tok.kind != COMMA then k
      else
        var e := Eat(r, k.tok, COMMA, true);
        if !e.ok then Read(false, e.tok, k.doc) else ReadEntries(r, e.tok, k.doc, t)
  }

  // Headers

  datatype Path = Path(ok: bool, tok: Token, keys: seq<string>, last: string)

  /** `fill_tabpath`: the keys up to the closing bracket, and the text of the last one. */
  function ReadPath(r: Reader, tok: Token, keys: seq<string>, last: string): (p: Path)
    requires At(r, tok)
    ensures At(r, p.tok) && p.tok.ptr >= tok.ptr
    ensures p.ok ==> p.tok.kind == RBRACKET && p.keys != [] && r.normalize(p.last) == Some(p.keys[|p.keys| - 1])
    decreases Left(r, tok)
  {
    if |keys| >= 10 || tok.kind != STRING then Path(false, tok, keys, last)
    else
      var z := Text(r, tok);
      match r.normalize(z)
      case None => Path(false, tok, keys, z)
      case Some(key) =>
        var e := Next(r, tok, true);
        if !e.ok || e.tok.kind == RBRACKET then Path(e.ok, e.tok, keys + [key], z)
        else if e.tok.kind != DOT then Path(false, e.tok, keys + [key], z)
        else
          var n := Next(r, e.tok, true);
          if !n.ok then Path(false, n.tok, keys + [key], z) else ReadPath(r, n.tok, keys + [key], z)
  }

  /** The last table of an array of tables. */
  function LastTable(d: Doc, a: nat): (t: Option<nat>)
    requires Closed(d) && a < |d.arrays|
    ensures t.Some? ==> t.value < |d.tables|
  {
    var items := d.arrays[a].items;
    if d.arrays[a].kind != 't' || items == [] then None
    else match items[|items| - 1]
      case Inline(t) =>
        assert ItemInDoc(d, items[|items| - 1]);
        Some(t)
      case _ => None
  }

  /** `walk_tabpath`: along the path, through last tables of arrays and through new implicit tables. */
  function Walk(d: Doc, t: nat, keys: seq<string>): (c: Created)
    requires Closed(d) && t < |d.tables|
    ensures Closed(c.doc) && NotSmaller(d, c.doc) && (c.id.Some? ==> c.id.value < |c.doc.tables|)
    decreases |keys|
  {
    if keys == [] then Created(d, Some(t))
    else
      match Lookup(d, d.tables[t], keys[0])
      case FoundTab(n) => Walk(d, n, keys[1..])
      case FoundArr(a) =>
        var last := LastTable(d, a);
        if last.None? then Created(d, None) else Walk(d, last.value, keys[1..])
      case FoundVal => Created(d, None)
      case Nothing => Walk(AddTable(d, t, keys[0], true), |d.tables|, keys[1..])
  }

  /** `[[x.y.z]]` adds a table to the array `z`, which is created if there is none. */
  function AppendTable(r: Reader, d: Doc, t: nat, key: string): (c: Created)
    requires Closed(d) && t < |d.tables|
    ensures Closed(c.doc) && NotSmaller(d, c.doc) && (c.id.Some? ==> c.id.value < |c.doc.tables|)
  {
    match r.normalize(key)
    case None => Created(d, None)
    case Some(name) =>
      match ArrayIn(d, t, name)
      case Some(a) =>
        if d.arrays[a].kind != 't' then Created(d, None)
        else Created(PushTable(d, a, "__anon__"), Some(|d.tables|))
      case None =>
        var c := CreateArray(r, d, t, key);
        if c.id.None? then c else Created(PushTable(c.doc, c.id.value, "__anon__"), Some(|c.doc.tables|))
  }

  /** The table that a header makes the current one. */
  function SelectTable(r: Reader, d: Doc, keys: seq<string>, last: string, llb: bool): (c: Created)
    requires Closed(d)
    ensures Closed(c.doc) && NotSmaller(d, c.doc) && (c.id.Some? ==> c.id.value < |c.doc.tables|)
  {
    var w := Walk(d, 0, keys);
    match w.id
    case None => w
    case Some(t) => if llb then AppendTable(r, w.doc, t, last) else CreateTable(r, w.doc, t, last)
  }

  datatype Line = Line(ok: bool, tok: Token, doc: Doc, cur: nat)

  /** `[` or `[[`; the two brackets must not be apart. */
  function Opening(r: Reader, tok: Token): (e: Eaten)
    requires At(r, tok)
    ensures At(r, e.tok) && e.tok.ptr >= tok.ptr && (e.ok && tok.len > 0 ==> e.tok.ptr > tok.ptr)
  {
    var e := Eat(r, tok, LBRACKET, true);
    if e.ok && IsDouble(r, tok, '[') then Eat(r, e.tok, LBRACKET, true) else e
  }

  predicate IsDouble(r: Reader, tok: Token, bracket: char) {
    CStrings.At(r.text, tok.ptr + 1) == bracket
  }

  /** `]` or `]]`, and the end of the line. */
  function Closing(r: Reader, tok: Token, llb: bool): (e: Eaten)
    requires At(r, tok)
    ensures At(r, e.tok) && e.tok.ptr >= tok.ptr && (e.ok ==> e.tok.kind == NEWLINE)
  {
    if llb && !IsDouble(r, tok, ']') then Eaten(false, tok)
    else
      var first := if llb then Eat(r, tok, RBRACKET, true) else Eaten(true, tok);
      if !first.ok then first
      else
        var e := Eat(r, first.tok, RBRACKET, true);
        Eaten(e.ok && e.tok.kind == NEWLINE, e.tok)
  }

  /** `parse_select`: `[x.y.z]` or `[[x.y.z]]`. */
  function ReadHeader(r: Reader, tok: Token, d: Doc): (res: Line)
    requires At(r, tok) && Closed(d)
    ensures At(r, res.tok) && res.tok.ptr >= tok.ptr && (res.ok && tok.len > 0 ==> res.tok.ptr > tok.ptr)
    ensures Closed(res.doc) && NotSmaller(d, res.doc) && res.cur < |res.doc.tables|
  {
    var e := Opening(r, tok);
    if !e.ok then Line(false, e.tok, d, 0) else ReadNames(r, e.tok, d, IsDouble(r, tok, '['))
  }

  /** What is behind the opening brackets. */
  function ReadNames(r: Reader, tok: Token, d: Doc, llb: bool): (res: Line)
    requires At(r, tok) && Closed(d)
    ensures At(r, res.tok) && res.tok.ptr >= tok.ptr
    ensures Closed(res.doc) && NotSmaller(d, res.doc) && res.cur < |res.doc.tables|
  {
    var p := ReadPath(r, tok, [], "");
    if !p.ok then Line(false, p.tok, d, 0)
    else
      var c := SelectTable(r, d, p.keys[..|p.keys| - 1], p.last, llb);
      if c.id.None? then Line(false, p.tok, c.doc, 0)
      else
        var end := Closing(r, p.tok, llb);
        Line(end.ok, end.tok, c.doc, c.id.value)
  }

  /** One turn of the main loop: the end of a line, an entry of the current table, or a header. */
  function ReadLine(r: Reader, tok: Token, d: Doc, cur: nat): (res: Line)
    requires At(r, tok) && !tok.eof && Closed(d) && cur < |d.tables|
    ensures At(r, res.tok) && res.tok.ptr >= tok.ptr && (res.ok ==> res.tok.ptr > tok.ptr)
    ensures Closed(res.doc) && NotSmaller(d, res.doc) && res.cur < |res.doc.tables|
  {
    match tok.kind
    case NEWLINE =>
      var e := Next(r, tok, true);
      Line(e.ok, e.tok, d, cur)
    case STRING =>
      var k := ReadKeyVal(r, tok, d, cur);
      if !k.ok then Line(false, k.tok, k.doc, cur)
      else
        var e := Eat(r, k.tok, NEWLINE, true);
        Line(e.ok, e.tok, k.doc, cur)
    case LBRACKET => ReadHeader(r, tok, d)
    case _ => Line(false, tok, d, cur)
  }

  function ReadLines(r: Reader, tok: Token, d: Doc, cur: nat): (res: Read)
    requires At(r, tok) && Closed(d) && cur < |d.tables|
    ensures Onward(r, tok, d, res) && (res.ok ==> res.tok.eof)
    decreases Left(r, tok)
  {
    if tok.eof then Read(true, tok, d)
    else
      var line := ReadLine(r, tok, d, cur);
      if !line.ok then Read(false, line.tok, line.doc) else ReadLines(r, line.tok, line.doc, line.cur)
  }

  /** The artificial newline of length zero in front of a text. */
  const START: Token := Token(NEWLINE, 0, 0, false)

  const EMPTY: Doc := Doc([ROOT], [])

  /** `toml_parse` */
  function ReadDocument(r: Reader): (res: Read)
    ensures InText(res.tok, r.text) && Closed(res.doc) && (res.ok ==> res.tok.eof)
  {
    var e := Next(r, START, true);
    if !e.ok then Read(false, START, EMPTY) else ReadLines(r, e.tok, EMPTY, 0)
  }
}

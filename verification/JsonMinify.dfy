/** `cJSON_Minify`, and that it turns the formatted text of a tree into the unformatted one. */
module JsonMinify {
  import opened CStrings
  import opened Digits
  import opened JsonTree
  import opened Options
  import opened JsonText
  import opened JsonParse
  import opened JsonRoundTrip

  predicate IsBlank(c: char) {
    c == ' ' || c == '\t' || c == '\r' || c == '\n'
  }

  /** Up to the end of the line. */
  function AfterLine(s: string): (r: string)
    ensures |r| <= |s|
  {
    if s == [] || s[0] == '\n' then s else AfterLine(s[1..])
  }

  /** Behind the next end of a comment, if there is one. */
  function AfterComment(s: string): (r: Option<string>)
    ensures r.Some? ==> |r.value| + 2 <= |s|
  {
    if s == [] then None
    else if s[0] == '*' && At(s, 1) == '/' then Some(s[2..])
    else AfterComment(s[1..])
  }

  /** The rest of a string literal, with its closing quote, and what follows it. */
  function CopyLiteral(s: string): (r: Option<Parsed<string>>)
    ensures r.Some? ==> |r.value.rest| < |s| && |r.value.value| + |r.value.rest| == |s|
  {
    if s == [] || s == "\\" then None
    else if s[0] == '\"' then Some(Parsed("\"", s[1..]))
    else
      var step := if s[0] == '\\' then 2 else 1;
      match CopyLiteral(s[step..])
      case None => None
      case Some(p) => Some(Parsed(s[..step] + p.value, p.rest))
  }

  /**
   The minified text. `None` stands for a text in which a literal or a comment is not
   closed: there the source runs past the end of the text.
   */
  function Minify(s: string): (r: Option<string>)
    ensures r.Some? ==> |r.value| <= |s|
    decreases |s|
  {
    if s == [] then Some([])
    else if IsBlank(s[0]) then Minify(s[1..])
    else if s[0] == '/' && At(s, 1) == '/' then Minify(AfterLine(s[1..]))
    else if s[0] == '/' && At(s, 1) == '*' then
      match AfterComment(s)
      case None => None
      case Some(rest) => Minify(rest)
    else if s[0] == '\"' then
      match CopyLiteral(s[1..])
      case None => None
      case Some(p) => Prepend("\"" + p.value, Minify(p.rest))
    else Prepend([s[0]], Minify(s[1..]))
  }

  function Prepend(x: string, r: Option<string>): Option<string> {
    match r
    case None => None
    case Some(t) => Some(x + t)
  }

  // Pieces of printed text

  lemma {:induction false} MinifyBlanks(w: string, s: string)
    requires forall i :: 0 <= i < |w| ==> IsBlank(w[i])
    ensures Minify(w + s) == Minify(s)
    decreases |w|
  {
    if w == [] {
      assert w + s == s;
    } else {
      assert (w + s)[0] == w[0] && (w + s)[1..] == w[1..] + s;
      MinifyBlanks(w[1..], s);
    }
  }

  predicate IsOrdinary(c: char) {
    !IsBlank(c) && c != '/' && c != '\"'
  }

  lemma MinifyChar(c: char, s: string, r: string)
    requires IsOrdinary(c) && Minify(s) == Some(r)
    ensures Minify([c] + s) == Some([c] + r)
  {
    assert ([c] + s)[1..] == s;
  }

  lemma {:induction false} MinifyPlain(x: string, s: string, r: string)
    requires (forall i :: 0 <= i < |x| ==> IsOrdinary(x[i])) && Minify(s) == Some(r)
    ensures Minify(x + s) == Some(x + r)
    decreases |x|
  {
    if x == [] {
      assert x + s == s && x + r == r;
    } else {
      MinifyPlain(x[1..], s, r);
      MinifyChar(x[0], x[1..] + s, x[1..] + r);
      HeadTail(x);
      Assoc([x[0]], x[1..], s);
      Assoc([x[0]], x[1..], r);
    }
  }

  lemma CopyEscapedChar(c: char, s: string, value: string, rest: string)
    requires 0 < c as int < 256 && CopyLiteral(s) == Some(Parsed(value, rest))
    ensures CopyLiteral(EscapeChar(c) + s) == Some(Parsed(EscapeChar(c) + value, rest))
  {
    var x := EscapeChar(c);
    var u := x + s;
    if |x| == 6 {
      assert u[2..] == x[2..] + s;
      CopyPlain(x[2..], s, value, rest);
      assert u[0] == '\\' && u[..2] == x[..2];
      assert x[..2] + (x[2..] + value) == x + value by { Assoc(x[..2], x[2..], value); }
    } else if |x| == 2 {
      assert u[0] == '\\' && u[..2] == x && u[2..] == s;
    } else {
      assert u[0] == c && u[..1] == x && u[1..] == s;
    }
  }

  lemma {:induction false} CopyPlain(x: string, s: string, value: string, rest: string)
    requires (forall i :: 0 <= i < |x| ==> x[i] != '\"' && x[i] != '\\') && CopyLiteral(s) == Some(Parsed(value, rest))
    ensures CopyLiteral(x + s) == Some(Parsed(x + value, rest))
    decreases |x|
  {
    if x == [] {
      assert x + s == s && x + value == value;
    } else {
      var u := x + s;
      assert u[0] == x[0] && u[..1] == [x[0]] && u[1..] == x[1..] + s;
      CopyPlain(x[1..], s, value, rest);
      Assoc([x[0]], x[1..], value);
      HeadTail(x);
    }
  }

  lemma {:induction false} CopyEscaped(t: string, rest: string)
    requires IsText(t)
    ensures CopyLiteral(EscapeTo(t, "\"" + rest)) == Some(Parsed(EscapeTo(t, "\""), rest))
    decreases |t|
  {
    if t == [] {
      assert ("\"" + rest)[1..] == rest;
    } else {
      CopyEscaped(t[1..], rest);
      CopyEscapedChar(t[0], EscapeTo(t[1..], "\"" + rest), EscapeTo(t[1..], "\""), rest);
    }
  }

  /** String literals pass through unchanged, whatever characters they hold. */
  lemma MinifyString(t: string, s: string, r: string)
    requires IsText(t) && Minify(s) == Some(r)
    ensures Minify(StringTo(t, s)) == Some(StringTo(t, r))
  {
    CopyEscaped(t, s);
    assert StringTo(t, s)[1..] == EscapeTo(t, "\"" + s);
    EscapeToAppends(t, "\"");
    EscapeToAppends(t, "\"" + r);
    Assoc(Escape(t), "\"", r);
    Assoc("\"", EscapeTo(t, "\""), r);
  }

  // Values

  lemma NumberIsOrdinary(v: real)
    ensures forall i :: 0 <= i < |RenderNumber(v)| ==> IsOrdinary(RenderNumber(v)[i])
  {
    var m: nat := if v.Floor < 0 then -v.Floor else v.Floor;
    DecimalIsDigits(m);
    assert forall i :: 0 <= i < |Decimal(m)| ==> IsDigit(Decimal(m)[i]);
  }

  /**
   The formatted text of a value in front of `s`, minified, is the unformatted text in
   front of the minified `s`, at any depths.
   */
  lemma {:induction false} MinifyValue(j: Json, depth: nat, d: nat, s: string, r: string)
    requires WellFormed(j) && Minify(s) == Some(r)
    ensures Minify(RenderTo(j, depth, true, s)) == Some(RenderTo(j, d, false, r))
    decreases j, 2
  {
    match j
    case Null => MinifyPlain("null", s, r);
    case False => MinifyPlain("false", s, r);
    case True => MinifyPlain("true", s, r);
    case Number(v) =>
      NumberIsOrdinary(v);
      MinifyPlain(RenderNumber(v), s, r);
    case String(t) => MinifyString(t, s, r);
    case Array(items) => MinifyArray(items, depth, d, s, r);
    case Object(ms) => MinifyObject(ms, depth, d, s, r);
  }

  lemma {:induction false} MinifyArray(items: seq<Json>, depth: nat, d: nat, s: string, r: string)
    requires (forall i :: 0 <= i < |items| ==> WellFormed(items[i])) && Minify(s) == Some(r)
    ensures Minify(RenderTo(Array(items), depth, true, s)) == Some(RenderTo(Array(items), d, false, r))
    decreases items, 1
  {
    MinifyChar(']', s, r);
    MinifyItems(items, depth + 1, d + 1, "]" + s, "]" + r);
    MinifyChar('[', ItemsTo(items, depth + 1, true, "]" + s), ItemsTo(items, d + 1, false, "]" + r));
  }

  lemma {:induction false} MinifyItems(items: seq<Json>, depth: nat, d: nat, s: string, r: string)
    requires (forall i :: 0 <= i < |items| ==> WellFormed(items[i])) && Minify(s) == Some(r)
    ensures Minify(ItemsTo(items, depth, true, s)) == Some(ItemsTo(items, d, false, r))
    decreases items, 0
  {
    if items != [] {
      var next, next' := NextItemTo(items, depth, true, s), NextItemTo(items, d, false, r);
      assert Minify(next) == Some(next') by {
        if |items| > 1 {
          var more, more' := ItemsTo(items[1..], depth, true, s), ItemsTo(items[1..], d, false, r);
          MinifyItems(items[1..], depth, d, s, r);
          MinifyBlanks(" ", more);
          assert "" + more' == more';
          MinifyChar(',', " " + more, more');
        }
      }
      MinifyValue(items[0], depth, d, next, next');
    }
  }

  lemma {:induction false} MinifyObject(ms: seq<Member>, depth: nat, d: nat, s: string, r: string)
    requires (forall i :: 0 <= i < |ms| ==> IsText(ms[i].key) && WellFormed(ms[i].value)) && Minify(s) == Some(r)
    ensures Minify(RenderTo(Object(ms), depth, true, s)) == Some(RenderTo(Object(ms), d, false, r))
    decreases ms, 1
  {
    MinifyChar('}', s, r);
    MinifyBlanks(Indent(depth, true), "}" + s);
    assert "" + ("}" + r) == "}" + r;
    var body, body' := MembersTo(ms, depth + 1, true, Indent(depth, true) + ("}" + s)),
                       MembersTo(ms, d + 1, false, "" + ("}" + r));
    MinifyMembers(ms, depth + 1, d + 1, Indent(depth, true) + ("}" + s), "" + ("}" + r));
    MinifyBlanks("\n", body);
    assert "" + body' == body';
    MinifyChar('{', "\n" + body, body');
  }

  lemma {:induction false} MinifyMembers(ms: seq<Member>, depth: nat, d: nat, s: string, r: string)
    requires (forall i :: 0 <= i < |ms| ==> IsText(ms[i].key) && WellFormed(ms[i].value)) && Minify(s) == Some(r)
    ensures Minify(MembersTo(ms, depth, true, s)) == Some(MembersTo(ms, d, false, r))
    decreases ms, 0
  {
    if ms != [] {
      MinifyMembers(ms[1..], depth, d, s, r);
      MinifyMember(ms[0], depth, d, |ms| == 1, MembersTo(ms[1..], depth, true, s), MembersTo(ms[1..], d, false, r));
    }
  }

  lemma {:induction false} MinifyMember(m: Member, depth: nat, d: nat, last: bool, s: string, r: string)
    requires IsText(m.key) && WellFormed(m.value) && Minify(s) == Some(r)
    ensures Minify(MemberTo(m, depth, true, last, s)) == Some(MemberTo(m, d, false, last, r))
    decreases m, 3
  {
    var after, after' := Comma(last) + ("\n" + s), Comma(last) + ("" + r);
    assert "" + r == r;
    MinifyBlanks("\n", s);
    MinifyPlain(Comma(last), "\n" + s, r);
    MinifyValue(m.value, depth, d, after, after');
    var value, value' := RenderTo(m.value, depth, true, after), RenderTo(m.value, d, false, after');
    MinifyBlanks(" ", value);
    assert "" + value' == value';
    MinifyChar(':', " " + value, value');
    MinifyString(m.key, ":" + (" " + value), ":" + ("" + value'));
    MinifyBlanks(Indent(depth, true), StringTo(m.key, ":" + (" " + value)));
    assert "" + StringTo(m.key, ":" + ("" + value')) == StringTo(m.key, ":" + ("" + value'));
  }

  /** For every tree: minifying the formatted text gives, byte for byte, the unformatted text. */
  lemma MinifyFormatted(j: Json)
    requires WellFormed(j)
    ensures Minify(Render(j, 0, true)) == Some(Render(j, 0, false))
  {
    MinifyValue(j, 0, 0, "", "");
    RenderToAppends(j, 0, true, "");
    RenderToAppends(j, 0, false, "");
    assert Render(j, 0, true) + "" == Render(j, 0, true) && Render(j, 0, false) + "" == Render(j, 0, false);
  }
}

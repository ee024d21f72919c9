/** The printed text of a tree in front of a given rest, built from the back. */
module JsonText {
  import opened JsonTree

  function EscapeTo(t: string, rest: string): string {
    if t == [] then rest else EscapeChar(t[0]) + EscapeTo(t[1..], rest)
  }

  function StringTo(t: string, rest: string): string {
    "\"" + EscapeTo(t, "\"" + rest)
  }

  function RenderTo(j: Json, depth: nat, fmt: bool, rest: string): string
    decreases j, 1
  {
    match j
    case Null => "null" + rest
    case False => "false" + rest
    case True => "true" + rest
    case Number(v) => RenderNumber(v) + rest
    case String(t) => StringTo(t, rest)
    case Array(items) => "[" + ItemsTo(items, depth + 1, fmt, "]" + rest)
    case Object(ms) => "{" + (Eol(fmt) + MembersTo(ms, depth + 1, fmt, Indent(depth, fmt) + ("}" + rest)))
  }

  function ItemsTo(items: seq<Json>, depth: nat, fmt: bool, rest: string): string
    decreases items, 0
  {
    if items == [] then rest
    else RenderTo(items[0], depth, fmt, NextItemTo(items, depth, fmt, rest))
  }

  /** What follows the first of some array elements. */
  function NextItemTo(items: seq<Json>, depth: nat, fmt: bool, rest: string): string
    requires items != []
    decreases items[1..], 1
  {
    if |items| == 1 then rest else "," + (Blank(fmt) + ItemsTo(items[1..], depth, fmt, rest))
  }

  function MembersTo(ms: seq<Member>, depth: nat, fmt: bool, rest: string): string
    decreases ms, 0
  {
    if ms == [] then rest
    else MemberTo(ms[0], depth, fmt, |ms| == 1, MembersTo(ms[1..], depth, fmt, rest))
  }

  function MemberTo(m: Member, depth: nat, fmt: bool, last: bool, rest: string): string
    decreases m, 2
  {
    Indent(depth, fmt)
    + StringTo(m.key, ":" + (Blank(fmt) + RenderTo(m.value, depth, fmt, Comma(last) + (Eol(fmt) + rest))))
  }

  // It is the printed text followed by the rest

  lemma Assoc(a: string, b: string, c: string)
    ensures (a + b) + c == a + (b + c)
  {
  }

  lemma {:induction false} EscapeToAppends(t: string, rest: string)
    ensures EscapeTo(t, rest) == Escape(t) + rest
    decreases |t|
  {
    if t != [] {
      EscapeToAppends(t[1..], rest);
      Assoc(EscapeChar(t[0]), Escape(t[1..]), rest);
    }
  }

  lemma StringToAppends(t: string, rest: string)
    ensures StringTo(t, rest) == RenderString(t) + rest
  {
    EscapeToAppends(t, "\"" + rest);
    Assoc("\"" + Escape(t), "\"", rest);
    Assoc("\"", Escape(t), "\"" + rest);
  }

  lemma {:induction false} RenderToAppends(j: Json, depth: nat, fmt: bool, rest: string)
    ensures RenderTo(j, depth, fmt, rest) == Render(j, depth, fmt) + rest
    decreases j, 1
  {
    match j
    case String(t) => StringToAppends(t, rest);
    case Array(items) => ArrayToAppends(items, depth, fmt, rest);
    case Object(ms) => ObjectToAppends(ms, depth, fmt, rest);
    case _ =>
  }

  lemma {:induction false} ArrayToAppends(items: seq<Json>, depth: nat, fmt: bool, rest: string)
    ensures RenderTo(Array(items), depth, fmt, rest) == Render(Array(items), depth, fmt) + rest
    decreases items, 1
  {
    ItemsToAppends(items, depth + 1, fmt, "]" + rest);
    var x := RenderItems(items, depth + 1, fmt);
    Assoc("[" + x, "]", rest);
    Assoc("[", x, "]" + rest);
    if items == [] {
      assert x == [];
      assert "[" + [] + "]" == "[]";
    }
  }

  lemma {:induction false} ItemsToAppends(items: seq<Json>, depth: nat, fmt: bool, rest: string)
    ensures ItemsTo(items, depth, fmt, rest) == RenderItems(items, depth, fmt) + rest
    decreases items, 0
  {
    if items != [] {
      var x, y := Render(items[0], depth, fmt), RenderItems(items[1..], depth, fmt);
      var next := NextItemTo(items, depth, fmt, rest);
      RenderToAppends(items[0], depth, fmt, next);
      if |items| == 1 {
        assert y == [] && RenderItems(items, depth, fmt) == x + "" + [];
      } else {
        ItemsToAppends(items[1..], depth, fmt, rest);
        Assoc(",", Blank(fmt), y + rest);
        Assoc("," + Blank(fmt), y, rest);
        Assoc(x, "," + Blank(fmt), y);
        Assoc(x, ("," + Blank(fmt)) + y, rest);
      }
    }
  }

  lemma {:induction false} ObjectToAppends(ms: seq<Member>, depth: nat, fmt: bool, rest: string)
    ensures RenderTo(Object(ms), depth, fmt, rest) == Render(Object(ms), depth, fmt) + rest
    decreases ms, 1
  {
    var w := Indent(depth, fmt);
    var x := RenderMembers(ms, depth + 1, fmt);
    MembersToAppends(ms, depth + 1, fmt, w + ("}" + rest));
    var open := "{" + Eol(fmt);
    Assoc("{", Eol(fmt), x + (w + ("}" + rest)));
    Assoc(open, x, w + ("}" + rest));
    Assoc(open + x, w, "}" + rest);
    Assoc(open + x + w, "}", rest);
  }

  lemma {:induction false} MembersToAppends(ms: seq<Member>, depth: nat, fmt: bool, rest: string)
    ensures MembersTo(ms, depth, fmt, rest) == RenderMembers(ms, depth, fmt) + rest
    decreases ms, 0
  {
    if ms != [] {
      var y := RenderMembers(ms[1..], depth, fmt);
      MembersToAppends(ms[1..], depth, fmt, rest);
      MemberToAppends(ms[0], depth, fmt, |ms| == 1, y + rest);
      Assoc(RenderMember(ms[0], depth, fmt, |ms| == 1), y, rest);
    }
  }

  lemma {:induction false} MemberToAppends(m: Member, depth: nat, fmt: bool, last: bool, rest: string)
    ensures MemberTo(m, depth, fmt, last, rest) == RenderMember(m, depth, fmt, last) + rest
    decreases m, 2
  {
    var after := Comma(last) + (Eol(fmt) + rest);
    var a, b, c, d := Indent(depth, fmt), RenderString(m.key), ":" + Blank(fmt), Render(m.value, depth, fmt);
    RenderToAppends(m.value, depth, fmt, after);
    StringToAppends(m.key, ":" + (Blank(fmt) + (d + after)));
    Assoc(":", Blank(fmt), d + after);
    FoldLeft(a, b, c, d, Comma(last), Eol(fmt), rest);
  }

  lemma FoldLeft(a: string, b: string, c: string, d: string, e: string, f: string, rest: string)
    ensures a + (b + (c + (d + (e + (f + rest))))) == a + b + c + d + e + f + rest
  {
    Assoc(a, b, c + (d + (e + (f + rest))));
    Assoc(a + b, c, d + (e + (f + rest)));
    Assoc(a + b + c, d, e + (f + rest));
    Assoc(a + b + c + d, e, f + rest);
    Assoc(a + b + c + d + e, f, rest);
  }
}

/** The printed text split at the points where the printers write one piece after the other. */
module JsonPieces {
  import opened JsonText
  import opened JsonTree

  lemma ArrayStart(items: seq<Json>, depth: nat, fmt: bool, done: string)
    ensures (done + "[") + ItemsTo(items, depth + 1, fmt, "]") == done + Render(Array(items), depth, fmt)
  {
    RenderToAppends(Array(items), depth, fmt, "");
    assert "]" + "" == "]";
    assert Render(Array(items), depth, fmt) + "" == Render(Array(items), depth, fmt);
    Assoc(done, "[", ItemsTo(items, depth + 1, fmt, "]"));
  }

  lemma ItemThenNext(items: seq<Json>, k: nat, depth: nat, fmt: bool, so: string)
    requires k < |items|
    ensures so + ItemsTo(items[k..], depth, fmt, "]")
         == so + Render(items[k], depth, fmt) + NextItemTo(items[k..], depth, fmt, "]")
  {
    var next := NextItemTo(items[k..], depth, fmt, "]");
    RenderToAppends(items[k], depth, fmt, next);
    Assoc(so, Render(items[k], depth, fmt), next);
  }

  lemma NextThenItems(items: seq<Json>, k: nat, depth: nat, fmt: bool, so: string)
    requires k < |items|
    ensures so + NextItemTo(items[k..], depth, fmt, "]")
         == so + (if k == |items| - 1 then "" else if fmt then ", " else ",")
            + ItemsTo(items[k + 1..], depth, fmt, "]")
  {
    assert items[k..][1..] == items[k + 1..];
    var rest := ItemsTo(items[k + 1..], depth, fmt, "]");
    if k == |items| - 1 {
      assert so + "" == so;
    } else {
      Assoc(",", Blank(fmt), rest);
      assert "," + Blank(fmt) == if fmt then ", " else ",";
      Assoc(so, "," + Blank(fmt), rest);
    }
  }

  lemma EmptyObject(depth: nat, fmt: bool)
    ensures Render(Object([]), depth, fmt) == if fmt then "{\n" + Spaces(depth) + "}" else "{}"
  {
    assert RenderMembers([], depth + 1, fmt) == [];
    if fmt {
      assert ("{" + "\n") + [] + Spaces(depth) + "}" == "{\n" + Spaces(depth) + "}";
    } else {
      assert ("{" + "") + [] + "" + "}" == "{}";
    }
  }

  lemma ObjectStart(ms: seq<Member>, depth: nat, fmt: bool, done: string)
    ensures done + (if fmt then "{\n" else "{") + MembersTo(ms, depth + 1, fmt, Indent(depth, fmt) + "}")
         == done + Render(Object(ms), depth, fmt)
  {
    var close := Indent(depth, fmt) + "}";
    RenderToAppends(Object(ms), depth, fmt, "");
    assert "}" + "" == "}";
    assert Render(Object(ms), depth, fmt) + "" == Render(Object(ms), depth, fmt);
    Assoc("{", Eol(fmt), MembersTo(ms, depth + 1, fmt, close));
    assert "{" + Eol(fmt) == if fmt then "{\n" else "{";
    Assoc(done, "{" + Eol(fmt), MembersTo(ms, depth + 1, fmt, close));
  }

  lemma MemberThenRest(ms: seq<Member>, k: nat, depth: nat, fmt: bool, close: string, so: string)
    requires k < |ms|
    ensures so + MembersTo(ms[k..], depth, fmt, close)
         == so + Indent(depth, fmt) + RenderString(ms[k].key) + (if fmt then ": " else ":")
            + Render(ms[k].value, depth, fmt) + (Comma(k == |ms| - 1) + Eol(fmt))
            + MembersTo(ms[k + 1..], depth, fmt, close)
  {
    assert ms[k..][1..] == ms[k + 1..];
    var rest := MembersTo(ms[k + 1..], depth, fmt, close);
    var last := k == |ms| - 1;
    MemberToAppends(ms[k], depth, fmt, last, rest);
    Assoc(so, RenderMember(ms[k], depth, fmt, last), rest);
    assert ":" + Blank(fmt) == if fmt then ": " else ":";
    Regroup(so, Indent(depth, fmt), RenderString(ms[k].key), ":" + Blank(fmt), Render(ms[k].value, depth, fmt),
            Comma(last), Eol(fmt));
  }

  lemma Regroup(so: string, a: string, b: string, c: string, d: string, e: string, f: string)
    ensures so + (a + b + c + d + e + f) == so + a + b + c + d + (e + f)
  {
    Assoc(a + b + c + d, e, f);
    Assoc(so, a + b + c + d, e + f);
    Assoc(so, a + b + c, d);
    Assoc(so, a + b, c);
    Assoc(so, a, b);
  }
}

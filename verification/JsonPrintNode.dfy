/** The printer that allocates one string for every node and joins the strings of the children. */
module JsonPrintNode {
  import opened CStrings
  import opened JsonCText
  import opened JsonPieces
  import opened JsonPrintString
  import opened JsonText
  import opened JsonTree

  /** The printed children are there, in order. */
  ghost predicate Entries(entries: seq<array<char>>, items: seq<Json>, n: nat, depth: nat, fmt: bool)
    reads entries
  {
    n <= |items| && |entries| == n
    && forall k :: 0 <= k < n ==> Holds(entries[k], Render(items[k], depth, fmt))
  }

  /** The space that `print_array` counts for its elements. */
  function ItemSpace(items: seq<Json>, depth: nat, fmt: bool): nat {
    if items == [] then 0
    else |Render(items[0], depth, fmt)| + 2 + (if fmt then 1 else 0) + ItemSpace(items[1..], depth, fmt)
  }

  lemma {:induction false} ItemsFit(items: seq<Json>, depth: nat, fmt: bool)
    ensures |RenderItems(items, depth, fmt)| <= ItemSpace(items, depth, fmt)
    decreases |items|
  {
    if items != [] {
      ItemsFit(items[1..], depth, fmt);
    }
  }

  /** A new C string with a copy of `s`, in exactly or more than the space it needs. */
  method Duplicate(s: string, room: nat) returns (out: array<char>)
    requires |s| < room
    ensures fresh(out) && Holds(out, s)
  {
    out := new char[room];
    Begin(out, s);
  }

  method PrintString(s: string) returns (out: array<char>)
    requires IsText(s)
    ensures fresh(out) && Holds(out, RenderString(s))
  {
    var flag, len := LiteralSpace(s);
    out := new char[len + 3];
    assert Starts(out, "");
    WriteLiteral(out, 0, s, flag, "");
    assert "" + RenderString(s) == RenderString(s);
  }

  method PrintValue(j: Json, depth: nat, fmt: bool) returns (out: array<char>)
    requires WellFormed(j)
    ensures fresh(out) && Holds(out, Render(j, depth, fmt))
    decreases j, 3
  {
    match j
    case Null => out := Duplicate("null", 5);
    case False => out := Duplicate("false", 6);
    case True => out := Duplicate("true", 5);
    case Number(v) =>
      NumeralFits(v);
      if v == 0.0 {
        out := Duplicate("0", 2);
      } else {
        out := Duplicate(RenderNumber(v), 21);
      }
    case String(s) => out := PrintString(s);
    case Array(items) => out := PrintArray(j, depth, fmt);
    case Object(ms) => out := PrintObject(j, depth, fmt);
  }

  method PrintArray(j: Json, depth: nat, fmt: bool) returns (out: array<char>)
    requires WellFormed(j) && j.Array?
    ensures fresh(out) && Holds(out, Render(j, depth, fmt))
    decreases j, 1
  {
    if j.items == [] {
      out := Duplicate("[]", 3);
      return;
    }
    var entries, len := PrintItems(j, depth + 1, fmt);
    ItemsFit(j.items, depth + 1, fmt);
    out := new char[len];
    JoinItems(out, entries, j.items, depth, fmt);
  }

  /** Retrieves all the results, and counts the space for them. */
  method PrintItems(j: Json, depth: nat, fmt: bool) returns (entries: seq<array<char>>, len: nat)
    requires WellFormed(j) && j.Array?
    ensures Entries(entries, j.items, |j.items|, depth, fmt)
    ensures len == 5 + ItemSpace(j.items, depth, fmt)
    decreases j, 0
  {
    entries, len := [], 5;
    var i := 0;
    while i < |j.items|
      invariant 0 <= i <= |j.items|
      invariant Entries(entries, j.items, i, depth, fmt)
      invariant len + ItemSpace(j.items[i..], depth, fmt) == 5 + ItemSpace(j.items, depth, fmt)
    {
      var ret := PrintValue(j.items[i], depth, fmt);
      RenderNoNul(j.items[i], depth, fmt);
      var n := StrLen(ret, 0, Render(j.items[i], depth, fmt));
      entries := entries + [ret];
      len := len + n + 2 + (if fmt then 1 else 0);
      assert j.items[i..][1..] == j.items[i + 1..];
      i := i + 1;
    }
  }

  /** Composes the output array. */
  method JoinItems(out: array<char>, entries: seq<array<char>>, items: seq<Json>, depth: nat, fmt: bool)
    requires WellFormed(Array(items)) && items != []
    requires Entries(entries, items, |items|, depth + 1, fmt) && out !in entries
    requires |Render(Array(items), depth, fmt)| < out.Length
    modifies out
    ensures Holds(out, Render(Array(items), depth, fmt))
  {
    ghost var goal := Render(Array(items), depth, fmt);
    assert "" + goal == goal && "" + "[" == "[";
    ArrayStart(items, depth, fmt, "");
    assert Starts(out, "");
    Store(out, 0, '[', "");
    ghost var so := "[";
    var ptr := 1;
    var k := 0;
    while k < |items|
      invariant 0 <= k <= |items|
      invariant Entries(entries, items, |items|, depth + 1, fmt)
      invariant ptr == |so| && Starts(out, so)
      invariant so + ItemsTo(items[k..], depth + 1, fmt, "]") == goal
    {
      ptr, so := JoinItem(out, ptr, entries[k], items, k, depth + 1, fmt, so, goal);
      k := k + 1;
    }
    StrCpy(out, ptr, "]", so);
  }

  method JoinItem(out: array<char>, ptr: nat, entry: array<char>, items: seq<Json>, k: nat, depth: nat, fmt: bool,
                  ghost so: string, ghost goal: string)
    returns (next: nat, ghost after: string)
    requires WellFormed(Array(items)) && k < |items| && out != entry
    requires Holds(entry, Render(items[k], depth, fmt))
    requires Starts(out, so) && ptr == |so| && |goal| < out.Length
    requires so + ItemsTo(items[k..], depth, fmt, "]") == goal
    modifies out
    ensures next == |after| && Starts(out, after)
    ensures after + ItemsTo(items[k + 1..], depth, fmt, "]") == goal
  {
    ItemThenNext(items, k, depth, fmt, so);
    next := CopyEntry(out, ptr, entry, so, items[k], depth, fmt);
    after := so + Render(items[k], depth, fmt);
    NextThenItems(items, k, depth, fmt, after);
    if k != |items| - 1 {
      var separator := if fmt then ", " else ",";
      StrCpy(out, next, separator, after);
      next := next + |separator|;
      after := after + separator;
    }
  }

  /** Copies one printed child behind what is there. */
  method CopyEntry(out: array<char>, ptr: nat, entry: array<char>, ghost so: string, ghost j: Json,
                   ghost depth: nat, ghost fmt: bool)
    returns (next: nat)
    requires WellFormed(j) && out != entry && Holds(entry, Render(j, depth, fmt))
    requires Starts(out, so) && ptr == |so| && ptr + |Render(j, depth, fmt)| <= out.Length
    modifies out
    ensures next == ptr + |Render(j, depth, fmt)|
    ensures Starts(out, so + Render(j, depth, fmt))
  {
    RenderNoNul(j, depth, fmt);
    var n := StrLen(entry, 0, Render(j, depth, fmt));
    Copy(out, ptr, entry[..n], so);
    next := ptr + n;
  }

  /** The space that `print_object` counts for its members, printed at depth `depth`. */
  function MemberSpace(ms: seq<Member>, depth: nat, fmt: bool): nat {
    if ms == [] then 0 else PairSpace(ms[0], depth, fmt) + MemberSpace(ms[1..], depth, fmt)
  }

  function PairSpace(m: Member, depth: nat, fmt: bool): nat {
    |Render(m.value, depth, fmt)| + |RenderString(m.key)| + 2 + (if fmt then 2 + depth else 0)
  }

  lemma NextSpace(ms: seq<Member>, k: nat, depth: nat, fmt: bool)
    requires k < |ms|
    ensures MemberSpace(ms[k..], depth, fmt) == PairSpace(ms[k], depth, fmt) + MemberSpace(ms[k + 1..], depth, fmt)
  {
    assert ms[k..][1..] == ms[k + 1..];
  }

  lemma {:induction false} MembersFit(ms: seq<Member>, depth: nat, fmt: bool)
    ensures |RenderMembers(ms, depth, fmt)| <= MemberSpace(ms, depth, fmt)
    decreases |ms|
  {
    if ms != [] {
      MembersFit(ms[1..], depth, fmt);
    }
  }

  /** The space that `print_object` allocates for an object at depth `depth`. */
  function ObjectSpace(ms: seq<Member>, depth: nat, fmt: bool): nat {
    7 + (if fmt then depth + 1 else 0) + MemberSpace(ms, depth + 1, fmt)
  }

  lemma ObjectFits(ms: seq<Member>, depth: nat, fmt: bool)
    ensures |Render(Object(ms), depth, fmt)| < ObjectSpace(ms, depth, fmt)
  {
    MembersFit(ms, depth + 1, fmt);
  }

  /** What is printed of one member. */
  ghost predicate Pair(name: array<char>, entry: array<char>, m: Member, depth: nat, fmt: bool)
    reads name, entry
  {
    Holds(name, RenderString(m.key)) && Holds(entry, Render(m.value, depth, fmt))
  }

  /** The first `n` printed keys and values are there, in order. */
  ghost predicate Pairs(names: seq<array<char>>, entries: seq<array<char>>, ms: seq<Member>, n: nat, depth: nat,
                        fmt: bool)
    requires n <= |names| == |entries| && n <= |ms|
    reads names, entries
    decreases n
  {
    n == 0
    || (Pairs(names, entries, ms, n - 1, depth, fmt) && Pair(names[n - 1], entries[n - 1], ms[n - 1], depth, fmt))
  }

  lemma {:induction false} PairAt(names: seq<array<char>>, entries: seq<array<char>>, ms: seq<Member>, n: nat, k: nat,
                                  depth: nat, fmt: bool)
    requires n <= |names| == |entries| && n <= |ms| && k < n
    requires Pairs(names, entries, ms, n, depth, fmt)
    ensures Pair(names[k], entries[k], ms[k], depth, fmt)
    decreases n
  {
    if k < n - 1 {
      PairAt(names, entries, ms, n - 1, k, depth, fmt);
    }
  }

  lemma {:induction false} MorePairs(names: seq<array<char>>, entries: seq<array<char>>, ms: seq<Member>, n: nat,
                                     name: array<char>, entry: array<char>, depth: nat, fmt: bool)
    requires n <= |names| == |entries| && n <= |ms|
    requires Pairs(names, entries, ms, n, depth, fmt)
    ensures Pairs(names + [name], entries + [entry], ms, n, depth, fmt)
    decreases n
  {
    if n > 0 {
      MorePairs(names, entries, ms, n - 1, name, entry, depth, fmt);
    }
  }

  method PrintObject(j: Json, depth: nat, fmt: bool) returns (out: array<char>)
    requires WellFormed(j) && j.Object?
    ensures fresh(out) && Holds(out, Render(j, depth, fmt))
    decreases j, 2
  {
    if j.members == [] {
      out := PrintEmptyObject(depth, fmt);
      return;
    }
    var names, entries, len := PrintMembers(j, depth + 1, fmt);
    ObjectFits(j.members, depth, fmt);
    out := new char[len];
    JoinMembers(out, names, entries, j.members, depth, fmt);
  }

  method PrintEmptyObject(depth: nat, fmt: bool) returns (out: array<char>)
    ensures fresh(out) && Holds(out, Render(Object([]), depth, fmt))
  {
    EmptyObject(depth, fmt);
    out := Duplicate(if fmt then "{\n" + Spaces(depth) + "}" else "{}", if fmt then depth + 4 else 3);
  }

  /** Collects all the results, and counts the space for them. */
  method PrintMembers(j: Json, depth: nat, fmt: bool)
    returns (names: seq<array<char>>, entries: seq<array<char>>, len: nat)
    requires WellFormed(j) && j.Object?
    ensures |names| == |entries| == |j.members| && Pairs(names, entries, j.members, |j.members|, depth, fmt)
    ensures len == 7 + (if fmt then depth else 0) + MemberSpace(j.members, depth, fmt)
    decreases j, 1
  {
    names, entries, len := [], [], 7;
    if fmt {
      len := len + depth;
    }
    ghost var all := len + MemberSpace(j.members, depth, fmt);
    var i := 0;
    while i < |j.members|
      invariant 0 <= i <= |j.members| && |names| == |entries| == i
      invariant Pairs(names, entries, j.members, i, depth, fmt)
      invariant len + MemberSpace(j.members[i..], depth, fmt) == all
    {
      var str, ret, more := PrintPair(j, i, depth, fmt, names, entries);
      NextSpace(j.members, i, depth, fmt);
      names, entries, len := names + [str], entries + [ret], len + more;
      i := i + 1;
    }
  }

  method PrintPair(j: Json, i: nat, depth: nat, fmt: bool, ghost names: seq<array<char>>,
                   ghost entries: seq<array<char>>)
    returns (str: array<char>, ret: array<char>, space: nat)
    requires WellFormed(j) && j.Object? && i < |j.members|
    requires |names| == |entries| == i && Pairs(names, entries, j.members, i, depth, fmt)
    ensures Pairs(names + [str], entries + [ret], j.members, i + 1, depth, fmt)
    ensures space == PairSpace(j.members[i], depth, fmt)
    decreases j, 0
  {
    str := PrintString(j.members[i].key);
    ret := PrintValue(j.members[i].value, depth, fmt);
    space := Space(str, ret, j.members[i], depth, fmt);
    MorePairs(names, entries, j.members, i, str, ret, depth, fmt);
  }

  method Space(str: array<char>, ret: array<char>, ghost m: Member, depth: nat, fmt: bool) returns (space: nat)
    requires IsText(m.key) && WellFormed(m.value)
    requires Holds(str, RenderString(m.key)) && Holds(ret, Render(m.value, depth, fmt))
    ensures space == PairSpace(m, depth, fmt)
  {
    EscapeNoNul(m.key);
    RenderNoNul(m.value, depth, fmt);
    var n := StrLen(ret, 0, Render(m.value, depth, fmt));
    var l := StrLen(str, 0, RenderString(m.key));
    space := n + l + 2 + (if fmt then 2 + depth else 0);
  }

  method JoinMembers(out: array<char>, names: seq<array<char>>, entries: seq<array<char>>, ms: seq<Member>,
                     depth: nat, fmt: bool)
    requires WellFormed(Object(ms)) && ms != []
    requires |names| == |entries| == |ms| && out !in names && out !in entries
    requires Pairs(names, entries, ms, |ms|, depth + 1, fmt)
    requires |Render(Object(ms), depth, fmt)| < out.Length
    modifies out
    ensures Holds(out, Render(Object(ms), depth, fmt))
  {
    hide MembersTo, Render, Pairs;
    ghost var goal := Render(Object(ms), depth, fmt);
    var open := if fmt then "{\n" else "{";
    var close := Indent(depth, fmt) + "}";
    OpenThenMembers(ms, depth, fmt);
    Begin(out, open);
    ghost var so := open;
    var ptr := |open|;
    var k := 0;
    while k < |ms|
      invariant 0 <= k <= |ms|
      invariant Pairs(names, entries, ms, |ms|, depth + 1, fmt)
      invariant ptr == |so| && Starts(out, so)
      invariant so + MembersTo(ms[k..], depth + 1, fmt, close) == goal
    {
      ptr, so := JoinNext(out, ptr, names, entries, ms, k, depth + 1, fmt, close, so, goal);
      k := k + 1;
    }
    NoMoreMembers(ms, depth + 1, fmt, close);
    StrCpy(out, ptr, close, so);
  }

  lemma NoMoreMembers(ms: seq<Member>, depth: nat, fmt: bool, close: string)
    ensures MembersTo(ms[|ms|..], depth, fmt, close) == close
  {
  }

  lemma OpenThenMembers(ms: seq<Member>, depth: nat, fmt: bool)
    ensures (if fmt then "{\n" else "{") + MembersTo(ms, depth + 1, fmt, Indent(depth, fmt) + "}")
         == Render(Object(ms), depth, fmt)
  {
    ObjectStart(ms, depth, fmt, "");
    var open := if fmt then "{\n" else "{";
    assert "" + open == open && "" + Render(Object(ms), depth, fmt) == Render(Object(ms), depth, fmt);
  }

  /** `strcpy` to the start of an array. */
  method Begin(out: array<char>, s: string)
    requires |s| < out.Length
    modifies out
    ensures Holds(out, s)
  {
    assert Starts(out, "");
    StrCpy(out, 0, s, "");
    assert "" + s == s;
  }

  method JoinNext(out: array<char>, ptr: nat, names: seq<array<char>>, entries: seq<array<char>>, ms: seq<Member>,
                  k: nat, depth: nat, fmt: bool, ghost close: string, ghost so: string, ghost goal: string)
    returns (next: nat, ghost after: string)
    requires WellFormed(Object(ms)) && k < |ms|
    requires |names| == |entries| == |ms| && out !in names && out !in entries
    requires Pairs(names, entries, ms, |ms|, depth, fmt)
    requires Starts(out, so) && ptr == |so| && |goal| < out.Length
    requires so + MembersTo(ms[k..], depth, fmt, close) == goal
    modifies out
    ensures Pairs(names, entries, ms, |ms|, depth, fmt)
    ensures next == |after| && Starts(out, after)
    ensures after + MembersTo(ms[k + 1..], depth, fmt, close) == goal
  {
    PairAt(names, entries, ms, |ms|, k, depth, fmt);
    next, after := JoinMember(out, ptr, names[k], entries[k], ms, k, depth, fmt, close, so, goal);
  }

  method JoinMember(out: array<char>, ptr: nat, name: array<char>, entry: array<char>, ms: seq<Member>, k: nat,
                    depth: nat, fmt: bool, ghost close: string, ghost so: string, ghost goal: string)
    returns (next: nat, ghost after: string)
    requires WellFormed(Object(ms)) && k < |ms| && out != name && out != entry
    requires Pair(name, entry, ms[k], depth, fmt)
    requires Starts(out, so) && ptr == |so| && |goal| < out.Length
    requires so + MembersTo(ms[k..], depth, fmt, close) == goal
    modifies out
    ensures next == |after| && Starts(out, after)
    ensures after + MembersTo(ms[k + 1..], depth, fmt, close) == goal
  {
    MemberThenRest(ms, k, depth, fmt, close, so);
    next := JoinKey(out, ptr, name, ms[k].key, depth, fmt, so);
    after := so + Indent(depth, fmt) + RenderString(ms[k].key) + (if fmt then ": " else ":");
    next := CopyEntry(out, next, entry, after, ms[k].value, depth, fmt);
    after := after + Render(ms[k].value, depth, fmt);
    var tail := Comma(k == |ms| - 1) + Eol(fmt);
    StrCpy(out, next, tail, after);
    next := next + |tail|;
    after := after + tail;
  }

  method JoinKey(out: array<char>, ptr: nat, name: array<char>, ghost key: string, depth: nat, fmt: bool,
                 ghost so: string)
    returns (next: nat)
    requires IsText(key) && out != name && Holds(name, RenderString(key))
    requires Starts(out, so) && ptr == |so|
    requires |so| + |Indent(depth, fmt)| + |RenderString(key)| + |if fmt then ": " else ":"| <= out.Length
    modifies out
    ensures Starts(out, so + Indent(depth, fmt) + RenderString(key) + (if fmt then ": " else ":"))
    ensures next == |so + Indent(depth, fmt) + RenderString(key) + (if fmt then ": " else ":")|
  {
    ghost var done := so + Indent(depth, fmt);
    next := ptr;
    if fmt {
      Copy(out, next, Spaces(depth), so);
      next := next + depth;
    }
    EscapeNoNul(key);
    var n := StrLen(name, 0, RenderString(key));
    Copy(out, next, name[..n], done);
    next := next + n;
    var colon := if fmt then ": " else ":";
    Copy(out, next, colon, done + RenderString(key));
    next := next + |colon|;
  }

  /** `cJSON_Print` and `cJSON_PrintUnformatted`. */
  method Print(j: Json, fmt: bool) returns (out: array<char>)
    requires WellFormed(j)
    ensures fresh(out) && Holds(out, Render(j, 0, fmt))
  {
    out := PrintValue(j, 0, fmt);
  }
}

/** The printed text of a tree is a C string: bytes other than NUL. */
module JsonCText {
  import opened CStrings
  import opened Digits
  import opened JsonTree

  lemma {:induction false} EscapeIsText(s: string)
    requires IsText(s)
    ensures IsText(Escape(s))
    decreases |s|
  {
    if s != [] {
      EscapeIsText(s[1..]);
    }
  }

  lemma {:induction false} NumeralIsText(n: nat)
    ensures IsText(Decimal(n))
  {
    DecimalIsDigits(n);
  }

  /** A 32-bit numeral and its terminator fit in the 21 characters set aside for them. */
  lemma NumeralFits(v: real)
    requires IsInt(v)
    ensures |RenderNumber(v)| <= 11 && IsText(RenderNumber(v))
  {
    var n := if v.Floor < 0 then -v.Floor else v.Floor;
    NumeralIsText(n);
    TenDigits();
    DecimalLength(n, 10);
  }

  lemma TenDigits()
    ensures Pow10(10) == 1_00000_00000
  {
    assert Pow10(5) == 1_00000;
    PowSplit(5, 5);
  }

  lemma {:induction false} RenderIsText(j: Json, depth: nat, fmt: bool)
    requires WellFormed(j)
    ensures IsText(Render(j, depth, fmt))
    decreases j, 1
  {
    match j
    case Number(v) => NumeralFits(v);
    case String(s) => EscapeIsText(s);
    case Array(items) => ArrayIsText(items, depth, fmt);
    case Object(ms) => ObjectIsText(ms, depth, fmt);
    case _ =>
  }

  lemma {:induction false} ArrayIsText(items: seq<Json>, depth: nat, fmt: bool)
    requires WellFormed(Array(items))
    ensures IsText(Render(Array(items), depth, fmt))
    decreases items, 1
  {
    hide RenderItems;
    ItemsIsText(items, depth + 1, fmt);
    TextAppends("[", RenderItems(items, depth + 1, fmt));
  }

  lemma {:induction false} ObjectIsText(ms: seq<Member>, depth: nat, fmt: bool)
    requires WellFormed(Object(ms))
    ensures IsText(Render(Object(ms), depth, fmt))
    decreases ms, 1
  {
    hide RenderMembers;
    MembersIsText(ms, depth + 1, fmt);
    var open, x, w := "{" + Eol(fmt), RenderMembers(ms, depth + 1, fmt), Indent(depth, fmt);
    TextAppends(open, x);
    TextAppends(open + x, w);
  }

  lemma TextAppends(a: string, b: string)
    requires IsText(a) && IsText(b)
    ensures IsText(a + b)
  {
  }

  lemma {:induction false} ItemsIsText(items: seq<Json>, depth: nat, fmt: bool)
    requires forall i :: 0 <= i < |items| ==> WellFormed(items[i])
    ensures IsText(RenderItems(items, depth, fmt))
    decreases items, 0
  {
    if items != [] {
      RenderIsText(items[0], depth, fmt);
      ItemsIsText(items[1..], depth, fmt);
      hide Render;
      var x, sep := Render(items[0], depth, fmt), if |items| == 1 then "" else "," + Blank(fmt);
      TextAppends(x, sep);
      TextAppends(x + sep, RenderItems(items[1..], depth, fmt));
    }
  }

  lemma {:induction false} MembersIsText(ms: seq<Member>, depth: nat, fmt: bool)
    requires forall i :: 0 <= i < |ms| ==> IsText(ms[i].key) && WellFormed(ms[i].value)
    ensures IsText(RenderMembers(ms, depth, fmt))
    decreases ms, 0
  {
    if ms != [] {
      var m := ms[0];
      EscapeIsText(m.key);
      RenderIsText(m.value, depth, fmt);
      MembersIsText(ms[1..], depth, fmt);
      hide Render;
      MemberIsText(Indent(depth, fmt), RenderString(m.key), ":" + Blank(fmt), Render(m.value, depth, fmt),
                  Comma(|ms| == 1), Eol(fmt));
      TextAppends(RenderMember(m, depth, fmt, |ms| == 1), RenderMembers(ms[1..], depth, fmt));
    }
  }

  lemma MemberIsText(a: string, b: string, c: string, d: string, e: string, f: string)
    requires IsText(a) && IsText(b) && IsText(c) && IsText(d) && IsText(e) && IsText(f)
    ensures IsText(a + b + c + d + e + f)
  {
    assert IsText(a + b + c);
    assert IsText(a + b + c + d);
    assert IsText(a + b + c + d + e);
  }

  lemma EscapeNoNul(s: string)
    requires IsText(s)
    ensures NoNul(RenderString(s))
  {
    EscapeIsText(s);
  }

  lemma RenderNoNul(j: Json, depth: nat, fmt: bool)
    requires WellFormed(j)
    ensures NoNul(Render(j, depth, fmt))
  {
    RenderIsText(j, depth, fmt);
  }
}

/** The layout of formatted JSON text, and the spelling of characters in it. */
module JsonLayout {
  import opened CStrings
  import opened Digits
  import opened JsonMinify
  import opened JsonRoundTrip
  import opened JsonSpelling
  import opened JsonText
  import opened JsonTree
  import opened Numerals

  // Layout

  function NewLine(n: nat): string {
    "\n" + seq(n, _ => ' ')
  }

  /**
   Layout for a text without blanks, inserted from left to right, where `open` are the brackets that are open: each
   member of an object is on a line of its own behind as many blanks as brackets are open, and so is each closing
   brace; there is one blank behind a colon, and behind a comma in an array.
   */
  function Pretty(s: string, open: string): string
    decreases |s|
  {
    if s == [] then []
    else match s[0]
      case '\"' =>
        (match CopyLiteral(s[1..])
         case None => s
         case Some(p) => "\"" + (p.value + Pretty(p.rest, open)))
      case '{' => "{" + ((if At(s, 1) == '}' then "" else NewLine(|open| + 1)) + Pretty(s[1..], open + "{"))
      case '}' => if open == [] then s else NewLine(|open| - 1) + ("}" + Pretty(s[1..], open[..|open| - 1]))
      case '[' => "[" + Pretty(s[1..], open + "[")
      case ']' => if open == [] then s else "]" + Pretty(s[1..], open[..|open| - 1])
      case ',' =>
        "," + ((if open != [] && open[|open| - 1] == '{' then NewLine(|open|) else " ") + Pretty(s[1..], open))
      case ':' => ":" + (" " + Pretty(s[1..], open))
      case c => [c] + Pretty(s[1..], open)
  }

  predicate IsOther(c: char) {
    c !in "\"{}[],:"
  }

  lemma {:induction false} PrettyPlain(x: string, s: string, open: string)
    requires forall i :: 0 <= i < |x| ==> IsOther(x[i])
    ensures Pretty(x + s, open) == x + Pretty(s, open)
    decreases |x|
  {
    if x == [] {
      assert x + s == s;
    } else {
      PrettyPlain(x[1..], s, open);
      assert (x + s)[1..] == x[1..] + s && (x + s)[0] == x[0];
      HeadTail(x);
      Assoc([x[0]], x[1..], Pretty(s, open));
    }
  }

  lemma PrettyString(t: string, s: string, open: string)
    requires IsText(t)
    ensures Pretty(StringTo(t, s), open) == StringTo(t, Pretty(s, open))
  {
    CopyEscaped(t, s);
    assert StringTo(t, s)[1..] == EscapeTo(t, "\"" + s);
    EscapeToAppends(t, "\"");
    EscapeToAppends(t, "\"" + Pretty(s, open));
    Assoc(Escape(t), "\"", Pretty(s, open));
  }

  lemma PrettyMark(c: char, s: string, open: string)
    requires !IsOther(c) && c != '\"'
    ensures var more := Pretty(s, open);
            && (c == ':' ==> Pretty([c] + s, open) == ":" + (" " + more))
            && (c == '[' ==> Pretty([c] + s, open) == "[" + Pretty(s, open + "["))
            && (c == ',' && open != [] && open[|open| - 1] == '{' ==>
                  Pretty([c] + s, open) == "," + (NewLine(|open|) + more))
            && (c == ',' && open != [] && open[|open| - 1] == '[' ==> Pretty([c] + s, open) == "," + (" " + more))
            && (c == ']' ==> Pretty([c] + s, open + "[") == "]" + more)
            && (c == '}' ==> Pretty([c] + s, open + "{") == NewLine(|open|) + ("}" + more))
  {
    assert ([c] + s)[1..] == s && ([c] + s)[0] == c;
    assert (open + "[")[..|open + "["| - 1] == open && (open + "{")[..|open + "{"| - 1] == open;
  }

  lemma NumberIsOther(v: real)
    ensures forall i :: 0 <= i < |RenderNumber(v)| ==> IsOther(RenderNumber(v)[i])
  {
    var m: nat := if v.Floor < 0 then -v.Floor else v.Floor;
    DecimalIsDigits(m);
    assert forall i :: 0 <= i < |Decimal(m)| ==> IsDigit(Decimal(m)[i]);
  }

  /** A value without layout, with layout inserted, is the formatted value. */
  lemma {:induction false} PrettyValue(j: Json, d: nat, s: string, open: string)
    requires WellFormed(j)
    ensures Pretty(RenderTo(j, d, false, s), open) == RenderTo(j, |open|, true, Pretty(s, open))
    decreases j, 2
  {
    match j
    case Null => PrettyPlain("null", s, open);
    case False => PrettyPlain("false", s, open);
    case True => PrettyPlain("true", s, open);
    case Number(v) =>
      NumberIsOther(v);
      PrettyPlain(RenderNumber(v), s, open);
    case String(t) => PrettyString(t, s, open);
    case Array(items) =>
      PrettyMark('[', ItemsTo(items, d + 1, false, "]" + s), open);
      PrettyItems(items, d + 1, "]" + s, open + "[");
      PrettyMark(']', s, open);
    case Object(ms) => PrettyObject(ms, d, s, open);
  }

  lemma {:induction false} PrettyItems(items: seq<Json>, d: nat, s: string, open: string)
    requires (forall i :: 0 <= i < |items| ==> WellFormed(items[i])) && open != [] && open[|open| - 1] == '['
    ensures Pretty(ItemsTo(items, d, false, s), open) == ItemsTo(items, |open|, true, Pretty(s, open))
    decreases items, 0
  {
    if items != [] {
      var next := NextItemTo(items, d, false, s);
      if |items| > 1 {
        var more := ItemsTo(items[1..], d, false, s);
        assert "" + more == more;
        PrettyMark(',', more, open);
        PrettyItems(items[1..], d, s, open);
      }
      PrettyValue(items[0], d, next, open);
    }
  }

  lemma {:induction false} PrettyObject(ms: seq<Member>, d: nat, s: string, open: string)
    requires forall i :: 0 <= i < |ms| ==> IsText(ms[i].key) && WellFormed(ms[i].value)
    ensures Pretty(RenderTo(Object(ms), d, false, s), open) == RenderTo(Object(ms), |open|, true, Pretty(s, open))
    decreases ms, 1
  {
    var rest := MembersTo(ms, d + 1, false, "}" + s);
    assert "" + ("}" + s) == "}" + s && "" + rest == rest;
    ClosingLine(s, open);
    hide Pretty;
    if ms == [] {
      PrettyBrace(rest, open);
    } else {
      MemberFirst(ms, d + 1, "}" + s);
      PrettyBrace(rest, open);
      PrettyMembers(ms, d + 1, s, open + "{");
      OuterOpen(open);
    }
  }

  lemma OuterOpen(open: string)
    ensures (open + "{")[..|open + "{"| - 1] == open
  {
  }

  lemma PrettyBrace(rest: string, open: string)
    requires rest != []
    ensures Pretty("{" + rest, open)
            == "{" + ((if rest[0] == '}' then "" else NewLine(|open| + 1)) + Pretty(rest, open + "{"))
  {
    assert ("{" + rest)[1..] == rest && At("{" + rest, 1) == rest[0];
  }

  /** A closing brace on its line. */
  lemma ClosingLine(s: string, open: string)
    ensures Pretty("}" + s, open + "{") == "\n" + (Indent(|open|, true) + ("}" + Pretty(s, open)))
  {
    PrettyMark('}', s, open);
    hide Pretty;
    Assoc("\n", Indent(|open|, true), "}" + Pretty(s, open));
  }

  /** A member begins with the quote of its key. */
  lemma MemberFirst(ms: seq<Member>, d: nat, s: string)
    requires ms != []
    ensures MembersTo(ms, d, false, s) != [] && MembersTo(ms, d, false, s)[0] == '\"'
  {
    var m := ms[0];
    var t := StringTo(m.key, ":" + (Blank(false) + RenderTo(m.value, d, false,
                      Comma(|ms| == 1) + (Eol(false) + MembersTo(ms[1..], d, false, s)))));
    assert Indent(d, false) + t == t;
  }

  lemma {:induction false} PrettyMembers(ms: seq<Member>, d: nat, s: string, open: string)
    requires forall i :: 0 <= i < |ms| ==> IsText(ms[i].key) && WellFormed(ms[i].value)
    requires ms != [] && open != [] && open[|open| - 1] == '{'
    ensures var outer := open[..|open| - 1];
            NewLine(|open|) + Pretty(MembersTo(ms, d, false, "}" + s), open)
            == "\n" + MembersTo(ms, |open|, true, Indent(|outer|, true) + ("}" + Pretty(s, outer)))
    decreases ms, 0
  {
    var outer := open[..|open| - 1];
    assert open == outer + "{";
    var m, end := ms[0], Indent(|outer|, true) + ("}" + Pretty(s, outer));
    var rest, rest' := MembersTo(ms[1..], d, false, "}" + s), MembersTo(ms[1..], |open|, true, end);
    var after := Comma(|ms| == 1) + (Eol(false) + rest);
    assert Pretty(after, open) == Comma(|ms| == 1) + (Eol(true) + rest') by {
      assert "" + rest == rest;
      if |ms| == 1 {
        PrettyMark('}', s, outer);
        Assoc("\n", Indent(|outer|, true), "}" + Pretty(s, outer));
      } else {
        PrettyMark(',', rest, open);
        PrettyMembers(ms[1..], d, s, open);
      }
    }
    PrettyMember(m, d, after, open);
    var value := RenderTo(m.value, |open|, true, Pretty(after, open));
    Assoc("\n", Indent(|open|, true), StringTo(m.key, ":" + (" " + value)));
  }

  lemma {:induction false} PrettyMember(m: Member, d: nat, after: string, open: string)
    requires IsText(m.key) && WellFormed(m.value)
    ensures Pretty(Indent(d, false) + StringTo(m.key, ":" + (Blank(false) + RenderTo(m.value, d, false, after))), open)
            == StringTo(m.key, ":" + (" " + RenderTo(m.value, |open|, true, Pretty(after, open))))
    decreases m, 3
  {
    var value := RenderTo(m.value, d, false, after);
    assert Blank(false) + value == value;
    var t := StringTo(m.key, ":" + value);
    assert Indent(d, false) + t == t;
    PrettyString(m.key, ":" + value, open);
    PrettyMark(':', value, open);
    PrettyValue(m.value, d, after, open);
  }

  /** For every tree: the formatted text is the unformatted one with this layout. */
  lemma FormattedIsPretty(j: Json)
    requires WellFormed(j)
    ensures Render(j, 0, true) == Pretty(Render(j, 0, false), "")
  {
    PrettyValue(j, 0, "", "");
    RenderToAppends(j, 0, true, "");
    RenderToAppends(j, 0, false, "");
    assert Render(j, 0, true) + "" == Render(j, 0, true) && Render(j, 0, false) + "" == Render(j, 0, false);
  }

  // Characters

  /** Section 7 of RFC 8259 wants control characters escaped, which the reader does not require. */
  predicate Strict(ch: Ch) {
    ChOk(ch) && (ch.Plain? ==> ch.byte as int >= 0x20)
  }

  /** How long printed characters are. */
  lemma PrintedLength(c: char)
    ensures |EscapeChar(c)| == if IsPlain(c) then 1 else if c as int in {8, 9, 10, 12, 13, 0x22, 0x5C} then 2 else 6
  {
  }

  /** Every character is printed with the fewest characters that section 7 of RFC 8259 allows for it. */
  lemma PrintedIsShortest(c: char, ch: Ch)
    requires 0 < c as int < 256 && Strict(ch) && Means(ch) == [c]
    ensures |EscapeChar(c)| <= |Written(ch)|
  {
    PrintedLength(c);
    hide EscapeChar;
    if |EscapeChar(c)| == 6 {
      NoLetter(c, ch);
    }
    hide SpellsUnit, Means;
  }

  /** Where six characters are printed, no letter and no character as it is would do. */
  lemma NoLetter(c: char, ch: Ch)
    requires |EscapeChar(c)| == 6 && c as int < 256 && Strict(ch) && Means(ch) == [c]
    ensures |Written(ch)| >= 6
  {
    match ch
    case Short(letter) =>
      assert letter in ['\"', '\\', '/', 'b', 'f', 'n', 'r', 't'];
    case _ =>
  }

  /** And where digits are printed, they are the lower-case ones. */
  lemma PrintedDigits(c: char)
    requires |EscapeChar(c)| == 6
    ensures c as int < 0x20 && EscapeChar(c) == "\\u00" + [LOWER[c as int / 16], LOWER[c as int % 16]]
  {
    PrintedLength(c);
    SameDigit(c as int / 16);
    SameDigit(c as int % 16);
  }

  lemma SameDigit(d: nat)
    requires d < 16
    ensures HexDigit(d) == LOWER[d]
  {
    DigitIs(d);
    hide LOWER;
  }
}

/** Parsing a printed tree, in either layout, gives the tree back. */
module JsonRoundTrip {
  import opened CStrings
  import opened Digits
  import opened JsonTree
  import opened Options
  import opened JsonText
  import opened JsonParse

  // String literals

  lemma HexDigitValue(d: nat)
    requires d < 16
    ensures HexValue(HexDigit(d)) == d
  {
  }

  /** The decoder turns the text of one escaped character back into the character. */
  lemma DecodeEscaped(c: char, rest: string, n: nat)
    requires 0 < c as int < 256 && |EscapeChar(c)| <= n <= |EscapeChar(c) + rest|
    ensures DecodeStep(EscapeChar(c) + rest, n) == Some(Piece([c], |EscapeChar(c)|))
  {
    var x := EscapeChar(c);
    var s := x + rest;
    if |x| == 6 {
      assert s[0] == '\\' && s[1] == 'u' && s[2] == '0' && s[3] == '0';
      assert s[4] == HexDigit(c as int / 16) && s[5] == HexDigit(c as int % 16);
      HexDigitValue(c as int / 16);
      HexDigitValue(c as int % 16);
      assert At(s, 2) == '0' && At(s, 3) == '0' && HexValue('0') == 0;
      assert HexDigits(s, 2, 0) == 0;
      assert HexDigits(s, 2, 1) == 0;
      assert HexDigits(s, 2, 2) == 0;
      assert HexDigits(s, 2, 3) == c as int / 16;
      assert Hex4(s, 2) == c as int;
    } else if |x| == 2 {
      assert s[0] == '\\' && s[1] == x[1];
    } else {
      assert s[0] == c;
    }
  }

  lemma ScanEscapedChar(c: char, rest: string, n: nat)
    requires 0 < c as int < 256 && ScanLength(rest) == Some(n)
    ensures ScanLength(EscapeChar(c) + rest) == Some(|EscapeChar(c)| + n)
  {
    var x := EscapeChar(c);
    var s := x + rest;
    if |x| == 6 {
      assert s[0] == '\\' && s[1] == 'u' && s[2] == '0' && s[3] == '0' && s[4] == x[4] && s[5] == x[5];
      assert s[2..][1..] == s[3..] && s[3..][1..] == s[4..] && s[4..][1..] == s[5..] && s[5..][1..] == rest;
      assert ScanLength(s[5..]) == Some(1 + n);
      assert ScanLength(s[4..]) == Some(2 + n);
      assert ScanLength(s[3..]) == Some(3 + n);
      assert ScanLength(s[2..]) == Some(4 + n);
    } else if |x| == 2 {
      assert s[0] == '\\' && s[2..] == rest;
    } else {
      assert s[0] == c && s[1..] == rest;
    }
  }

  lemma {:induction false} ScanEscaped(t: string, rest: string)
    requires IsText(t)
    ensures ScanLength(EscapeTo(t, "\"" + rest)) == Some(|Escape(t)|)
    decreases |t|
  {
    if t != [] {
      ScanEscaped(t[1..], rest);
      ScanEscapedChar(t[0], EscapeTo(t[1..], "\"" + rest), |Escape(t[1..])|);
    }
  }

  lemma DecodeMore(x: string, y: string, n: nat, text: string, more: string)
    requires 0 < |x| <= n <= |x + y| && DecodeStep(x + y, n) == Some(Piece(text, |x|))
    requires Decode(y, n - |x|) == Some(Piece(more, n - |x|))
    ensures Decode(x + y, n) == Some(Piece(text + more, n))
  {
    hide DecodeStep;
    assert (x + y)[|x|..] == y;
  }

  lemma {:induction false} DecodeAll(t: string, rest: string)
    requires IsText(t)
    ensures |EscapeTo(t, rest)| == |Escape(t)| + |rest|
    ensures Decode(EscapeTo(t, rest), |Escape(t)|) == Some(Piece(t, |Escape(t)|))
    decreases |t|
  {
    if t != [] {
      var x, y := EscapeChar(t[0]), EscapeTo(t[1..], rest);
      var n := |Escape(t)|;
      DecodeAll(t[1..], rest);
      DecodeEscaped(t[0], y, n);
      DecodeMore(x, y, n, [t[0]], t[1..]);
      assert [t[0]] + t[1..] == t;
    }
  }

  /** Reading back a printed string, whatever follows it. */
  lemma StringRoundTrip(t: string, rest: string)
    requires IsText(t)
    ensures ParseString(StringTo(t, rest)) == Some(Parsed(t, rest))
  {
    var e := EscapeTo(t, "\"" + rest);
    assert StringTo(t, rest)[1..] == e;
    ScanEscaped(t, rest);
    DecodeAll(t, "\"" + rest);
    EscapeToAppends(t, "\"" + rest);
    var n := |Escape(t)|;
    assert e[n..] == "\"" + rest;
    assert e[n] == '\"' && e[n + 1..] == rest by { assert e[n..][0] == '\"' && e[n..][1..] == rest; }
  }

  // Numbers

  /** What may follow a number without becoming part of it. */
  predicate Delimited(rest: string) {
    var c := At(rest, 0);
    !IsDigit(c) && c != '.' && c != 'e' && c != 'E'
  }

  lemma {:induction false} RunOfDigits(s: string, rest: string)
    requires AllDigits(s) && !IsDigit(At(rest, 0))
    ensures DigitRun(s + rest) == |s|
    decreases |s|
  {
    if s == [] {
      assert s + rest == rest;
    } else {
      assert (s + rest)[0] == s[0] && (s + rest)[1..] == s[1..] + rest;
      RunOfDigits(s[1..], rest);
    }
  }

  lemma NatRoundTrip(n: nat, rest: string)
    requires Delimited(rest)
    ensures NumberWhole(Decimal(n) + rest).rest == rest
    ensures DecimalValue(NumberWhole(Decimal(n) + rest).value) == n
  {
    var d := Decimal(n);
    DecimalIsDigits(n);
    assert (d + rest)[0] == d[0];
    if n > 0 {
      RunOfDigits(d, rest);
      assert (d + rest)[..|d|] == d && (d + rest)[|d|..] == rest;
    }
  }

  lemma NumberStart(v: real)
    ensures var c := RenderNumber(v)[0]; (c == '-' <==> v.Floor < 0) && (v.Floor >= 0 ==> IsDigit(c))
  {
    DecimalIsDigits(if v.Floor < 0 then -v.Floor else v.Floor);
  }

  lemma NumberRoundTrip(v: real, rest: string)
    requires IsInt(v) && Delimited(rest)
    ensures ParseNumber(RenderNumber(v) + rest) == Parsed(v, rest)
  {
    var m: nat := if v.Floor < 0 then -v.Floor else v.Floor;
    var s := RenderNumber(v) + rest;
    NumberStart(v);
    assert s[0] == RenderNumber(v)[0];
    assert (if v.Floor < 0 then s[1..] else s) == Decimal(m) + rest by {
      Assoc("-", Decimal(m), rest);
    }
    NatRoundTrip(m, rest);
    ReadWholeNumber(s, m, rest, v.Floor < 0);
  }

  lemma ReadWholeNumber(s: string, m: nat, rest: string, negative: bool)
    requires Delimited(rest) && (negative <==> At(s, 0) == '-')
    requires var w := NumberWhole(if negative then s[1..] else s); w.rest == rest && DecimalValue(w.value) == m
    ensures ParseNumber(s) == Parsed(if negative then -(m as real) else m as real, rest)
  {
    NothingMore(rest);
    var w := NumberWhole(if negative then s[1..] else s);
    assert w.value + "" == w.value;
    WholeValue(m);
  }

  lemma NothingMore(rest: string)
    requires Delimited(rest)
    ensures NumberFraction(rest) == Parsed("", rest) && NumberExponent(rest) == Parsed(0, rest)
  {
  }

  lemma WholeValue(m: nat)
    ensures Scaled(m, 0) == m as real
  {
  }

  // Values

  /** A printed value starts with a character that is neither blank nor the end of a list. */
  lemma RenderStart(j: Json, depth: nat, fmt: bool, rest: string)
    ensures var s := RenderTo(j, depth, fmt, rest);
            s != [] && s[0] as int > 32 && s[0] != ']' && s[0] != '}' && s[0] != ','
  {
    if j.Number? {
      NumberStart(j.value);
    }
  }

  lemma {:induction false} SkipBlanks(w: string, s: string)
    requires forall i :: 0 <= i < |w| ==> w[i] as int <= 32
    ensures Skip(w + s) == Skip(s)
    decreases |w|
  {
    if w == [] {
      assert w + s == s;
    } else {
      assert (w + s)[1..] == w[1..] + s;
      SkipBlanks(w[1..], s);
    }
  }

  lemma {:induction false} SkipTwice(s: string)
    ensures Skip(Skip(s)) == Skip(s)
    decreases |s|
  {
    if s != [] && s[0] as int <= 32 {
      SkipTwice(s[1..]);
    }
  }

  lemma WordRoundTrip(j: Json, word: string, rest: string)
    requires (j, word) in {(Null, "null"), (False, "false"), (True, "true")}
    ensures ParseValue(word + rest) == Some(Parsed(j, rest))
  {
    var s := word + rest;
    assert s[0] == word[0];
    assert word <= s && s[|word|..] == rest;
  }

  lemma NumberValueRoundTrip(v: real, rest: string)
    requires IsInt(v) && Delimited(rest)
    ensures ParseValue(RenderNumber(v) + rest) == Some(Parsed(Number(v), rest))
  {
    NumberRoundTrip(v, rest);
    NumberStart(v);
    NumberValue(RenderNumber(v) + rest, ParseNumber(RenderNumber(v) + rest));
  }

  lemma NumberValue(s: string, p: Parsed<real>)
    requires s != [] && (s[0] == '-' || IsDigit(s[0])) && ParseNumber(s) == p
    ensures ParseValue(s) == Some(Parsed(Number(p.value), p.rest))
  {
  }

  lemma StringValueRoundTrip(t: string, rest: string)
    requires IsText(t)
    ensures ParseValue(StringTo(t, rest)) == Some(Parsed(String(t), rest))
  {
    StringRoundTrip(t, rest);
  }

  /** Reading back a printed value in either layout; exactly its text is read. */
  lemma {:induction false} ValueRoundTrip(j: Json, depth: nat, fmt: bool, rest: string)
    requires WellFormed(j) && Delimited(rest)
    ensures ParseValue(RenderTo(j, depth, fmt, rest)) == Some(Parsed(j, rest))
    decreases j, 2
  {
    match j
    case Number(v) => NumberValueRoundTrip(v, rest);
    case String(t) => StringValueRoundTrip(t, rest);
    case Array(items) => ArrayRoundTrip(items, depth, fmt, rest);
    case Object(ms) => ObjectRoundTrip(ms, depth, fmt, rest);
    case Null => WordRoundTrip(j, "null", rest);
    case True => WordRoundTrip(j, "true", rest);
    case False => WordRoundTrip(j, "false", rest);
  }

  // Arrays

  lemma ParseOneItem(s: string, x: Json, rest: string)
    requires ParseValue(Skip(s)) == Some(Parsed(x, rest)) && At(Skip(rest), 0) != ','
    ensures ParseItems(s) == Some(Parsed([x], Skip(rest)))
  {
  }

  lemma ParseMoreItems(s: string, x: Json, rest: string, xs: seq<Json>, end: string)
    requires ParseValue(Skip(s)) == Some(Parsed(x, "," + rest)) && ParseItems(rest) == Some(Parsed(xs, end))
    ensures ParseItems(s) == Some(Parsed([x] + xs, end))
  {
    assert Skip("," + rest) == "," + rest && ("," + rest)[1..] == rest;
  }

  lemma {:induction false} ItemsRoundTrip(items: seq<Json>, depth: nat, fmt: bool, blank: string, rest: string)
    requires items != [] && (forall i :: 0 <= i < |items| ==> WellFormed(items[i])) && At(rest, 0) == ']'
    requires blank == "" || blank == " "
    ensures ParseItems(blank + ItemsTo(items, depth, fmt, rest)) == Some(Parsed(items, rest))
    decreases items, 1
  {
    var s := ItemsTo(items, depth, fmt, rest);
    RenderStart(items[0], depth, fmt, NextItemTo(items, depth, fmt, rest));
    SkipBlanks(blank, s);
    if |items| == 1 {
      ValueRoundTrip(items[0], depth, fmt, rest);
      ParseOneItem(blank + s, items[0], rest);
      assert items == [items[0]];
    } else {
      MoreItemsRoundTrip(items, depth, fmt, blank + s, rest);
    }
  }

  lemma {:induction false} MoreItemsRoundTrip(items: seq<Json>, depth: nat, fmt: bool, s: string, rest: string)
    requires |items| > 1 && (forall i :: 0 <= i < |items| ==> WellFormed(items[i])) && At(rest, 0) == ']'
    requires Skip(s) == ItemsTo(items, depth, fmt, rest)
    ensures ParseItems(s) == Some(Parsed(items, rest))
    decreases items, 0
  {
    var more := Blank(fmt) + ItemsTo(items[1..], depth, fmt, rest);
    ValueRoundTrip(items[0], depth, fmt, "," + more);
    ItemsRoundTrip(items[1..], depth, fmt, Blank(fmt), rest);
    ParseMoreItems(s, items[0], more, items[1..], rest);
    HeadTail(items);
  }

  lemma ParseArrayText(v: string, items: seq<Json>, rest: string)
    requires v != [] && v[0] as int > 32 && v[0] != ']' && ParseItems(v) == Some(Parsed(items, "]" + rest))
    ensures ParseArray("[" + v) == Some(Parsed(Array(items), rest))
  {
    assert ("[" + v)[1..] == v && ("]" + rest)[1..] == rest;
  }

  lemma ArrayValue(v: string)
    ensures ParseValue("[" + v) == ParseArray("[" + v)
  {
    assert ("[" + v)[0] == '[';
  }

  lemma ParseEmptyArray(rest: string)
    ensures ParseArray("[" + ("]" + rest)) == Some(Parsed(Array([]), rest))
  {
    assert ("[" + ("]" + rest))[1..] == "]" + rest && ("]" + rest)[1..] == rest;
  }

  lemma {:induction false} ArrayRoundTrip(items: seq<Json>, depth: nat, fmt: bool, rest: string)
    requires forall i :: 0 <= i < |items| ==> WellFormed(items[i])
    ensures ParseValue(RenderTo(Array(items), depth, fmt, rest)) == Some(Parsed(Array(items), rest))
    decreases items, 2
  {
    ArrayValue(ItemsTo(items, depth + 1, fmt, "]" + rest));
    if items == [] {
      ParseEmptyArray(rest);
    } else {
      var v := ItemsTo(items, depth + 1, fmt, "]" + rest);
      RenderStart(items[0], depth + 1, fmt, NextItemTo(items, depth + 1, fmt, "]" + rest));
      ItemsRoundTrip(items, depth + 1, fmt, "", "]" + rest);
      assert "" + v == v;
      ParseArrayText(v, items, rest);
    }
  }

  // Objects

  lemma ParseMemberText(s: string, key: string, value: Json, tail: string, rest: string)
    requires ParseString(Skip(s)) == Some(Parsed(key, ":" + tail))
    requires ParseValue(Skip(tail)) == Some(Parsed(value, rest))
    ensures ParseMember(s) == Some(Parsed(Member(key, value), Skip(rest)))
  {
    assert Skip(":" + tail) == ":" + tail && (":" + tail)[1..] == tail;
  }

  lemma {:induction false} MemberRoundTrip(m: Member, depth: nat, fmt: bool, last: bool, blank: string, rest: string)
    requires IsText(m.key) && WellFormed(m.value) && (last ==> Delimited(rest)) && (blank == "" || blank == "\n")
    ensures ParseMember(blank + MemberTo(m, depth, fmt, last, rest))
         == Some(Parsed(m, Skip(Comma(last) + (Eol(fmt) + rest))))
    decreases m, 3
  {
    var after := Comma(last) + (Eol(fmt) + rest);
    var value := RenderTo(m.value, depth, fmt, after);
    var tail := Blank(fmt) + value;
    var s := StringTo(m.key, ":" + tail);
    SkipBlanks(blank, Indent(depth, fmt) + s);
    SkipBlanks(Indent(depth, fmt), s);
    StringRoundTrip(m.key, ":" + tail);
    RenderStart(m.value, depth, fmt, after);
    SkipBlanks(Blank(fmt), value);
    assert Delimited(after) by {
      if last && !fmt {
        assert after == rest;
      }
    }
    ValueRoundTrip(m.value, depth, fmt, after);
    ParseMemberText(blank + (Indent(depth, fmt) + s), m.key, m.value, tail, after);
  }

  lemma ParseOneMember(s: string, x: Member, rest: string)
    requires ParseMember(s) == Some(Parsed(x, rest)) && At(rest, 0) != ','
    ensures ParseMembers(s) == Some(Parsed([x], rest))
  {
  }

  lemma ParseMoreMembers(s: string, x: Member, rest: string, xs: seq<Member>, end: string)
    requires ParseMember(s) == Some(Parsed(x, Skip("," + rest))) && ParseMembers(rest) == Some(Parsed(xs, end))
    ensures ParseMembers(s) == Some(Parsed([x] + xs, end))
  {
    assert Skip("," + rest) == "," + rest && ("," + rest)[1..] == rest;
  }

  lemma HeadTail<T>(s: seq<T>)
    requires s != []
    ensures [s[0]] + s[1..] == s
  {
  }

  lemma {:induction false} MembersRoundTrip(ms: seq<Member>, depth: nat, fmt: bool, blank: string, rest: string)
    requires ms != [] && (forall i :: 0 <= i < |ms| ==> IsText(ms[i].key) && WellFormed(ms[i].value))
    requires At(Skip(rest), 0) == '}' && Delimited(rest) && (blank == "" || blank == "\n")
    ensures ParseMembers(blank + MembersTo(ms, depth, fmt, rest)) == Some(Parsed(ms, Skip(rest)))
    decreases ms, 1
  {
    if |ms| == 1 {
      LastMemberRoundTrip(ms[0], depth, fmt, blank, rest);
      assert ms == [ms[0]];
    } else {
      MoreMembersRoundTrip(ms, depth, fmt, blank, rest);
    }
  }

  lemma {:induction false} LastMemberRoundTrip(m: Member, depth: nat, fmt: bool, blank: string, rest: string)
    requires IsText(m.key) && WellFormed(m.value)
    requires At(Skip(rest), 0) == '}' && Delimited(rest) && (blank == "" || blank == "\n")
    ensures ParseMembers(blank + MemberTo(m, depth, fmt, true, rest)) == Some(Parsed([m], Skip(rest)))
    decreases m, 4
  {
    MemberRoundTrip(m, depth, fmt, true, blank, rest);
    assert "" + (Eol(fmt) + rest) == Eol(fmt) + rest;
    SkipBlanks(Eol(fmt), rest);
    ParseOneMember(blank + MemberTo(m, depth, fmt, true, rest), m, Skip(rest));
  }

  lemma {:induction false} MoreMembersRoundTrip(ms: seq<Member>, depth: nat, fmt: bool, blank: string, rest: string)
    requires |ms| > 1 && (forall i :: 0 <= i < |ms| ==> IsText(ms[i].key) && WellFormed(ms[i].value))
    requires At(Skip(rest), 0) == '}' && Delimited(rest) && (blank == "" || blank == "\n")
    ensures ParseMembers(blank + MembersTo(ms, depth, fmt, rest)) == Some(Parsed(ms, Skip(rest)))
    decreases ms, 0
  {
    var t := MembersTo(ms[1..], depth, fmt, rest);
    MemberRoundTrip(ms[0], depth, fmt, false, blank, t);
    MembersRoundTrip(ms[1..], depth, fmt, Eol(fmt), rest);
    ParseMoreMembers(blank + MemberTo(ms[0], depth, fmt, false, t), ms[0], Eol(fmt) + t, ms[1..], Skip(rest));
    HeadTail(ms);
  }

  lemma MembersStart(ms: seq<Member>, depth: nat, fmt: bool, rest: string)
    requires ms != []
    ensures At(Skip(MembersTo(ms, depth, fmt, rest)), 0) == '\"'
  {
    var tail := ":" + (Blank(fmt) + RenderTo(ms[0].value, depth, fmt,
                Comma(|ms| == 1) + (Eol(fmt) + MembersTo(ms[1..], depth, fmt, rest))));
    var s := StringTo(ms[0].key, tail);
    assert MembersTo(ms, depth, fmt, rest) == Indent(depth, fmt) + s;
    SkipBlanks(Indent(depth, fmt), s);
    assert s[0] == '\"';
  }

  lemma SkippedMembers(s: string)
    ensures ParseMembers(Skip(s)) == ParseMembers(s)
  {
    SkipTwice(s);
    assert ParseMember(Skip(s)) == ParseMember(s);
  }

  lemma ParseObjectText(s: string, ms: seq<Member>, rest: string)
    requires At(Skip(s), 0) != '}' && ParseMembers(s) == Some(Parsed(ms, "}" + rest))
    ensures ParseObject("{" + s) == Some(Parsed(Object(ms), rest))
  {
    SkippedMembers(s);
    assert ("{" + s)[1..] == s && ("}" + rest)[1..] == rest;
  }

  lemma ObjectValue(s: string)
    ensures ParseValue("{" + s) == ParseObject("{" + s)
  {
    assert ("{" + s)[0] == '{';
  }

  lemma ParseEmptyObject(s: string, rest: string)
    requires Skip(s) == "}" + rest
    ensures ParseObject("{" + s) == Some(Parsed(Object([]), rest))
  {
    assert ("{" + s)[1..] == s && ("}" + rest)[1..] == rest;
  }

  lemma {:induction false} ObjectRoundTrip(ms: seq<Member>, depth: nat, fmt: bool, rest: string)
    requires forall i :: 0 <= i < |ms| ==> IsText(ms[i].key) && WellFormed(ms[i].value)
    ensures ParseValue(RenderTo(Object(ms), depth, fmt, rest)) == Some(Parsed(Object(ms), rest))
    decreases ms, 3
  {
    hide ParseValue, ParseObject, Skip;
    var close := Indent(depth, fmt) + ("}" + rest);
    var body := MembersTo(ms, depth + 1, fmt, close);
    ClosingBrace(depth, fmt, rest);
    ObjectValue(Eol(fmt) + body);
    if ms == [] {
      SkipBlanks(Eol(fmt), close);
      ParseEmptyObject(Eol(fmt) + close, rest);
    } else {
      MembersBodyRoundTrip(ms, depth + 1, fmt, close, rest);
    }
  }

  lemma ClosingBrace(depth: nat, fmt: bool, rest: string)
    ensures var close := Indent(depth, fmt) + ("}" + rest);
            Skip(close) == "}" + rest && Delimited(close)
  {
    SkipBlanks(Indent(depth, fmt), "}" + rest);
    assert Skip("}" + rest) == "}" + rest;
  }

  lemma {:induction false} MembersBodyRoundTrip(ms: seq<Member>, depth: nat, fmt: bool, close: string, rest: string)
    requires ms != [] && forall i :: 0 <= i < |ms| ==> IsText(ms[i].key) && WellFormed(ms[i].value)
    requires Skip(close) == "}" + rest && Delimited(close)
    ensures ParseObject("{" + (Eol(fmt) + MembersTo(ms, depth, fmt, close))) == Some(Parsed(Object(ms), rest))
    decreases ms, 2
  {
    var body := MembersTo(ms, depth, fmt, close);
    SkipBlanks(Eol(fmt), body);
    MembersStart(ms, depth, fmt, close);
    MembersRoundTrip(ms, depth, fmt, Eol(fmt), close);
    ParseObjectText(Eol(fmt) + body, ms, rest);
  }

  /** For every tree and both layouts: parsing the printed text returns the tree and reads all of it. */
  lemma RoundTrip(j: Json, fmt: bool)
    requires WellFormed(j)
    ensures Parse(Render(j, 0, fmt)) == Some(Parsed(j, ""))
  {
    RenderStart(j, 0, fmt, "");
    ValueRoundTrip(j, 0, fmt, "");
    RenderToAppends(j, 0, fmt, "");
    assert Render(j, 0, fmt) + "" == Render(j, 0, fmt);
  }
}

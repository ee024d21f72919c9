/** The parser reads every JSON text, however it is spelled and spaced, as the tree that it denotes. */
module JsonTexts {
  import opened CStrings
  import opened Digits
  import opened JsonNumbers
  import opened JsonParse
  import opened JsonReads
  import opened JsonRoundTrip
  import opened JsonSpelling
  import opened JsonTree
  import opened Options

  /** Blanks, of which RFC 8259 section 2 allows four and the parser all below 33. */
  predicate Blanks(g: string) {
    forall i :: 0 <= i < |g| ==> 0 < g[i] as int <= 32
  }

  /** A value begins with a character that is neither a blank nor the end of a list. */
  lemma ValStart(v: Val, rest: string)
    requires ValOk(v, Blanks)
    ensures var s := ValTo(v, rest); s != [] && s[0] as int > 32 && s[0] !in [']', '}', ',']
  {
    if v.WNumber? {
      assert IsDigit(v.n.whole[0]);
      SignAndDigits(v.n, rest);
      assert v.n.negative ==> ValTo(v, rest)[0] == '-';
      assert !v.n.negative ==> ValTo(v, rest)[0] == v.n.whole[0];
    }
  }

  lemma SkipStops(s: string)
    requires s != [] && s[0] as int > 32
    ensures Skip(s) == s
  {
  }

  /** What follows a value in a list: blanks, then a comma or the end of the list. */
  lemma AfterValue(gap: string, rest: string)
    requires Blanks(gap) && At(rest, 0) in [',', ']', '}', ':']
    ensures Delimited(gap + rest) && Skip(gap + rest) == rest
  {
    SkipBlanks(gap, rest);
    SkipStops(rest);
    if gap != [] {
      assert (gap + rest)[0] == gap[0];
    } else {
      assert gap + rest == rest;
    }
  }

  lemma BeforeValue(gap: string, v: Val, rest: string)
    requires Blanks(gap) && ValOk(v, Blanks)
    ensures Skip(gap + ValTo(v, rest)) == ValTo(v, rest)
  {
    ValStart(v, rest);
    SkipBlanks(gap, ValTo(v, rest));
    SkipStops(ValTo(v, rest));
  }

  /** Every value is read as what it denotes, and exactly its text is read. */
  lemma {:induction false} ValueIsRead(v: Val, rest: string)
    requires ValOk(v, Blanks) && Delimited(rest)
    ensures ParseValue(ValTo(v, rest)) == Some(Parsed(ValMeans(v, Blanks), rest))
    decreases v, 2
  {
    match v
    case WNull => WordRoundTrip(Null, "null", rest);
    case WTrue => WordRoundTrip(True, "true", rest);
    case WFalse => WordRoundTrip(False, "false", rest);
    case WNumber(n) => NumberIsRead(n, rest);
    case WString(chs) => StringIsRead(chs, rest);
    case WArray(items, gap) => ArrayIsRead(items, gap, rest);
    case WObject(es, gap) => ObjectIsRead(es, gap, rest);
  }

  lemma NumberIsRead(n: Num, rest: string)
    requires NumOk(n) && Delimited(rest)
    ensures ParseValue(NumTo(n, rest)) == Some(Parsed(Number(NumMeans(n)), rest))
  {
    ValStart(WNumber(n), rest);
    SignAndDigits(n, rest);
    NumIsRead(n, rest);
    assert IsDigit(n.whole[0]);
    assert !n.negative ==> NumTo(n, rest)[0] == n.whole[0];
    hide NumTo, ParseNumber, NumMeans;
    NumberValue(NumTo(n, rest), ParseNumber(NumTo(n, rest)));
  }

  lemma StringIsRead(chs: seq<Ch>, rest: string)
    requires AllOk(chs)
    ensures ParseValue(LiteralTo(chs, rest)) == Some(Parsed(String(TextMeans(chs)), rest))
  {
    LiteralIsRead(chs, rest);
    hide ParseString, CharsTo, TextMeans;
    assert LiteralTo(chs, rest)[0] == '\"';
  }

  // Arrays

  lemma {:induction false} ElementIsRead(e: Element, rest: string)
    requires ElementOk(e, Blanks) && At(rest, 0) in [',', ']', '}']
    ensures ParseValue(Skip(ElementTo(e, rest))) == Some(Parsed(ElementMeans(e, Blanks), e.after + rest))
    ensures Skip(e.after + rest) == rest
    decreases e, 3
  {
    AfterValue(e.after, rest);
    BeforeValue(e.before, e.value, e.after + rest);
    ValueIsRead(e.value, e.after + rest);
  }

  lemma {:induction false} ElementsAreRead(items: seq<Element>, rest: string)
    requires items != [] && (forall i :: 0 <= i < |items| ==> ElementOk(items[i], Blanks)) && At(rest, 0) == ']'
    ensures ParseItems(ElementsTo(items, rest)) == Some(Parsed(ElementsMean(items, Blanks), rest))
    decreases items, 0
  {
    var x := ElementMeans(items[0], Blanks);
    if |items| == 1 {
      ElementIsRead(items[0], rest);
      LastElement(items);
      ParseOneItem(ElementsTo(items, rest), x, items[0].after + rest);
    } else {
      var more := ElementsTo(items[1..], rest);
      ElementIsRead(items[0], "," + more);
      ElementsAreRead(items[1..], rest);
      ParseItemAndMore(ElementsTo(items, rest), x, items[0].after + ("," + more), more,
                       ElementsMean(items[1..], Blanks), rest);
    }
  }

  lemma LastElement(items: seq<Element>)
    requires |items| == 1 && ElementOk(items[0], Blanks)
    ensures ElementsMean(items, Blanks) == [ElementMeans(items[0], Blanks)]
  {
    assert items[1..] == [];
  }

  lemma ParseItemAndMore(s: string, x: Json, after: string, more: string, xs: seq<Json>, end: string)
    requires ParseValue(Skip(s)) == Some(Parsed(x, after)) && Skip(after) == "," + more
    requires ParseItems(more) == Some(Parsed(xs, end))
    ensures ParseItems(s) == Some(Parsed([x] + xs, end))
  {
    assert ("," + more)[1..] == more;
  }

  lemma ItemsSkipped(s: string)
    ensures ParseItems(Skip(s)) == ParseItems(s)
  {
    SkipTwice(s);
  }

  lemma {:induction false} ArrayIsRead(items: seq<Element>, gap: string, rest: string)
    requires ValOk(WArray(items, gap), Blanks)
    ensures ParseValue(ValTo(WArray(items, gap), rest)) == Some(Parsed(Array(ElementsMean(items, Blanks)), rest))
    decreases items, 1
  {
    if items == [] {
      AfterValue(gap, "]" + rest);
      ArrayFrom(gap + ("]" + rest));
      assert ("]" + rest)[1..] == rest;
    } else {
      var s := ElementsTo(items, "]" + rest);
      ElementsAreRead(items, "]" + rest);
      ElementsStart(items, "]" + rest);
      ItemsSkipped(s);
      ArrayFrom(s);
      assert ("]" + rest)[1..] == rest;
      hide ParseItems, ParseValue, ElementsTo, ElementsMean, Skip;
    }
  }

  lemma ElementsStart(items: seq<Element>, rest: string)
    requires items != [] && forall i :: 0 <= i < |items| ==> ElementOk(items[i], Blanks)
    ensures At(Skip(ElementsTo(items, rest)), 0) != ']'
  {
    var y := if |items| == 1 then rest else "," + ElementsTo(items[1..], rest);
    BeforeValue(items[0].before, items[0].value, items[0].after + y);
    ValStart(items[0].value, items[0].after + y);
  }

  /** An array from behind its bracket. */
  lemma ArrayFrom(s: string)
    ensures ParseValue("[" + s)
            == if At(Skip(s), 0) == ']' then Some(Parsed(Array([]), Skip(s)[1..]))
               else match ParseItems(Skip(s))
                 case None => None
                 case Some(p) => if At(p.rest, 0) == ']' then Some(Parsed(Array(p.value), p.rest[1..])) else None
  {
    hide ParseItems, Skip;
    assert ("[" + s)[0] == '[' && ("[" + s)[1..] == s;
  }

  // Objects

  lemma {:induction false} EntryIsRead(e: Entry, rest: string)
    requires EntryOk(e, Blanks) && At(rest, 0) in [',', '}']
    ensures ParseMember(EntryTo(e, rest)) == Some(Parsed(EntryMeans(e, Blanks), rest))
    decreases e, 4
  {
    var value := ElementTo(e.value, rest);
    var tail := e.mid + (":" + value);
    var s := LiteralTo(e.key, tail);
    AfterValue(e.mid, ":" + value);
    SkipBlanks(e.before, s);
    SkipStops(s);
    LiteralIsRead(e.key, tail);
    ElementIsRead(e.value, rest);
    MemberFrom(EntryTo(e, rest), s, TextMeans(e.key), tail, value, ElementMeans(e.value, Blanks), e.value.after + rest);
    hide ParseMember, ElementTo, LiteralTo, ParseValue, TextMeans, Skip;
  }

  lemma MemberFrom(s: string, literal: string, key: string, tail: string, value: string, x: Json, after: string)
    requires Skip(s) == literal && ParseString(literal) == Some(Parsed(key, tail)) && Skip(tail) == ":" + value
    requires ParseValue(Skip(value)) == Some(Parsed(x, after))
    ensures ParseMember(s) == Some(Parsed(Member(key, x), Skip(after)))
  {
    hide ParseString, Skip, ParseValue;
    assert (":" + value)[1..] == value;
  }

  lemma {:induction false} EntriesAreRead(es: seq<Entry>, rest: string)
    requires es != [] && (forall i :: 0 <= i < |es| ==> EntryOk(es[i], Blanks)) && At(rest, 0) == '}'
    ensures ParseMembers(EntriesTo(es, rest)) == Some(Parsed(EntriesMean(es, Blanks), rest))
    decreases es, 0
  {
    var x := EntryMeans(es[0], Blanks);
    if |es| == 1 {
      EntryIsRead(es[0], rest);
      LastEntry(es);
      ParseOneMember(EntriesTo(es, rest), x, rest);
    } else {
      var more := EntriesTo(es[1..], rest);
      EntryIsRead(es[0], "," + more);
      EntriesAreRead(es[1..], rest);
      MemberAndMore(EntriesTo(es, rest), x, more, EntriesMean(es[1..], Blanks), rest);
    }
  }

  lemma LastEntry(es: seq<Entry>)
    requires |es| == 1 && EntryOk(es[0], Blanks)
    ensures EntriesMean(es, Blanks) == [EntryMeans(es[0], Blanks)]
  {
    assert es[1..] == [];
  }

  lemma MemberAndMore(s: string, x: Member, more: string, xs: seq<Member>, end: string)
    requires ParseMember(s) == Some(Parsed(x, "," + more)) && ParseMembers(more) == Some(Parsed(xs, end))
    ensures ParseMembers(s) == Some(Parsed([x] + xs, end))
  {
    hide ParseMember;
    assert ("," + more)[1..] == more;
  }

  lemma {:induction false} ObjectIsRead(es: seq<Entry>, gap: string, rest: string)
    requires ValOk(WObject(es, gap), Blanks)
    ensures ParseValue(ValTo(WObject(es, gap), rest)) == Some(Parsed(Object(EntriesMean(es, Blanks)), rest))
    decreases es, 1
  {
    if es == [] {
      AfterValue(gap, "}" + rest);
      ObjectFrom(gap + ("}" + rest));
      assert ("}" + rest)[1..] == rest;
    } else {
      var s := EntriesTo(es, "}" + rest);
      EntriesAreRead(es, "}" + rest);
      EntriesStart(es, "}" + rest);
      SkippedMembers(s);
      ObjectFrom(s);
      assert ("}" + rest)[1..] == rest;
      hide ParseMembers, ParseValue, EntriesTo, EntriesMean, Skip;
    }
  }

  lemma EntriesStart(es: seq<Entry>, rest: string)
    requires es != [] && forall i :: 0 <= i < |es| ==> EntryOk(es[i], Blanks)
    ensures At(Skip(EntriesTo(es, rest)), 0) == '\"'
  {
    var y := if |es| == 1 then rest else "," + EntriesTo(es[1..], rest);
    var s := LiteralTo(es[0].key, es[0].mid + (":" + ElementTo(es[0].value, y)));
    SkipBlanks(es[0].before, s);
    SkipStops(s);
  }

  /** An object from behind its brace. */
  lemma ObjectFrom(s: string)
    ensures ParseValue("{" + s)
            == if At(Skip(s), 0) == '}' then Some(Parsed(Object([]), Skip(s)[1..]))
               else match ParseMembers(Skip(s))
                 case None => None
                 case Some(p) => if At(p.rest, 0) == '}' then Some(Parsed(Object(p.value), p.rest[1..])) else None
  {
    hide ParseMembers, Skip;
    assert ("{" + s)[0] == '{' && ("{" + s)[1..] == s;
  }

  /** A text: blanks, a value, and something that is not part of it. */
  lemma TextIsRead(before: string, v: Val, after: string)
    requires Blanks(before) && ValOk(v, Blanks) && Delimited(after)
    ensures Parse(before + ValTo(v, after)) == Some(Parsed(ValMeans(v, Blanks), after))
  {
    BeforeValue(before, v, after);
    ValueIsRead(v, after);
  }
}

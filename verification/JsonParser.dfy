/** The recursive-descent parser with its loops: the cursor is the text that is still unread. */
module JsonParser {
  import opened CStrings
  import opened Digits
  import opened JsonParse
  import opened JsonParseString
  import opened JsonTree
  import opened Options

  method SkipBlanks(text: string) returns (rest: string)
    requires IsText(text)
    ensures rest == Skip(text) && IsText(rest)
  {
    rest := text;
    while rest != [] && rest[0] as int <= 32
      invariant IsText(rest)
      invariant Skip(rest) == Skip(text)
      decreases |rest|
    {
      rest := rest[1..];
    }
  }

  // Numbers

  /** A run of digits behind those in `read`. */
  method ReadDigits(s: string, n: nat, ghost read: string) returns (value: nat, rest: string, count: nat)
    requires AllDigits(read) && n == DecimalValue(read)
    ensures count == DigitRun(s) && rest == s[count..]
    ensures AllDigits(read + s[..count]) && value == DecimalValue(read + s[..count])
  {
    hide DigitRun, AllDigits, DecimalValue;
    value, rest, count := n, s, 0;
    ghost var done := read;
    assert read + s[..0] == read;
    while rest != [] && IsDigit(rest[0])
      invariant count <= |s| && rest == s[count..] && count + DigitRun(rest) == DigitRun(s)
      invariant AllDigits(done) && done == read + s[..count] && value == DecimalValue(done)
      decreases |rest|
    {
      OneDigit(done, rest);
      value := value * 10 + (rest[0] as int - '0' as int);
      done := done + [rest[0]];
      assert done == read + s[..count + 1];
      rest := rest[1..];
      count := count + 1;
    }
    NoDigit(rest);
  }

  lemma OneDigit(done: string, rest: string)
    requires AllDigits(done) && rest != [] && IsDigit(rest[0])
    ensures var more := done + [rest[0]];
            AllDigits(more) && DecimalValue(more) == DecimalValue(done) * 10 + (rest[0] as int - '0' as int)
    ensures DigitRun(rest) == DigitRun(rest[1..]) + 1
  {
    var more := done + [rest[0]];
    assert more[..|more| - 1] == done;
  }

  lemma NoDigit(rest: string)
    requires rest == [] || !IsDigit(rest[0])
    ensures DigitRun(rest) == 0
  {
  }

  lemma NoDigits()
    ensures AllDigits("") && DecimalValue("") == 0
  {
  }

  lemma RestIsText(s: string, k: nat)
    requires IsText(s) && k <= |s|
    ensures IsText(s[k..])
  {
  }

  method ReadNumber(num: string) returns (value: real, rest: string)
    requires IsText(num)
    ensures Parsed(value, rest) == ParseNumber(num) && IsText(rest)
  {
    hide NumberWhole, NumberFraction, NumberExponent, ParseNumber, Scaled, DecimalValue, AllDigits;
    rest := num;
    var negative := At(rest, 0) == '-';
    if negative {
      rest := rest[1..];
    }
    var n, scale, subscale;
    ghost var digits, more;
    n, rest, digits := ReadWhole(rest);
    ghost var whole := Parsed(digits, rest);
    n, rest, scale, more := ReadFraction(rest, n, digits);
    ghost var fraction := Parsed(more, rest);
    subscale, rest := ReadExponent(rest);
    NumberIsItsParts(num, whole, fraction, Parsed(subscale, rest));
    value := Scaled(n, subscale - scale);
    if negative {
      value := -value;
    }
  }

  lemma NumberIsItsParts(num: string, whole: Parsed<string>, fraction: Parsed<string>, exponent: Parsed<int>)
    requires whole == NumberWhole(if At(num, 0) == '-' then num[1..] else num)
    requires fraction == NumberFraction(whole.rest) && exponent == NumberExponent(fraction.rest)
    ensures AllDigits(whole.value) && AllDigits(fraction.value)
    ensures ParseNumber(num)
         == Parsed(NumberOf(At(num, 0) == '-', whole.value, fraction.value, exponent.value), exponent.rest)
  {
  }

  method ReadWhole(s: string) returns (n: nat, rest: string, ghost digits: string)
    requires IsText(s)
    ensures Parsed(digits, rest) == NumberWhole(s) && n == DecimalValue(digits) && IsText(rest)
  {
    NoDigits();
    hide NumberWhole, DigitRun, AllDigits, DecimalValue, IsText;
    rest := s;
    if At(s, 0) == '0' {
      RestIsText(s, 1);
      rest := s[1..];
    }
    ghost var start := rest;
    var count := 0;
    n := 0;
    if '1' <= At(rest, 0) <= '9' {
      n, rest, count := ReadDigits(rest, 0, "");
    }
    digits := start[..count];
    WholeParts(s, start, count);
    RestIsText(start, count);
    assert "" + digits == digits && start[0..] == start;
  }

  lemma WholeParts(s: string, t: string, k: nat)
    requires t == if At(s, 0) == '0' then s[1..] else s
    requires k == if '1' <= At(t, 0) <= '9' then DigitRun(t) else 0
    ensures k <= |t| && NumberWhole(s) == Parsed(t[..k], t[k..])
  {
  }

  method ReadFraction(s: string, whole: nat, ghost digits: string)
    returns (n: nat, rest: string, scale: nat, ghost more: string)
    requires IsText(s) && AllDigits(digits) && whole == DecimalValue(digits)
    ensures Parsed(more, rest) == NumberFraction(s) && scale == |more| && IsText(rest)
    ensures n == DecimalValue(digits + more)
  {
    hide DigitRun, AllDigits, DecimalValue, IsText;
    n, rest, scale, more := whole, s, 0, "";
    if At(s, 0) == '.' && IsDigit(At(s, 1)) {
      n, rest, scale := ReadDigits(s[1..], n, digits);
      more := s[1..][..scale];
      RestIsText(s, 1);
      RestIsText(s[1..], scale);
    } else {
      assert digits + "" == digits;
    }
  }

  method ReadExponent(s: string) returns (subscale: int, rest: string)
    requires IsText(s)
    ensures Parsed(subscale, rest) == NumberExponent(s) && IsText(rest)
  {
    NoDigits();
    hide DigitRun, AllDigits, DecimalValue, IsText;
    rest := s;
    subscale := 0;
    if At(rest, 0) == 'e' || At(rest, 0) == 'E' {
      var minus := At(s, 1) == '-';
      var from := if At(s, 1) == '+' || minus then 2 else 1;
      ghost var start := s[from..];
      var count;
      subscale, rest, count := ReadDigits(s[from..], 0, "");
      assert "" + start[..count] == start[..count];
      RestIsText(s, from);
      RestIsText(start, count);
      if minus {
        subscale := -subscale;
      }
    }
  }

  // Values

  /** The contents of a C string that begins at the first character of an array. */
  method Contents(a: array<char>, ghost s: string) returns (t: string)
    requires Holds(a, s) && NoNul(s)
    ensures t == s
  {
    assert s[0..] == s;
    var n := StrLen(a, 0, s);
    t := a[..n];
  }

  method ReadString(s: string) returns (r: Option<Parsed<string>>)
    requires IsText(s)
    ensures r == ParseString(s) && (r.Some? ==> IsText(r.value.rest))
  {
    var ok, out, next := ParseLiteral(s);
    if ok {
      ParsedIsText(s);
      var text := Contents(out, ParseString(s).value.value);
      r := Some(Parsed(text, s[next..]));
    } else {
      r := None;
    }
  }

  lemma ParsedIsText(s: string)
    requires IsText(s) && ParseString(s).Some?
    ensures NoNul(ParseString(s).value.value)
  {
    var n := ScanLength(s[1..]).value;
    JsonDecode.DecodeKeepsUtf8(s[1..], n);
  }

  method ReadValue(s: string) returns (r: Option<Parsed<Json>>)
    requires IsText(s)
    ensures r == ParseValue(s) && (r.Some? ==> IsText(r.value.rest))
    decreases |s|, 2
  {
    var c := At(s, 0);
    if "null" <= s {
      r := Some(Parsed(Null, s[4..]));
    } else if "false" <= s {
      r := Some(Parsed(False, s[5..]));
    } else if "true" <= s {
      r := Some(Parsed(True, s[4..]));
    } else if c == '\"' {
      var p := ReadString(s);
      r := match p case None => None case Some(q) => Some(Parsed(String(q.value), q.rest));
    } else if c == '-' || IsDigit(c) {
      var value, rest := ReadNumber(s);
      r := Some(Parsed(Number(value), rest));
    } else if c == '[' {
      r := ReadArray(s);
    } else if c == '{' {
      r := ReadObject(s);
    } else {
      r := None;
    }
  }

  /** What is read of a list when `xs` is read and `v` is what follows its last element. */
  function ItemsFrom(xs: seq<Json>, v: string): Option<Parsed<seq<Json>>> {
    if At(v, 0) != ',' then Some(Parsed(xs, v))
    else match ParseItems(v[1..])
      case None => None
      case Some(q) => Some(Parsed(xs + q.value, q.rest))
  }

  lemma ItemsStart(v: string)
    ensures ParseItems(v) == match ParseValue(Skip(v))
                             case None => None
                             case Some(p) => ItemsFrom([p.value], Skip(p.rest))
  {
  }

  lemma ItemsNext(xs: seq<Json>, v: string)
    requires At(v, 0) == ','
    ensures ItemsFrom(xs, v) == match ParseValue(Skip(v[1..]))
                                case None => None
                                case Some(p) => ItemsFrom(xs + [p.value], Skip(p.rest))
  {
    ItemsStart(v[1..]);
    match ParseValue(Skip(v[1..]))
    case None =>
    case Some(p) =>
      var w := Skip(p.rest);
      if At(w, 0) == ',' && ParseItems(w[1..]).Some? {
        var q := ParseItems(w[1..]).value;
        assert xs + ([p.value] + q.value) == xs + [p.value] + q.value;
      }
  }

  method ReadArray(s: string) returns (r: Option<Parsed<Json>>)
    requires IsText(s) && s != []
    ensures r == ParseArray(s) && (r.Some? ==> IsText(r.value.rest))
    decreases |s|, 1
  {
    var v := SkipBlanks(s[1..]);
    if At(v, 0) == ']' {
      return Some(Parsed(Array([]), v[1..]));
    }
    ItemsStart(v);
    ghost var all := ParseItems(v);
    var first := SkipBlanks(v);
    var p := ReadValue(first);
    if p.None? {
      return None;
    }
    var items := [p.value.value];
    v := SkipBlanks(p.value.rest);
    while At(v, 0) == ','
      invariant IsText(v) && |v| < |s|
      invariant all == ItemsFrom(items, v)
      decreases |v|
    {
      ItemsNext(items, v);
      var t := SkipBlanks(v[1..]);
      p := ReadValue(t);
      if p.None? {
        return None;
      }
      items := items + [p.value.value];
      v := SkipBlanks(p.value.rest);
    }
    r := if At(v, 0) == ']' then Some(Parsed(Array(items), v[1..])) else None;
  }

  method ReadMember(s: string) returns (r: Option<Parsed<Member>>)
    requires IsText(s)
    ensures r == ParseMember(s) && (r.Some? ==> IsText(r.value.rest))
    decreases |s|, 0
  {
    var v := SkipBlanks(s);
    var key := ReadString(v);
    if key.None? {
      return None;
    }
    v := SkipBlanks(key.value.rest);
    if At(v, 0) != ':' {
      return None;
    }
    v := SkipBlanks(v[1..]);
    var p := ReadValue(v);
    if p.None? {
      return None;
    }
    v := SkipBlanks(p.value.rest);
    r := Some(Parsed(Member(key.value.value, p.value.value), v));
  }

  /** What is read of an object when `ms` is read and `v` is what follows its last value. */
  function MembersFrom(ms: seq<Member>, v: string): Option<Parsed<seq<Member>>> {
    if At(v, 0) != ',' then Some(Parsed(ms, v))
    else match ParseMembers(v[1..])
      case None => None
      case Some(q) => Some(Parsed(ms + q.value, q.rest))
  }

  lemma MembersStart(v: string)
    ensures ParseMembers(v) == match ParseMember(v)
                               case None => None
                               case Some(p) => MembersFrom([p.value], p.rest)
  {
  }

  lemma MembersNext(ms: seq<Member>, v: string)
    requires At(v, 0) == ','
    ensures MembersFrom(ms, v) == match ParseMember(v[1..])
                                  case None => None
                                  case Some(p) => MembersFrom(ms + [p.value], p.rest)
  {
    MembersStart(v[1..]);
    match ParseMember(v[1..])
    case None =>
    case Some(p) =>
      if At(p.rest, 0) == ',' && ParseMembers(p.rest[1..]).Some? {
        var q := ParseMembers(p.rest[1..]).value;
        assert ms + ([p.value] + q.value) == ms + [p.value] + q.value;
      }
  }

  method ReadObject(s: string) returns (r: Option<Parsed<Json>>)
    requires IsText(s) && s != []
    ensures r == ParseObject(s) && (r.Some? ==> IsText(r.value.rest))
    decreases |s|, 1
  {
    var v := SkipBlanks(s[1..]);
    if At(v, 0) == '}' {
      return Some(Parsed(Object([]), v[1..]));
    }
    MembersStart(v);
    ghost var all := ParseMembers(v);
    var p := ReadMember(v);
    if p.None? {
      return None;
    }
    var members := [p.value.value];
    v := p.value.rest;
    while At(v, 0) == ','
      invariant IsText(v) && |v| < |s|
      invariant all == MembersFrom(members, v)
      decreases |v|
    {
      MembersNext(members, v);
      p := ReadMember(v[1..]);
      if p.None? {
        return None;
      }
      members := members + [p.value.value];
      v := p.value.rest;
    }
    r := if At(v, 0) == '}' then Some(Parsed(Object(members), v[1..])) else None;
  }

  /** `cJSON_Parse` of a text. */
  method ParseText(text: string) returns (r: Option<Parsed<Json>>)
    requires IsText(text)
    ensures r == Parse(text)
  {
    var v := SkipBlanks(text);
    r := ReadValue(v);
  }
}

/** `print_string_ptr`: a string literal written into a buffer of the counted size. */
module JsonPrintString {
  import opened CStrings
  import opened JsonTree

  predicate AllPlain(s: string) {
    forall i :: 0 <= i < |s| ==> IsPlain(s[i])
  }

  lemma {:induction false} PlainIsUnescaped(s: string)
    requires AllPlain(s)
    ensures Escape(s) == s
    decreases |s|
  {
    if s != [] {
      PlainIsUnescaped(s[1..]);
      assert s == [s[0]] + s[1..];
    }
  }

  lemma EscapeHead(s: string)
    ensures s == [] ==> Escape(s) == []
    ensures s != [] ==> Escape(s) == EscapeChar(s[0]) + Escape(s[1..])
  {
    hide EscapeChar;
  }

  lemma {:induction false} EscapeOfPrefix(s: string, k: nat)
    requires k < |s|
    ensures Escape(s[..k + 1]) == Escape(s[..k]) + EscapeChar(s[k])
    decreases |s|
  {
    hide Escape, EscapeChar;
    EscapeHead(s[..k + 1]);
    EscapeHead(s[..k]);
    if k == 0 {
      assert s[..1][1..] == [];
      EscapeHead([]);
    } else {
      var t := s[1..];
      EscapeOfPrefix(t, k - 1);
      assert s[..k + 1][1..] == t[..k] && s[..k][1..] == t[..k - 1];
      assert EscapeChar(s[0]) + (Escape(t[..k - 1]) + EscapeChar(s[k]))
          == EscapeChar(s[0]) + Escape(t[..k - 1]) + EscapeChar(s[k]);
    }
  }

  /** The scan that looks for something to escape. */
  method NeedsEscape(s: string) returns (flag: bool)
    ensures flag == !AllPlain(s)
  {
    flag := false;
    var i := 0;
    while i < |s|
      invariant 0 <= i <= |s|
      invariant flag == !AllPlain(s[..i])
    {
      flag := flag || !IsPlain(s[i]);
      assert s[..i + 1][..i] == s[..i] && s[..i + 1][i] == s[i];
      assert !flag ==> forall k :: 0 <= k < i ==> s[k] == s[..i][k];
      assert flag ==> !IsPlain(s[..i + 1][i]) || !AllPlain(s[..i]);
      assert !AllPlain(s[..i]) ==> !AllPlain(s[..i + 1]) by {
        if k :| 0 <= k < i && !IsPlain(s[..i][k]) {
          assert s[..i + 1][k] == s[..i][k];
        }
      }
      i := i + 1;
    }
    assert s[..i] == s;
  }

  /** The space that the literal takes between its quotes. */
  method EscapedLength(s: string) returns (len: nat)
    requires IsText(s)
    ensures len == |Escape(s)|
  {
    len := 0;
    var i := 0;
    while i < |s|
      invariant 0 <= i <= |s|
      invariant len == |Escape(s[..i])|
    {
      EscapeOfPrefix(s, i);
      len := len + 1;
      if s[i] in ['\"', '\\', BACKSPACE, FORM_FEED, '\n', '\r', '\t'] {
        len := len + 1;
      } else if s[i] as int < 32 {
        len := len + 5;
      }
      i := i + 1;
    }
    assert s[..i] == s;
  }

  /** The decision and the count that come before the buffer is provided. */
  method LiteralSpace(s: string) returns (flag: bool, len: nat)
    requires IsText(s)
    ensures flag == !AllPlain(s) && len == |Escape(s)|
  {
    flag := NeedsEscape(s);
    if flag {
      len := EscapedLength(s);
    } else {
      PlainIsUnescaped(s);
      len := |s|;
    }
  }

  /** One character of a string that has something to escape. */
  method WriteEscaped(a: array<char>, at: nat, c: char, ghost done: string) returns (next: nat)
    requires c as int < 256
    requires Starts(a, done) && at == |done| && at + |EscapeChar(c)| <= a.Length
    modifies a
    ensures next == at + |EscapeChar(c)|
    ensures Starts(a, done + EscapeChar(c))
  {
    if c as int > 31 && c != '\"' && c != '\\' {
      Store(a, at, c, done);
      return at + 1;
    }
    var e: string;
    if c == '\\' {
      e := "\\";
    } else if c == '\"' {
      e := "\"";
    } else if c == BACKSPACE {
      e := "b";
    } else if c == FORM_FEED {
      e := "f";
    } else if c == '\n' {
      e := "n";
    } else if c == '\r' {
      e := "r";
    } else if c == '\t' {
      e := "t";
    } else {
      e := "u00" + [HexDigit(c as int / 16), HexDigit(c as int % 16)];
    }
    assert EscapeChar(c) == "\\" + e;
    assert done + "\\" + e == done + ("\\" + e);
    Store(a, at, '\\', done);
    Copy(a, at + 1, e, done + "\\");
    next := at + 1 + |e|;
  }

  /** The literal itself, escaped or copied, with its quotes and the terminator. */
  method WriteLiteral(a: array<char>, at: nat, s: string, flag: bool, ghost done: string)
    requires IsText(s) && flag == !AllPlain(s)
    requires Starts(a, done) && at == |done| && at + |Escape(s)| + 3 <= a.Length
    modifies a
    ensures Holds(a, done + RenderString(s))
  {
    hide Escape, AllPlain, IsText;
    Store(a, at, '\"', done);
    ghost var open := done + "\"";
    var end := WriteContents(a, at + 1, s, flag, open);
    Store(a, end, '\"', open + Escape(s));
    Terminate(a, end + 1, open + Escape(s) + "\"");
    assert open + Escape(s) + "\"" == done + RenderString(s);
  }

  /** What stands between the quotes. */
  method WriteContents(a: array<char>, at: nat, s: string, flag: bool, ghost done: string) returns (next: nat)
    requires IsText(s) && flag == !AllPlain(s)
    requires Starts(a, done) && at == |done| && at + |Escape(s)| < a.Length
    modifies a
    ensures next == at + |Escape(s)| && Starts(a, done + Escape(s))
  {
    hide Escape, AllPlain;
    if !flag {
      PlainIsUnescaped(s);
      StrCpy(a, at, s, done);
      next := at + |s|;
    } else {
      next := WriteCharacters(a, at, s, done);
    }
  }

  method WriteCharacters(a: array<char>, at: nat, s: string, ghost done: string) returns (next: nat)
    requires IsText(s)
    requires Starts(a, done) && at == |done| && at + |Escape(s)| <= a.Length
    modifies a
    ensures next == at + |Escape(s)|
    ensures Starts(a, done + Escape(s))
  {
    next := at;
    var i := 0;
    ghost var so := done;
    while i < |s|
      invariant 0 <= i <= |s|
      invariant next == |so| && so == done + Escape(s[..i])
      invariant Starts(a, so)
    {
      OneMore(s, i, done);
      next := WriteEscaped(a, next, s[i], so);
      so := so + EscapeChar(s[i]);
      i := i + 1;
    }
    assert s[..i] == s;
  }

  lemma OneMore(s: string, k: nat, done: string)
    requires k < |s|
    ensures done + Escape(s[..k]) + EscapeChar(s[k]) == done + Escape(s[..k + 1])
    ensures |done + Escape(s[..k])| + |EscapeChar(s[k])| <= |done| + |Escape(s)|
  {
    hide Escape, EscapeChar;
    EscapeOfPrefix(s, k);
    PrefixFits(s, k + 1);
    var x, y := Escape(s[..k]), EscapeChar(s[k]);
    assert done + x + y == done + (x + y);
  }

  lemma {:induction false} PrefixFits(s: string, k: nat)
    requires k <= |s|
    ensures |Escape(s[..k])| <= |Escape(s)|
    decreases |s| - k
  {
    if k == |s| {
      assert s[..k] == s;
    } else {
      EscapeOfPrefix(s, k);
      PrefixFits(s, k + 1);
    }
  }
}

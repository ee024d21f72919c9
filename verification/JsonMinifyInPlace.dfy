/** `cJSON_Minify` as it works: two cursors in one character array. */
module JsonMinifyInPlace {
  import opened CStrings
  import opened Options
  import opened JsonText
  import opened JsonParse
  import opened JsonMinify
  import opened JsonUnclosed

  /** The array holds, from index `json` on, the text `rest` and the terminating NUL. */
  ghost predicate Holds(a: array<char>, json: nat, rest: string)
    reads a
  {
    && json + |rest| < a.Length
    && a[json..json + |rest|] == rest
    && a[json + |rest|] == '\0'
    && '\0' !in rest
  }

  lemma PrependTwice(x: string, y: string, r: Option<string>)
    ensures Prepend(x, Prepend(y, r)) == Prepend(x + y, r)
  {
    if r.Some? {
      Assoc(x, y, r.value);
    }
  }

  lemma NothingPrepended(r: Option<string>)
    ensures Prepend("", r) == r
  {
    assert r.Some? ==> "" + r.value == r.value;
  }

  lemma HoldsTail(a: array<char>, json: nat, rest: string, k: nat)
    requires Holds(a, json, rest) && k <= |rest|
    ensures Holds(a, json + k, rest[k..]) && json + |rest| < a.Length
    ensures a[json] == At(rest, 0) && a[json + k] == At(rest, k)
    ensures k < |rest| ==> a[json + k] == rest[k] && rest[k] != '\0'
  {
    assert a[json + k..json + |rest|] == a[json..json + |rest|][k..];
    assert k < |rest| ==> a[json + k] == a[json..json + |rest|][k] && rest[k] in rest;
    assert |rest| > 0 ==> a[json] == a[json..json + |rest|][0];
  }

  /** The loop over a `//` comment. */
  method SkipLine(a: array<char>, from: nat, ghost rest: string) returns (json: nat)
    requires Holds(a, from, rest)
    ensures json + |AfterLine(rest)| == from + |rest| && Holds(a, json, AfterLine(rest))
  {
    json := from;
    ghost var s := rest;
    HoldsTail(a, json, s, 0);
    while a[json] != '\0' && a[json] != '\n'
      invariant Holds(a, json, s) && json + |s| == from + |rest| && AfterLine(rest) == AfterLine(s)
      invariant a[json] == At(s, 0)
      decreases |s|
    {
      HoldsTail(a, json, s, 1);
      json := json + 1;
      s := s[1..];
    }
  }

  /** The loop over a block comment; `past` if it runs into the terminator and the cursor is moved beyond it. */
  method SkipComment(a: array<char>, from: nat, ghost rest: string) returns (json: nat, past: bool)
    requires Holds(a, from, rest)
    ensures past <==> AfterComment(rest).None?
    ensures if past then json == from + |rest| + 2
            else json + |AfterComment(rest).value| == from + |rest| && Holds(a, json, AfterComment(rest).value)
  {
    hide AfterComment, Holds;
    json := from;
    ghost var s := rest;
    HoldsTail(a, json, s, 0);
    NulEnds(a, json, s);
    while a[json] != '\0' && !(a[json] == '*' && a[json + 1] == '/')
      invariant Holds(a, json, s) && json + |s| == from + |rest| < a.Length && AfterComment(rest) == AfterComment(s)
      invariant a[json] == At(s, 0) && (a[json] == '\0' <==> s == [])
      decreases |s|
    {
      HoldsTail(a, json, s, 1);
      CommentGoesOn(s);
      json := json + 1;
      s := s[1..];
      HoldsTail(a, json, s, 0);
      NulEnds(a, json, s);
    }
    past := a[json] == '\0';
    CommentEnds(s);
    if !past {
      HoldsTail(a, json, s, 1);
      HoldsTail(a, json, s, 2);
    }
    json := json + 2;
  }

  lemma NulEnds(a: array<char>, json: nat, s: string)
    requires Holds(a, json, s)
    ensures a[json] == '\0' <==> s == []
  {
    HoldsTail(a, json, s, 0);
  }

  lemma CommentGoesOn(s: string)
    requires s != [] && !(s[0] == '*' && At(s, 1) == '/')
    ensures AfterComment(s) == AfterComment(s[1..])
  {
  }

  lemma CommentEnds(s: string)
    ensures s == [] ==> AfterComment(s) == None
    ensures s != [] && s[0] == '*' && At(s, 1) == '/' ==> AfterComment(s) == Some(s[2..])
  {
  }

  /** The array starts with the text `out`, up to the index `into`. */
  ghost predicate Wrote(a: array<char>, into: nat, out: string)
    reads a
  {
    into == |out| <= a.Length && a[..into] == out
  }

  /** One character from one cursor to the other; the cursors never cross. */
  method CopyChar(a: array<char>, into: nat, json: nat, ghost out: string, ghost rest: string)
    requires into <= json && Wrote(a, into, out) && Holds(a, json, rest) && rest != []
    modifies a
    ensures Wrote(a, into + 1, out + [rest[0]]) && Holds(a, json + 1, rest[1..])
  {
    HoldsTail(a, json, rest, 1);
    a[into] := a[json];
  }

  /** What a literal is copied to when `x` is copied already. */
  function Onward(x: string, r: Option<Parsed<string>>): Option<Parsed<string>> {
    match r
    case None => None
    case Some(p) => Some(Parsed(x + p.value, p.rest))
  }

  lemma NothingCopied(r: Option<Parsed<string>>)
    ensures Onward("", r) == r
  {
    assert r.Some? ==> "" + r.value.value == r.value.value;
  }

  lemma OnwardTwice(x: string, y: string, r: Option<Parsed<string>>)
    ensures Onward(x, Onward(y, r)) == Onward(x + y, r)
  {
    if r.Some? {
      Assoc(x, y, r.value.value);
    }
  }

  /** `copied` is what the loop has copied of the literal `rest` when `s` is left. */
  ghost predicate Copied(rest: string, copied: string, s: string) {
    CopyLiteral(rest) == Onward(copied, CopyLiteral(s))
  }

  /**
   The loop over a string literal, with both cursors behind the opening quote; `past` if the terminator is copied
   and the cursor is moved beyond it.
   */
  method CopyString(a: array<char>, into: nat, json: nat, ghost out: string, ghost rest: string)
    returns (i: nat, j: nat, past: bool)
    requires into <= json && Wrote(a, into, out) && Holds(a, json, rest)
    modifies a
    ensures past <==> CopyLiteral(rest).None?
    ensures i <= j
    ensures if past then j == json + |rest| + 1
            else Wrote(a, i, out + CopyLiteral(rest).value.value) && Holds(a, j, CopyLiteral(rest).value.rest)
  {
    hide CopyLiteral;
    i, j, past := into, json, false;
    ghost var s, copied := rest, "";
    assert out + "" == out;
    NothingCopied(CopyLiteral(rest));
    HoldsTail(a, j, s, 0);
    while a[j] != '\0' && a[j] != '\"'
      invariant i <= j && Holds(a, j, s) && a[j] == At(s, 0) && Wrote(a, i, out + copied)
      invariant Copied(rest, copied, s) && j + |s| == json + |rest|
      decreases |s|
    {
      i, j, past, copied, s := CopyTurn(a, i, j, out, rest, copied, s);
      if past {
        return;
      }
    }
    LiteralEnds(rest, copied, s);
    i, j, past := CopyQuote(a, i, j, out + copied, s);
    Assoc(out, copied, "\"");
  }

  /** The last character that is copied: the closing quote, or the terminator. */
  method CopyQuote(a: array<char>, into: nat, json: nat, ghost out: string, ghost s: string)
    returns (i: nat, j: nat, past: bool)
    requires into <= json && Wrote(a, into, out) && Holds(a, json, s) && (s == [] || s[0] == '\"')
    modifies a
    ensures i <= j && j == json + 1 && (past <==> s == [])
    ensures !past ==> Wrote(a, i, out + "\"") && Holds(a, j, s[1..])
  {
    HoldsTail(a, json, s, 0);
    past := a[json] == '\0';
    if past {
      a[into] := a[json];
    } else {
      CopyChar(a, into, json, out, s);
    }
    i, j := into + 1, json + 1;
  }

  /** One turn of that loop. */
  method CopyTurn(a: array<char>, into: nat, json: nat, ghost out: string, ghost rest: string, ghost was: string,
                  ghost s: string)
    returns (i: nat, j: nat, past: bool, ghost copied: string, ghost left: string)
    requires into <= json && Wrote(a, into, out + was) && Holds(a, json, s) && Copied(rest, was, s)
    requires s != [] && s[0] != '\"'
    modifies a
    ensures i <= j && |left| < |s|
    ensures if past then CopyLiteral(rest).None? && j == json + |s| + 1
            else Wrote(a, i, out + copied) && Holds(a, j, left) && Copied(rest, copied, left)
                 && a[j] == At(left, 0) && j + |left| == json + |s|
  {
    hide CopyLiteral;
    ghost var piece;
    i, j, past, piece := CopyLiteralChar(a, into, json, out + was, s);
    copied, left := was + piece, s[|piece|..];
    if !past {
      OnwardTwice(was, piece, CopyLiteral(left));
      Assoc(out, was, piece);
      HoldsTail(a, j, left, 0);
    }
  }

  lemma LiteralEnds(rest: string, copied: string, s: string)
    requires Copied(rest, copied, s) && (At(s, 0) == '\0' || At(s, 0) == '\"') && '\0' !in s
    ensures if s == [] then CopyLiteral(rest).None?
            else s[0] == '\"' && CopyLiteral(rest) == Some(Parsed(copied + "\"", s[1..]))
  {
    assert s != [] ==> s[0] in s;
  }

  /** One turn of the loop over a string literal: a character, or an escaped one with its backslash. */
  method CopyLiteralChar(a: array<char>, into: nat, json: nat, ghost out: string, ghost s: string)
    returns (i: nat, j: nat, past: bool, ghost piece: string)
    requires into <= json && Wrote(a, into, out) && Holds(a, json, s)
    requires s != [] && s[0] != '\"'
    modifies a
    ensures i <= j && 1 <= |piece| <= |s|
    ensures if past then CopyLiteral(s).None? && j == json + |s| + 1
            else Wrote(a, i, out + piece) && CopyLiteral(s) == Onward(piece, CopyLiteral(s[|piece|..]))
                 && Holds(a, j, s[|piece|..]) && j == json + |piece|
  {
    FirstPiece(s);
    hide CopyLiteral, Holds, Wrote, Onward;
    i, j, past, piece := into + 1, json + 1, false, s[..1];
    var escaped := IsAt(a, json, '\\', s);
    CopyChar(a, into, json, out, s);
    if escaped {
      past := CopySecond(a, i, j, out, s);
      i, j := i + 1, j + 1;
      if !past {
        piece := s[..2];
      }
    }
  }

  /** The character under the cursor. */
  method IsAt(a: array<char>, json: nat, c: char, ghost s: string) returns (r: bool)
    requires Holds(a, json, s) && s != []
    ensures r == (s[0] == c)
  {
    HoldsTail(a, json, s, 0);
    r := a[json] == c;
  }

  /** The character behind a backslash, which may be the terminator. */
  method CopySecond(a: array<char>, into: nat, json: nat, ghost out: string, ghost s: string) returns (past: bool)
    requires s != [] && into <= json && Wrote(a, into, out + [s[0]]) && Holds(a, json, s[1..])
    modifies a
    ensures past <==> |s| == 1
    ensures !past ==> Wrote(a, into + 1, out + s[..2]) && Holds(a, json + 1, s[2..])
  {
    HoldsTail(a, json, s[1..], 0);
    past := a[json] == '\0';
    if past {
      a[into] := a[json];
    } else {
      CopyChar(a, into, json, out + [s[0]], s[1..]);
      assert s[1..][1..] == s[2..] && out + [s[0]] + [s[1]] == out + s[..2];
    }
  }

  /** An escaped character is copied with its backslash, any other one alone. */
  lemma FirstPiece(s: string)
    requires s != [] && s[0] != '\"'
    ensures [s[0]] == s[..1] && (s[0] == '\\' && |s| == 1 <==> s == "\\")
    ensures s == "\\" ==> CopyLiteral(s).None?
    ensures s != "\\" ==> var piece := if s[0] == '\\' then s[..2] else s[..1];
                           CopyLiteral(s) == Onward(piece, CopyLiteral(s[|piece|..]))
  {
  }

  /**
   `cJSON_Minify`. If the cursor passes the terminator, which `past` says, what the original does next depends on
   the memory behind the text.
   */
  method MinifyInPlace(a: array<char>, ghost text: string) returns (into: nat, past: bool)
    requires Holds(a, 0, text)
    modifies a
    ensures past <==> Unclosed(text)
    ensures !past ==> Minify(text).Some? && into < a.Length && a[..into] == Minify(text).value && a[into] == '\0'
  {
    into, past := 0, false;
    var json := 0;
    ghost var s, out := text, "";
    NothingPrepended(Minify(text));
    MinifyUnlessUnclosed(text);
    HoldsTail(a, 0, s, 0);
    while a[json] != '\0'
      invariant 0 <= into <= json && Holds(a, json, s) && a[json] == At(s, 0) && Wrote(a, into, out)
      invariant Minify(text) == Prepend(out, Minify(s))
      decreases |s|
    {
      into, json, past, out, s := MinifyTurn(a, into, json, out, s);
      if past {
        return;
      }
      HoldsTail(a, json, s, 0);
    }
    assert Minify(s) == Some([]) && out + [] == out;
    a[into] := '\0';
    assert a[..into] == out;
  }

  method MinifyLiteral(a: array<char>, into: nat, json: nat, ghost out: string, ghost s: string)
    returns (i: nat, j: nat, past: bool, ghost more: string, ghost t: string)
    requires into <= json && Wrote(a, into, out) && Holds(a, json, s) && s != [] && s[0] == '\"'
    modifies a
    ensures i <= j && |t| < |s|
    ensures if past then Minify(s).None? && j == json + |s| + 1
            else Holds(a, j, t) && Wrote(a, i, more) && Prepend(out, Minify(s)) == Prepend(more, Minify(t))
  {
    CopyChar(a, into, json, out, s);
    i, j, past := CopyString(a, into + 1, json + 1, out + "\"", s[1..]);
    more, t := out, s[1..];
    if !past {
      ghost var p := CopyLiteral(s[1..]).value;
      PrependTwice(out, "\"" + p.value, Minify(p.rest));
      Assoc(out, "\"", p.value);
      more, t := out + "\"" + p.value, p.rest;
    }
  }

  /** One turn of the outer loop. */
  method MinifyTurn(a: array<char>, into: nat, json: nat, ghost out: string, ghost s: string)
    returns (i: nat, j: nat, past: bool, ghost more: string, ghost t: string)
    requires into <= json && Wrote(a, into, out) && Holds(a, json, s) && s != []
    modifies a
    ensures i <= j && |t| < |s|
    ensures if past then Minify(s).None? && j > json + |s|
            else Holds(a, j, t) && Wrote(a, i, more) && Prepend(out, Minify(s)) == Prepend(more, Minify(t))
  {
    HoldsTail(a, json, s, 1);
    i, j, past, more, t := into, json, false, out, s[1..];
    if a[j] == ' ' || a[j] == '\t' || a[j] == '\r' || a[j] == '\n' {
      j := j + 1;
    } else if a[j] == '/' && a[j + 1] == '/' {
      t := AfterLine(s[1..]);
      j := SkipLine(a, j + 1, s[1..]);
    } else if a[j] == '/' && a[j + 1] == '*' {
      j, past := SkipComment(a, j, s);
      if !past {
        t := AfterComment(s).value;
      }
    } else if a[j] == '\"' {
      i, j, past, more, t := MinifyLiteral(a, into, json, out, s);
    } else {
      PrependTwice(out, [s[0]], Minify(s[1..]));
      CopyChar(a, i, j, out, s);
      i, j, more := i + 1, j + 1, out + [s[0]];
    }
  }
}

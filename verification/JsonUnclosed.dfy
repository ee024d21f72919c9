/** Texts in which a string literal or a block comment is not closed, found by one pass over the characters. */
module JsonUnclosed {
  import opened CStrings
  import opened JsonMinify

  datatype Mode = Outside | Slash | Line | Block | Star | Literal | Escaped

  /** The mode after a character. */
  function Next(mode: Mode, c: char): Mode {
    match mode
    case Outside => if c == '/' then Slash else if c == '\"' then Literal else Outside
    case Slash => if c == '/' then Line else if c == '*' then Star else if c == '\"' then Literal else Outside
    case Line => if c == '\n' then Outside else Line
    case Block => if c == '*' then Star else Block
    case Star => if c == '/' then Outside else if c == '*' then Star else Block
    case Literal => if c == '\"' then Outside else if c == '\\' then Escaped else Literal
    case Escaped => Literal
  }

  function Scan(mode: Mode, s: string): Mode
    decreases |s|
  {
    if s == [] then mode else Scan(Next(mode, s[0]), s[1..])
  }

  predicate Open(mode: Mode) {
    mode.Block? || mode.Star? || mode.Literal? || mode.Escaped?
  }

  /** The text ends inside of a string literal or a block comment. */
  predicate Unclosed(text: string) {
    Open(Scan(Outside, text))
  }

  lemma {:induction false} LineScanned(s: string)
    ensures Open(Scan(Line, s)) == Unclosed(AfterLine(s))
    decreases |s|
  {
    if s != [] && s[0] != '\n' {
      LineScanned(s[1..]);
    }
  }

  lemma {:induction false} CommentScanned(s: string)
    ensures match AfterComment(s)
            case None => Open(Scan(Block, s))
            case Some(rest) => Scan(Block, s) == Scan(Outside, rest)
    decreases |s|
  {
    if s != [] {
      CommentScanned(s[1..]);
      if s[0] == '*' && |s| > 1 && s[1] != '/' {
        assert Next(Star, s[1]) == Next(Block, s[1]);
      }
    }
  }

  lemma {:induction false} LiteralScanned(s: string)
    ensures match CopyLiteral(s)
            case None => Open(Scan(Literal, s))
            case Some(p) => Scan(Literal, s) == Scan(Outside, p.rest)
    decreases |s|
  {
    if s != [] && s != "\\" && s[0] != '\"' {
      var step := if s[0] == '\\' then 2 else 1;
      LiteralScanned(s[step..]);
      if step == 2 {
        assert s[1..][1..] == s[2..];
      }
    }
  }

  /** A text can be minified exactly if it ends outside of literals and block comments. */
  lemma {:induction false} MinifyUnlessUnclosed(text: string)
    ensures Minify(text).None? <==> Unclosed(text)
    decreases |text|
  {
    if text != [] {
      var s := text[1..];
      if text[0] == '/' && At(text, 1) == '/' {
        LineScanned(s);
        assert Scan(Outside, text) == Scan(Slash, s) == Scan(Line, s);
        MinifyUnlessUnclosed(AfterLine(s));
      } else if text[0] == '/' && At(text, 1) == '*' {
        CommentScanned(s);
        assert AfterComment(text) == AfterComment(s);
        assert Scan(Outside, text) == Scan(Slash, s) == Scan(Block, s);
        if AfterComment(s).Some? {
          MinifyUnlessUnclosed(AfterComment(s).value);
        }
      } else if text[0] == '\"' {
        LiteralScanned(s);
        if CopyLiteral(s).Some? {
          MinifyUnlessUnclosed(CopyLiteral(s).value.rest);
        }
      } else {
        MinifyUnlessUnclosed(s);
        assert Scan(Outside, text) == Scan(Next(Outside, text[0]), s);
        if text[0] == '/' && s == [] {
          assert Scan(Slash, s) == Slash && Scan(Outside, s) == Outside;
        } else if text[0] == '/' {
          assert Next(Slash, s[0]) == Next(Outside, s[0]);
          assert Scan(Outside, text) == Scan(Slash, s) == Scan(Outside, s);
        }
      }
    }
  }

  /** Two texts on which the original goes on behind the terminator. */
  lemma UnclosedWitnesses()
    ensures Unclosed("\"a") && Minify("\"a").None? && Unclosed("/*") && Minify("/*").None?
  {
    assert Scan(Outside, "\"a") == Scan(Literal, "\"a"[1..]) == Scan(Literal, "\"a"[1..][1..]);
    assert Scan(Outside, "/*") == Scan(Slash, "/*"[1..]) == Scan(Star, "/*"[1..][1..]);
    MinifyUnlessUnclosed("\"a");
    MinifyUnlessUnclosed("/*");
  }
}

/** The tokenizer of the TOML reader: where tokens begin, and that they lie inside the text. */
module TomlTokens {
  import opened CStrings
  import opened Digits
  import opened Options

  datatype Kind = DOT | COMMA | EQUAL | LBRACE | RBRACE | NEWLINE | LBRACKET | RBRACKET | STRING

  datatype Token = Token(kind: Kind, ptr: nat, len: nat, eof: bool)

  predicate IsBlank(c: char) {
    c == '\r' || c == ' ' || c == '\t'
  }

  /** The end of the line, where a comment stops. */
  function LineEnd(text: string, p: nat): (q: nat)
    requires p <= |text|
    ensures p <= q <= |text| && (q < |text| ==> text[q] == '\n')
    decreases |text| - p
  {
    if p < |text| && text[p] != '\n' then LineEnd(text, p + 1) else p
  }

  /** Past blanks and comments. */
  function Gap(text: string, p: nat): (q: nat)
    requires p <= |text|
    ensures p <= q <= |text| && (q < |text| ==> !IsBlank(text[q]) && text[q] != '#')
    decreases |text| - p
  {
    if p == |text| then p
    else if text[p] == '#' then Gap(text, LineEnd(text, p + 1))
    else if IsBlank(text[p]) then Gap(text, p + 1)
    else p
  }

  /** What kind of token begins with a character. */
  function KindOf(c: char, dotIsSpecial: bool): Kind {
    if c == '.' && dotIsSpecial then DOT
    else match c
      case ',' => COMMA
      case '=' => EQUAL
      case '{' => LBRACE
      case '}' => RBRACE
      case '[' => LBRACKET
      case ']' => RBRACKET
      case '\n' => NEWLINE
      case _ => STRING
  }

  /** A token of the text: one character for each punctuation mark, any number for a string, none at the end. */
  predicate InText(tok: Token, text: string) {
    tok.ptr + tok.len <= |text|
    && (tok.eof ==> tok.kind == NEWLINE && tok.ptr == |text|)
    && (tok.kind != STRING && tok.kind != NEWLINE ==> tok.len == 1)
  }

  /** The token that follows one: it begins behind blanks and comments, with the character that tells its kind. */
  predicate Follows(next: Token, tok: Token, text: string, dotIsSpecial: bool) {
    InText(next, text) && tok.ptr + tok.len <= |text| && next.ptr == Gap(text, tok.ptr + tok.len)
    && (next.eof <==> next.ptr == |text|)
    && (!next.eof ==> next.kind == KindOf(text[next.ptr], dotIsSpecial) && (next.kind != STRING ==> next.len == 1))
  }

  // String tokens

  /** `strstr` for three equal quotes. */
  function ThreeAt(text: string, q: nat, quote: char): (r: Option<nat>)
    requires q <= |text|
    ensures r.Some? ==> q <= r.value && r.value + 3 <= |text|
    ensures r.Some? ==> text[r.value] == text[r.value + 1] == text[r.value + 2] == quote
    decreases |text| - q
  {
    if q + 3 > |text| then None
    else if text[q] == quote && text[q + 1] == quote && text[q + 2] == quote then Some(q)
    else ThreeAt(text, q + 1, quote)
  }

  /** The last three of a run of quotes. */
  function LastThree(text: string, q: nat, quote: char): (r: nat)
    requires q + 3 <= |text| && quote != NUL
    ensures q <= r && r + 3 <= |text| && (text[q + 2] == quote ==> text[r + 2] == quote)
    decreases |text| - q
  {
    if At(text, q + 3) == quote then LastThree(text, q + 1, quote) else q
  }

  /** The end of a `\'` string: a quote, the end of the line, or the end of the text. */
  function PlainEnd(text: string, q: nat): (r: nat)
    requires q <= |text|
    ensures q <= r <= |text|
    decreases |text| - q
  {
    if q < |text| && text[q] != '\n' && text[q] != '\'' then PlainEnd(text, q + 1) else q
  }

  predicate IsEscape(c: char) {
    c in ['b', 't', 'n', 'f', 'r', '\"', '\\']
  }

  predicate IsHex(c: char) {
    IsDigit(c) || 'A' <= c <= 'F'
  }

  /** How many hexadecimal digits have to follow an escaped character, if it may be escaped. */
  function HexOf(c: char): Option<nat> {
    if c == 'u' then Some(4) else if c == 'U' then Some(8) else if IsEscape(c) then Some(0) else None
  }

  /** The end of a `\"` string, where `hex` digits are required and a backslash may be in front. */
  function QuotedEnd(text: string, q: nat, hex: nat, escape: bool): (r: Option<nat>)
    requires q <= |text|
    ensures r.Some? ==> q <= r.value <= |text|
    decreases |text| - q
  {
    if q == |text| then Some(q)
    else
      var c := text[q];
      if escape then
        match HexOf(c)
        case None => None
        case Some(n) => QuotedEnd(text, q + 1, if n > 0 then n else hex, false)
      else if hex > 0 then
        if IsHex(c) then QuotedEnd(text, q + 1, hex - 1, false) else None
      else if c == '\\' then QuotedEnd(text, q + 1, 0, true)
      else if c == '\'' && At(text, q + 1) == '\'' && At(text, q + 2) == '\'' then None
      else if c == '\n' || c == '\"' then Some(q)
      else QuotedEnd(text, q + 1, 0, false)
  }

  /** Three double quotes without a backslash in front of them. */
  function TripleEnd(text: string, q: nat): (r: Option<nat>)
    requires q <= |text|
    ensures r.Some? ==> q <= r.value && r.value + 3 <= |text|
    ensures r.Some? ==> text[r.value + 2] == '\"'
    decreases |text| - q
  {
    match ThreeAt(text, q, '\"')
    case None => None
    case Some(e) => if e > 0 && text[e - 1] == '\\' then TripleEnd(text, e + 1) else Some(e)
  }

  /** Past blanks. */
  function BlankEnd(text: string, q: nat): (r: nat)
    requires q <= |text|
    ensures q <= r <= |text|
    decreases |text| - q
  {
    if q < |text| && IsBlank(text[q]) then BlankEnd(text, q + 1) else q
  }

  /** The escape sequences between three double quotes are complete; a backslash may end a line. */
  predicate EscapesOk(text: string, p: nat, to: nat, hex: nat, escape: bool)
    requires p <= to <= |text|
    decreases |text| - p
  {
    if p == to then !escape && hex == 0
    else
      var c := text[p];
      if escape then
        match HexOf(c)
        case Some(n) => EscapesOk(text, p + 1, to, if n > 0 then n else hex, false)
        case None => At(text, BlankEnd(text, p)) == '\n' && EscapesOk(text, p + 1, to, hex, false)
      else if hex > 0 then IsHex(c) && EscapesOk(text, p + 1, to, hex - 1, false)
      else EscapesOk(text, p + 1, to, 0, c == '\\')
  }

  /** `scan_digits` succeeds. */
  predicate DigitsAt(text: string, p: nat, n: nat) {
    forall i :: p <= i < p + n ==> IsDigit(At(text, i))
  }

  /** `scan_date` succeeds. */
  predicate IsDate(text: string, p: nat) {
    DigitsAt(text, p, 4) && At(text, p + 4) == '-' && DigitsAt(text, p + 5, 2)
    && At(text, p + 7) == '-' && DigitsAt(text, p + 8, 2)
  }

  /** `scan_time` succeeds. */
  predicate IsTime(text: string, p: nat) {
    DigitsAt(text, p, 2) && At(text, p + 2) == ':' && DigitsAt(text, p + 3, 2)
    && At(text, p + 5) == ':' && DigitsAt(text, p + 6, 2)
  }

  predicate InTimestamp(c: char) {
    IsDigit(c) || c in ['.', ':', '+', '-', 'T', 't', ' ', 'Z', 'z']
  }

  function TimestampEnd(text: string, q: nat): (r: nat)
    requires q <= |text|
    ensures q <= r <= |text|
    decreases |text| - q
  {
    if q < |text| && InTimestamp(text[q]) then TimestampEnd(text, q + 1) else q
  }

  /** Back to the end of what is not a space, but no further than `p`. */
  function Trimmed(text: string, p: nat, q: nat): (r: nat)
    requires p <= q <= |text|
    ensures p <= r <= q
    decreases q
  {
    if q > p && text[q - 1] == ' ' then Trimmed(text, p, q - 1) else q
  }

  predicate IsLiteral(c: char) {
    'A' <= c <= 'Z' || 'a' <= c <= 'z' || IsDigit(c) || c in ['+', '-', '_', '.']
  }

  predicate InLiteral(c: char, dotIsSpecial: bool) {
    IsLiteral(c) && !(c == '.' && dotIsSpecial)
  }

  /** The end of a bare literal. */
  function LiteralEnd(text: string, q: nat, dotIsSpecial: bool): (r: nat)
    requires q <= |text|
    ensures q <= r <= |text| && (r < |text| ==> !InLiteral(text[r], dotIsSpecial))
    decreases |text| - q
  {
    if q < |text| && InLiteral(text[q], dotIsSpecial) then LiteralEnd(text, q + 1, dotIsSpecial) else q
  }

  /** The length of a string between three double quotes. */
  function TripleLen(text: string, p: nat): (r: Option<nat>)
    requires p + 3 <= |text|
    ensures r.Some? ==> r.value >= 6 && p + r.value <= |text| && text[p + r.value - 1] == '\"'
  {
    match TripleEnd(text, p + 3)
    case None => None
    case Some(e) =>
      var q := LastThree(text, e, '\"');
      if EscapesOk(text, p + 3, q, 0, false) then Some(q + 3 - p) else None
  }

  /** `scan_string`: the length of a string token, which is zero if no character of it can be part of a literal. */
  function StringLen(text: string, p: nat, dotIsSpecial: bool): (r: Option<nat>)
    requires p < |text|
    ensures r.Some? ==> p + r.value <= |text|
    ensures r.Some? && text[p] in ['\'', '\"'] ==> r.value >= 2 && text[p + r.value - 1] == text[p]
  {
    if Three(text, p, '\'') then
      match ThreeAt(text, p + 3, '\'')
      case None => None
      case Some(q) => Some(LastThree(text, q, '\'') + 3 - p)
    else if Three(text, p, '\"') then TripleLen(text, p)
    else if text[p] == '\'' then
      var q := PlainEnd(text, p + 1);
      if At(text, q) == '\'' then Some(q + 1 - p) else None
    else if text[p] == '\"' then
      match QuotedEnd(text, p + 1, 0, false)
      case None => None
      case Some(q) => if At(text, q) == '\"' then Some(q + 1 - p) else None
    else if IsDate(text, p) || IsTime(text, p) then Some(Trimmed(text, p, TimestampEnd(text, p)) - p)
    else Some(LiteralEnd(text, p, dotIsSpecial) - p)
  }

  predicate Three(text: string, p: nat, quote: char) {
    At(text, p) == quote && At(text, p + 1) == quote && At(text, p + 2) == quote
  }

  /** `next_token` */
  function NextOf(text: string, tok: Token, dotIsSpecial: bool): (r: Option<Token>)
    requires InText(tok, text)
    ensures r.Some? ==> Follows(r.value, tok, text, dotIsSpecial) && Regular(r.value)
    ensures r.Some? ==> r.value.ptr >= tok.ptr + tok.len
  {
    var p := Gap(text, tok.ptr + tok.len);
    if p == |text| then Some(Token(NEWLINE, p, 0, true))
    else
      var kind := KindOf(text[p], dotIsSpecial);
      if kind != STRING then Some(Token(kind, p, 1, false))
      else match StringLen(text, p, dotIsSpecial)
        case None => None
        case Some(len) => Some(Token(STRING, p, len, false))
  }

  /** A newline token is a real one, not the artificial first one. */
  predicate Regular(tok: Token) {
    tok.kind == NEWLINE && !tok.eof ==> tok.len == 1
  }

  // The same with cursors

  /** What stands at `p` decides where the gap that has come to `p` ends. */
  lemma GapFrom(text: string, p: nat)
    requires p <= |text|
    ensures p == |text| ==> Gap(text, p) == p
    ensures p < |text| && text[p] == '#' ==> Gap(text, p) == Gap(text, LineEnd(text, p + 1))
    ensures p < |text| && text[p] != '#' ==> Gap(text, p) == if IsBlank(text[p]) then Gap(text, p + 1) else p
  {
  }

  lemma LineFrom(text: string, p: nat)
    requires p <= |text|
    ensures LineEnd(text, p) == if p < |text| && text[p] != '\n' then LineEnd(text, p + 1) else p
  {
  }

  method NextToken(text: string, tok: Token, dotIsSpecial: bool) returns (ok: bool, next: Token)
    requires NoNul(text) && InText(tok, text)
    ensures ok == NextOf(text, tok, dotIsSpecial).Some?
    ensures ok ==> next == NextOf(text, tok, dotIsSpecial).value
  {
    hide Gap, LineEnd, StringLen, Follows;
    ok, next := true, tok;
    var p := tok.ptr + tok.len;
    ghost var start := p;
    GapFrom(text, p);
    while p < |text|
      invariant start <= p <= |text| && Gap(text, p) == Gap(text, start) && (p == |text| ==> Gap(text, p) == p)
    {
      GapFrom(text, p);
      if text[p] == '#' {
        ghost var hash := p;
        p := p + 1;
        LineFrom(text, p);
        while p < |text| && text[p] != '\n'
          invariant hash < p <= |text| && LineEnd(text, p) == LineEnd(text, hash + 1)
        {
          LineFrom(text, p);
          p := p + 1;
        }
        LineFrom(text, p);
        GapFrom(text, p);
      } else if dotIsSpecial && text[p] == '.' {
        next := Token(DOT, p, 1, false);
        return;
      } else if text[p] in [',', '=', '{', '}', '[', ']', '\n'] {
        next := Token(KindOf(text[p], false), p, 1, false);
        return;
      } else if text[p] in ['\r', ' ', '\t'] {
        p := p + 1;
        GapFrom(text, p);
      } else {
        var len;
        ok, len := ScanString(text, p, dotIsSpecial);
        next := Token(STRING, p, len, false);
        return;
      }
    }
    next := Token(NEWLINE, |text|, 0, true);
  }

  method FindThree(text: string, p: nat, quote: char) returns (found: bool, q: nat)
    requires p <= |text|
    ensures found == ThreeAt(text, p, quote).Some? && (found ==> q == ThreeAt(text, p, quote).value)
  {
    q := p;
    while q + 3 <= |text|
      invariant q <= |text| && ThreeAt(text, p, quote) == ThreeAt(text, q, quote)
      decreases |text| - q
    {
      if text[q] == quote && text[q + 1] == quote && text[q + 2] == quote {
        return true, q;
      }
      q := q + 1;
    }
    found := false;
  }

  method SkipQuotes(text: string, q: nat, quote: char) returns (r: nat)
    requires q + 3 <= |text| && quote != NUL
    ensures r == LastThree(text, q, quote)
  {
    r := q;
    while At(text, r + 3) == quote
      invariant q <= r && r + 3 <= |text| && LastThree(text, q, quote) == LastThree(text, r, quote)
      decreases |text| - r
    {
      r := r + 1;
    }
  }

  method ScanString(text: string, p: nat, dotIsSpecial: bool) returns (ok: bool, len: nat)
    requires NoNul(text) && p < |text|
    ensures ok == StringLen(text, p, dotIsSpecial).Some?
    ensures ok ==> len == StringLen(text, p, dotIsSpecial).value
  {
    len := 0;
    if At(text, p) == '\'' && At(text, p + 1) == '\'' && At(text, p + 2) == '\'' {
      var q;
      ok, q := FindThree(text, p + 3, '\'');
      if ok {
        q := SkipQuotes(text, q, '\'');
        len := q + 3 - p;
      }
    } else if At(text, p) == '\"' && At(text, p + 1) == '\"' && At(text, p + 2) == '\"' {
      ok, len := ScanTripleQuoted(text, p);
    } else if text[p] == '\'' {
      var q := p + 1;
      while q < |text| && text[q] != '\n' && text[q] != '\''
        invariant p < q <= |text| && PlainEnd(text, p + 1) == PlainEnd(text, q)
      {
        q := q + 1;
      }
      ok := At(text, q) == '\'';
      len := q + 1 - p;
    } else if text[p] == '\"' {
      ok, len := ScanQuoted(text, p);
    } else if IsDate(text, p) || IsTime(text, p) {
      ok := true;
      len := ScanTimestamp(text, p);
    } else {
      ok := true;
      len := ScanLiteral(text, p, dotIsSpecial);
    }
  }

  /** A date or time without quotes, with trailing spaces left out. */
  method ScanTimestamp(text: string, p: nat) returns (len: nat)
    requires p < |text| && (IsDate(text, p) || IsTime(text, p))
    ensures p + len == Trimmed(text, p, TimestampEnd(text, p)) && 0 < len
  {
    var q := p;
    while q < |text| && (IsDigit(text[q]) || text[q] in ['.', ':', '+', '-', 'T', 't', ' ', 'Z', 'z'])
      invariant p <= q <= |text| && TimestampEnd(text, p) == TimestampEnd(text, q)
    {
      q := q + 1;
    }
    assert IsDigit(At(text, p));
    // the first character is a digit
    while text[q - 1] == ' '
      invariant p < q <= |text| && Trimmed(text, p, TimestampEnd(text, p)) == Trimmed(text, p, q)
      decreases q
    {
      q := q - 1;
    }
    len := q - p;
  }

  /** A bare literal; nothing at all if the first character cannot be part of one. */
  method ScanLiteral(text: string, p: nat, dotIsSpecial: bool) returns (len: nat)
    requires p < |text|
    ensures p + len == LiteralEnd(text, p, dotIsSpecial)
    ensures len == 0 <==> !InLiteral(text[p], dotIsSpecial)
  {
    var q := p;
    while q < |text| && text[q] != '\n' && IsLiteral(text[q]) && !(text[q] == '.' && dotIsSpecial)
      invariant p <= q <= |text| && LiteralEnd(text, p, dotIsSpecial) == LiteralEnd(text, q, dotIsSpecial)
    {
      q := q + 1;
    }
    len := q - p;
  }

  method ScanQuoted(text: string, p: nat) returns (ok: bool, len: nat)
    requires NoNul(text) && p < |text| && text[p] == '\"'
    ensures var r := QuotedEnd(text, p + 1, 0, false);
            ok == (r.Some? && At(text, r.value) == '\"') && (ok ==> p + len == r.value + 1)
  {
    var q, hexreq, escape := p + 1, 0, false;
    while q < |text|
      invariant p < q <= |text| && QuotedEnd(text, p + 1, 0, false) == QuotedEnd(text, q, hexreq, escape)
      invariant escape ==> hexreq == 0
    {
      var c := text[q];
      if escape {
        escape := false;
        if c == 'u' {
          hexreq := 4;
        } else if c == 'U' {
          hexreq := 8;
        } else if !IsEscape(c) {
          return false, 0;
        }
      } else if hexreq > 0 {
        hexreq := hexreq - 1;
        if !IsHex(c) {
          return false, 0;
        }
      } else if c == '\\' {
        escape := true;
      } else if c == '\'' {
        if At(text, q + 1) == '\'' && At(text, q + 2) == '\'' {
          return false, 0;
        }
      } else if c == '\n' || c == '\"' {
        break;
      }
      q := q + 1;
    }
    ok := At(text, q) == '\"';
    len := q + 1 - p;
  }

  method FindTripleEnd(text: string, p: nat) returns (ok: bool, q: nat)
    requires NoNul(text) && 0 < p <= |text|
    ensures ok == TripleEnd(text, p).Some? && (ok ==> q == TripleEnd(text, p).value)
  {
    ok, q := FindThree(text, p, '\"');
    while ok && text[q - 1] == '\\'
      invariant ok ==> p <= q && q + 3 <= |text|
      invariant TripleEnd(text, p) == if ok then TripleFrom(text, q) else None
      decreases if ok then |text| - q + 1 else 0
    {
      ok, q := FindThree(text, q + 1, '\"');
    }
  }

  /** The same, where three quotes were found. */
  function TripleFrom(text: string, e: nat): Option<nat>
    requires e + 3 <= |text|
  {
    if e > 0 && text[e - 1] == '\\' then TripleEnd(text, e + 1) else Some(e)
  }

  method ScanTripleQuoted(text: string, p: nat) returns (ok: bool, len: nat)
    requires NoNul(text) && p + 3 <= |text|
    ensures ok == TripleLen(text, p).Some? && (ok ==> len == TripleLen(text, p).value)
  {
    var q;
    ok, q := FindTripleEnd(text, p + 3);
    if !ok {
      return false, 0;
    }
    q := SkipQuotes(text, q, '\"');
    ok := CheckEscapes(text, p + 3, q);
    len := q + 3 - p;
  }

  method CheckEscapes(text: string, from: nat, to: nat) returns (ok: bool)
    requires from <= to <= |text|
    ensures ok == EscapesOk(text, from, to, 0, false)
  {
    var p, hexreq, escape := from, 0, false;
    while p < to
      invariant from <= p <= to && EscapesOk(text, from, to, 0, false) == EscapesOk(text, p, to, hexreq, escape)
    {
      var c := text[p];
      if escape {
        escape := false;
        if c == 'u' {
          hexreq := 4;
        } else if c == 'U' {
          hexreq := 8;
        } else if !IsEscape(c) {
          var q := p;
          while q < |text| && IsBlank(text[q])
            invariant q <= |text| && BlankEnd(text, p) == BlankEnd(text, q)
            decreases |text| - q
          {
            q := q + 1;
          }
          if At(text, q) != '\n' {
            return false;
          }
        }
      } else if hexreq > 0 {
        hexreq := hexreq - 1;
        if !IsHex(c) {
          return false;
        }
      } else if c == '\\' {
        escape := true;
      }
      p := p + 1;
    }
    ok := !escape && hexreq == 0;
  }
}

/** `parse_string`: a first pass that measures the literal and a second one that decodes it into a new buffer. */
module JsonParseString {
  import opened CStrings
  import opened JsonDecode
  import opened JsonParse
  import opened JsonTree
  import opened Options

  /** The first pass, behind the opening quote; it fails if the text ends after a backslash. */
  method ScanLiteral(s: string) returns (ok: bool, end: nat, len: nat)
    ensures ok == ScanLength(s).Some?
    ensures ok ==> end == ScanLength(s).value && len == Counted(s, end)
  {
    end, len, ok := 0, 0, true;
    ghost var all := ScanLength(s);
    assert s[0..] == s;
    while At(s, end) != '\"' && end < |s|
      invariant end <= |s| && ok
      invariant all == Further(end, ScanLength(s[end..]))
      invariant all.Some? ==> Counted(s, all.value) == len + Counted(s[end..], all.value - end)
      decreases |s| - end
    {
      len := len + 1;
      if s[end] == '\\' && end + 1 == |s| {
        return false, end, len;
      }
      var step := if s[end] == '\\' then 2 else 1;
      ScanTurn(s, end, step, all);
      end := end + step;
    }
    assert ScanLength(s[end..]) == Some(0);
  }

  lemma ScanTurn(s: string, end: nat, step: nat, all: Option<nat>)
    requires end < end + step <= |s| && s[end] != '\"' && step == if s[end] == '\\' then 2 else 1
    requires all == Further(end, ScanLength(s[end..]))
    ensures all == Further(end + step, ScanLength(s[end + step..]))
    ensures all.Some? ==> end + step <= all.value <= |s|
    ensures all.Some? ==> Counted(s[end..], all.value - end) == 1 + Counted(s[end + step..], all.value - end - step)
  {
    assert s[end..][0] == s[end] && s[end..][step..] == s[end + step..];
  }

  function Further(k: nat, n: Option<nat>): Option<nat> {
    match n
    case None => None
    case Some(m) => Some(k + m)
  }

  /** The bytes of a code point, written from the last to the first. */
  method WriteUtf8(out: array<char>, at: nat, code: nat, ghost so: string) returns (next: nat)
    requires code < 0x11_0000
    requires Starts(out, so) && at == |so| && at + |Utf8(code)| <= out.Length
    modifies out
    ensures next == at + |Utf8(code)| && Starts(out, so + Utf8(code))
  {
    var len := if code < 0x80 then 1 else if code < 0x800 then 2 else if code < 0x1_0000 then 3 else 4;
    next := at + len;
    var uc := code;
    if len == 4 {
      out[at + 3] := (0x80 + uc % 64) as char;
      uc := uc / 64;
    }
    if len >= 3 {
      out[at + 2] := (0x80 + uc % 64) as char;
      uc := uc / 64;
    }
    if len >= 2 {
      out[at + 1] := (0x80 + uc % 64) as char;
      uc := uc / 64;
    }
    out[at] := (uc + FirstByteMark(len)) as char;
    Utf8Bytes(code, len);
    hide Utf8;
    assert out[at..next] == Utf8(code);
    assert out[..next] == out[..at] + out[at..next];
  }

  /** The bytes as the divisions give them. */
  lemma Utf8Bytes(code: nat, len: nat)
    requires code < 0x11_0000
    requires len == if code < 0x80 then 1 else if code < 0x800 then 2 else if code < 0x1_0000 then 3 else 4
    ensures |Utf8(code)| == len
    ensures var s, u, v, w := Utf8(code), code / 64, code / 64 / 64, code / 64 / 64 / 64;
            && s[0] as int == FirstByteMark(len) + (if len == 1 then code else if len == 2 then u
                                                    else if len == 3 then v else w)
            && (len > 1 ==> s[len - 1] as int == 0x80 + code % 64)
            && (len > 2 ==> s[len - 2] as int == 0x80 + u % 64)
            && (len > 3 ==> s[len - 3] as int == 0x80 + v % 64)
  {
    Shifts(code);
  }

  function FirstByteMark(len: nat): nat {
    if len <= 1 then 0 else if len == 2 then 0xC0 else if len == 3 then 0xE0 else 0xF0
  }

  lemma Shifts(code: nat)
    ensures code / 64 / 64 == code / 4096 && code / 64 / 64 / 64 == code / 262144
  {
  }

  /** What has been decoded in front of what remains to be decoded. */
  function Continue(so: string, read: nat, rest: Option<Piece>): Option<Piece> {
    match rest
    case None => None
    case Some(p) => Some(Piece(so + p.text, read + p.used))
  }

  lemma DecodeUnfolds(s: string, n: nat, p: Piece)
    requires 0 < n <= |s| && DecodeStep(s, n) == Some(p) && p.used <= n
    ensures Decode(s, n) == Continue(p.text, p.used, Decode(s[p.used..], n - p.used))
  {
    hide DecodeStep;
  }

  lemma ContinueTwice(so: string, read: nat, text: string, used: nat, rest: Option<Piece>)
    ensures Continue(so, read, Continue(text, used, rest)) == Continue(so + text, read + used, rest)
  {
    if rest.Some? {
      assert so + (text + rest.value.text) == so + text + rest.value.text;
    }
  }

  /** One turn of the second pass: a character copied or an escape sequence decoded. */
  method DecodePiece(s: string, n: nat, out: array<char>, at: nat, ghost so: string)
    returns (ok: bool, used: nat, next: nat)
    requires 0 < n <= |s| && IsText(s)
    requires Starts(out, so) && at == |so|
    requires DecodeStep(s, n).Some? ==> at + |DecodeStep(s, n).value.text| <= out.Length
    modifies out
    ensures ok == DecodeStep(s, n).Some?
    ensures ok ==> used == DecodeStep(s, n).value.used && next == |so + DecodeStep(s, n).value.text|
                   && Starts(out, so + DecodeStep(s, n).value.text)
  {
    ok, used, next := true, 2, at + 1;
    if s[0] != '\\' {
      Store(out, at, s[0], so);
      used := 1;
    } else {
      var c := At(s, 1);
      if c == 'b' {
        Store(out, at, BACKSPACE, so);
      } else if c == 'f' {
        Store(out, at, FORM_FEED, so);
      } else if c == 'n' {
        Store(out, at, '\n', so);
      } else if c == 'r' {
        Store(out, at, '\r', so);
      } else if c == 't' {
        Store(out, at, '\t', so);
      } else if c == '\"' || c == '\\' || c == '/' {
        Store(out, at, c, so);
      } else if c == 'u' {
        ok, used, next := DecodeUnit(s, n, out, at, so);
      } else {
        ok := false;
      }
    }
  }

  method DecodeUnit(s: string, n: nat, out: array<char>, at: nat, ghost so: string)
    returns (ok: bool, used: nat, next: nat)
    requires Starts(out, so) && at == |so|
    requires DecodeUnicode(s, n).Some? ==> at + |DecodeUnicode(s, n).value.text| <= out.Length
    modifies out
    ensures ok == DecodeUnicode(s, n).Some?
    ensures ok ==> used == DecodeUnicode(s, n).value.used && next == |so + DecodeUnicode(s, n).value.text|
                   && Starts(out, so + DecodeUnicode(s, n).value.text)
  {
    var code;
    ok, code, used := ReadUnit(s, n);
    next := at;
    if ok {
      next := WriteUtf8(out, at, code, so);
    }
  }

  /** The code point of `\\uXXXX` or of a surrogate pair. */
  method ReadUnit(s: string, n: nat) returns (ok: bool, uc: nat, used: nat)
    ensures !ok ==> DecodeUnicode(s, n) == None
    ensures ok ==> uc < 0x11_0000 && DecodeUnicode(s, n) == Some(Piece(Utf8(uc), used))
  {
    uc, used, ok := Hex4(s, 2), 6, false;
    if 5 >= n {
      return;
    }
    if 0xDC00 <= uc <= 0xDFFF || uc == 0 {
      return;
    }
    if 0xD800 <= uc <= 0xDBFF {
      if 11 > n {
        return;
      }
      if At(s, 6) != '\\' || At(s, 7) != 'u' {
        return;
      }
      var uc2 := Hex4(s, 8);
      used := 12;
      if uc2 < 0xDC00 || uc2 > 0xDFFF {
        return;
      }
      uc := PairCode(uc, uc2);
    }
    ok := true;
  }

  /** The code point of a surrogate pair; the masks keep the low ten bits. */
  function PairCode(high: nat, low: nat): (code: nat)
    requires 0xD800 <= high <= 0xDBFF && 0xDC00 <= low <= 0xDFFF
    ensures code == 0x1_0000 + (high - 0xD800) * 0x400 + (low - 0xDC00) < 0x11_0000
  {
    0x1_0000 + (high % 0x400 * 0x400 + low % 0x400)
  }

  /** The state of the second pass: what is decoded so far, what is read, and that the rest fits. */
  ghost predicate Decoding(s: string, n: nat, all: Option<Piece>, so: string, read: nat, room: nat) {
    n <= |s| && ScanLength(s) == Some(n) && all == Continue(so, read, Decode(s, n)) && |so| + Counted(s, n) < room
  }

  lemma DecodingStep(s: string, n: nat, all: Option<Piece>, so: string, read: nat, room: nat)
    requires n > 0 && Decoding(s, n, all, so, read, room)
    ensures DecodeStep(s, n).None? ==> all == None
    ensures DecodeStep(s, n).Some? ==>
              var p := DecodeStep(s, n).value;
              0 < p.used <= n && |so| + |p.text| < room
              && Decoding(s[p.used..], n - p.used, all, so + p.text, read + p.used, room)
  {
    hide DecodeStep, ScanLength, Counted;
    if DecodeStep(s, n).Some? {
      hide Decode;
      var p := DecodeStep(s, n).value;
      StepAligned(s, n, p);
      DecodeUnfolds(s, n, p);
      ContinueTwice(so, read, p.text, p.used, Decode(s[p.used..], n - p.used));
    }
  }

  lemma RestIsText(s: string, k: nat)
    requires IsText(s) && k <= |s|
    ensures IsText(s[k..])
  {
  }

  lemma DropTwice(s: string, a: nat, b: nat)
    requires a + b <= |s|
    ensures s[a..][b..] == s[a + b..]
  {
  }

  /** One turn of the second pass, at `ptr`. */
  method DecodeTurn(s: string, n: nat, ptr: nat, out: array<char>, at: nat, ghost so: string,
                    ghost all: Option<Piece>)
    returns (ok: bool, ptr': nat, next: nat, ghost more: string)
    requires ptr < n <= |s| && IsText(s) && Decoding(s[ptr..], n - ptr, all, so, ptr, out.Length)
    requires Starts(out, so) && at == |so|
    modifies out
    ensures !ok ==> all == None
    ensures ok ==> ptr < ptr' <= n && Decoding(s[ptr'..], n - ptr', all, more, ptr', out.Length)
    ensures ok ==> Starts(out, more) && next == |more|
  {
    RestIsText(s, ptr);
    hide DecodeStep, IsText, Starts, Decoding;
    ghost var step := DecodeStep(s[ptr..], n - ptr);
    DecodingStep(s[ptr..], n - ptr, all, so, ptr, out.Length);
    var used;
    ok, used, next := DecodePiece(s[ptr..], n - ptr, out, at, so);
    ptr' := ptr + used;
    more := so;
    if ok {
      more := so + step.value.text;
      DropTwice(s, ptr, used);
    }
  }

  /** The second pass. */
  method DecodeLiteral(s: string, n: nat, len: nat) returns (ok: bool, out: array<char>, ptr: nat)
    requires IsText(s) && ScanLength(s) == Some(n) && len == Counted(s, n)
    ensures ok == Decode(s, n).Some?
    ensures out.Length == len + 1
    ensures ok ==> ptr == n && Holds(out, Decode(s, n).value.text)
  {
    out := new char[len + 1];
    ptr, ok := 0, true;
    var at := 0;
    ghost var so := "";
    ghost var all := Decode(s, n);
    assert s[0..] == s;
    Nothing(all);
    while ptr < n
      invariant ptr <= n && Decoding(s[ptr..], n - ptr, all, so, ptr, len + 1)
      invariant at == |so| && Starts(out, so)
    {
      ok, ptr, at, so := DecodeTurn(s, n, ptr, out, at, so, all);
      if !ok {
        return;
      }
    }
    assert so + "" == so;
    Terminate(out, at, so);
  }

  lemma Nothing(all: Option<Piece>)
    ensures Continue("", 0, all) == all
  {
    if all.Some? {
      assert "" + all.value.text == all.value.text;
    }
  }

  /** The whole function: the decoded C string and where reading goes on. */
  method ParseLiteral(s: string) returns (ok: bool, out: array<char>, next: nat)
    requires IsText(s)
    ensures ok == JsonParse.ParseString(s).Some?
    ensures ok ==> Holds(out, JsonParse.ParseString(s).value.value)
    ensures ok ==> next <= |s| && s[next..] == JsonParse.ParseString(s).value.rest
    ensures ok ==> next == |s| || s[next - 1] == '\"'
  {
    out := new char[0];
    next := 0;
    if At(s, 0) != '\"' {
      return false, out, next;
    }
    var t := s[1..];
    var n, len;
    ok, n, len := ScanLiteral(t);
    if !ok {
      return;
    }
    ok, out, next := DecodeLiteral(t, n, len);
    ScanStops(t, n);
    DecodeFits(t, n);
    if At(t, next) == '\"' {
      next := next + 1;
    }
    next := next + 1;
    assert ok ==> t[next - 1..] == s[next..];
  }

  /** The first pass stops at a quote or at the end of the text. */
  lemma {:induction false} ScanStops(s: string, n: nat)
    requires ScanLength(s) == Some(n)
    ensures n == |s| || s[n] == '\"'
    decreases |s|
  {
    if s != [] && s[0] != '\"' {
      var step := if s[0] == '\\' then 2 else 1;
      ScanStops(s[step..], n - step);
    }
  }
}

/** The UTF-8 codec of the TOML reader: one to six bytes, with surrogates and two noncharacters refused. */
module TomlUtf8 {
  import opened Options
  import opened Utf8Codecs

  predicate Accepted(code: int) {
    0 <= code <= 0x7FFF_FFFF && !(0xD800 <= code <= 0xDFFF) && code != 0xFFFE && code != 0xFFFF
  }

  /** The number of bytes of the shortest form. */
  function Length(code: nat): (k: nat)
    requires code <= 0x7FFF_FFFF
    ensures 1 <= k <= 6
  {
    if code <= 0x7F then 1 else if code <= 0x7FF then 2 else if code <= 0xFFFF then 3
    else if code <= 0x1F_FFFF then 4 else if code <= 0x3FF_FFFF then 5 else 6
  }

  /** The continuation bytes of the last `k` groups of six bits. */
  function Tails(code: nat, k: nat): (s: seq<Byte>)
    ensures |s| == k
    decreases k
  {
    if k == 0 then [] else Tails(code / 64, k - 1) + [Tail(code)]
  }

  /** `code >> 6 * k` */
  function Shift6(code: nat, k: nat): nat
    decreases k
  {
    if k == 0 then code else Shift6(code / 64, k - 1)
  }

  /** The mark of a first byte in a form of `k` bytes. */
  function Mark(k: nat): Byte
    requires 1 <= k <= 6
  {
    if k == 1 then 0 else if k == 2 then 0xC0 else if k == 3 then 0xE0 else if k == 4 then 0xF0
    else if k == 5 then 0xF8 else 0xFC
  }

  /** The number of values that a first byte with that mark can carry. */
  function Room(k: nat): (r: nat)
    requires 1 <= k <= 6
    ensures r > 0 && Mark(k) + r <= 256
  {
    if k == 1 then 0x80 else if k == 2 then 0x20 else if k == 3 then 0x10 else if k == 4 then 0x08
    else if k == 5 then 0x04 else 0x02
  }

  lemma Shifts(code: nat)
    ensures Shift6(code, 0) == code && Shift6(code, 1) == code / 64 && Shift6(code, 2) == code / 4096
    ensures Shift6(code, 3) == code / 0x4_0000 && Shift6(code, 4) == code / 0x100_0000
    ensures Shift6(code, 5) == code / 0x4000_0000
  {
    assert code / 64 / 64 == code / 4096 && code / 4096 / 64 == code / 0x4_0000;
    assert code / 0x4_0000 / 64 == code / 0x100_0000 && code / 0x100_0000 / 64 == code / 0x4000_0000;
  }

  /** The first byte of the shortest form. */
  lemma FirstFits(code: nat)
    requires code <= 0x7FFF_FFFF
    ensures Shift6(code, Length(code) - 1) < Room(Length(code))
  {
    Shifts(code);
  }

  lemma {:induction false} TailAt(code: nat, k: nat, j: nat)
    requires j < k
    ensures Tails(code, k)[k - 1 - j] == Tail(Shift6(code, j))
    decreases k
  {
    if j > 0 {
      TailAt(code / 64, k - 1, j - 1);
    }
  }

  function Encode(code: nat): (s: seq<Byte>)
    requires code <= 0x7FFF_FFFF
    ensures |s| == Length(code)
  {
    var k := Length(code);
    FirstFits(code);
    [Mark(k) + Shift6(code, k - 1)] + Tails(code, k - 1)
  }

  /** `toml_ucs_to_utf8`: the number of bytes written, or -1. */
  method UcsToUtf8(code: int, buf: array<Byte>) returns (n: int)
    requires buf.Length == 6
    modifies buf
    ensures n == -1 <==> !Accepted(code)
    ensures Accepted(code) ==> n == Length(code) && buf[..n] == Encode(code)
  {
    if 0xD800 <= code <= 0xDFFF {
      return -1;
    }
    if 0xFFFE <= code <= 0xFFFF {
      return -1;
    }
    if code < 0 {
      return -1;
    }
    if code <= 0x7F {
      buf[0] := code;
      n := 1;
    } else if code <= 0x7FF {
      buf[0], buf[1] := 0xC0 + code / 64, Tail(code);
      n := 2;
    } else if code <= 0xFFFF {
      buf[0], buf[1], buf[2] := 0xE0 + code / 4096, Tail(code / 64), Tail(code);
      n := 3;
    } else if code <= 0x1F_FFFF {
      buf[0], buf[1], buf[2], buf[3] := 0xF0 + code / 0x4_0000, Tail(code / 4096), Tail(code / 64), Tail(code);
      n := 4;
    } else if code <= 0x3FF_FFFF {
      buf[0], buf[1], buf[2] := 0xF8 + code / 0x100_0000, Tail(code / 0x4_0000), Tail(code / 4096);
      buf[3], buf[4] := Tail(code / 64), Tail(code);
      n := 5;
    } else if code <= 0x7FFF_FFFF {
      buf[0], buf[1], buf[2] := 0xFC + code / 0x4000_0000, Tail(code / 0x100_0000), Tail(code / 0x4_0000);
      buf[3], buf[4], buf[5] := Tail(code / 4096), Tail(code / 64), Tail(code);
      n := 6;
    } else {
      return -1;
    }
    EncodedBytes(code);
    assert buf[..n] == Encode(code);
  }

  /** The shortest form written out. */
  lemma EncodedBytes(code: nat)
    requires code <= 0x7FFF_FFFF
    ensures var k, s := Length(code), Encode(code);
            s[0] == Mark(k) + (if k == 1 then code else if k == 2 then code / 64 else if k == 3 then code / 4096
                               else if k == 4 then code / 0x4_0000 else if k == 5 then code / 0x100_0000
                               else code / 0x4000_0000)
            && (k > 1 ==> s[k - 1] == Tail(code))
            && (k > 2 ==> s[k - 2] == Tail(code / 64))
            && (k > 3 ==> s[k - 3] == Tail(code / 4096))
            && (k > 4 ==> s[k - 4] == Tail(code / 0x4_0000))
            && (k > 5 ==> s[k - 5] == Tail(code / 0x100_0000))
  {
    var k := Length(code);
    Shifts(code);
    hide Tails, Shift6;
    if k > 1 {
      TailAt(code, k - 1, 0);
    }
    if k > 2 {
      TailAt(code, k - 1, 1);
    }
    if k > 3 {
      TailAt(code, k - 1, 2);
    }
    if k > 4 {
      TailAt(code, k - 1, 3);
    }
    if k > 5 {
      TailAt(code, k - 1, 4);
    }
  }

  /** Up to four bytes it is the form that the lexer and the printer use. */
  lemma SameEncoding(code: nat)
    requires code < 0x20_0000
    ensures Encode(code) == Utf8Codecs.Encode(code)
  {
    EncodedBytes(code);
    hide Tails, Shift6;
    assert code / 4096 == code / 64 / 64 && code / 0x4_0000 == code / 64 / 64 / 64;
  }

  /** The first and the last code of each longer form. */
  lemma LongForms()
    ensures Encode(0x20_0000) == [0xF8, 0x88, 0x80, 0x80, 0x80]
    ensures Encode(0x3FF_FFFF) == [0xFB, 0xBF, 0xBF, 0xBF, 0xBF]
    ensures Encode(0x400_0000) == [0xFC, 0x84, 0x80, 0x80, 0x80, 0x80]
    ensures Encode(0x7FFF_FFFF) == [0xFD, 0xBF, 0xBF, 0xBF, 0xBF, 0xBF]
  {
    EncodedBytes(0x20_0000);
    EncodedBytes(0x3FF_FFFF);
    EncodedBytes(0x400_0000);
    EncodedBytes(0x7FFF_FFFF);
    hide Tails, Shift6;
  }

  // Decoding

  /** The bits of `k` continuation bytes from index `i` on, behind those in `v`; nothing if one of them is not. */
  function Continue(v: nat, s: seq<Byte>, i: nat, k: nat): Option<nat>
    decreases k
  {
    if k == 0 then Some(v)
    else if At(s, i) / 64 != 2 then None
    else Continue(v * 64 + At(s, i) % 64, s, i + 1, k - 1)
  }

  /** The number of bytes that a first byte announces, or 0. */
  function Announced(b: Byte): (k: nat)
    ensures k <= 6
  {
    if b / 128 == 0 then 1 else if b / 32 == 0x6 then 2 else if b / 16 == 0xE then 3 else if b / 8 == 0x1E then 4
    else if b / 4 == 0x3E then 5 else if b / 2 == 0x7E then 6 else 0
  }

  /** The character that a text of `len` bytes begins with and how long it is. */
  function Decode(s: seq<Byte>, len: int): Option<Char> {
    var b := At(s, 0);
    var k := Announced(b);
    if k == 0 || len < k then None
    else match Continue(b % Room(k), s, 1, k - 1)
      case None => None
      case Some(v) => Some(Char(v, k))
  }

  /** One of the loops over the continuation bytes. */
  method ReadTails(v: nat, s: seq<Byte>, i: nat, k: nat) returns (r: Option<nat>)
    ensures r == Continue(v, s, i, k)
  {
    var w: nat := v;
    var j: nat := 0;
    while j < k
      invariant 0 <= j <= k && Continue(w, s, i + j, k - j) == Continue(v, s, i, k)
    {
      if At(s, i + j) / 64 != 2 {
        return None;
      }
      w := w * 64 + At(s, i + j) % 64;
      j := j + 1;
    }
    r := Some(w);
  }

  /** `toml_utf8_to_ucs`: the bytes consumed, or -1. */
  method Utf8ToUcs(s: seq<Byte>, len: int) returns (used: int, code: nat)
    ensures used == -1 <==> Decode(s, len) == None
    ensures used != -1 ==> used > 0 && Decode(s, len) == Some(Char(code, used))
  {
    var b := At(s, 0);
    code := 0;
    var k: nat;
    if b / 128 == 0 {
      k := 1;
    } else if b / 32 == 0x6 {
      k := 2;
    } else if b / 16 == 0xE {
      k := 3;
    } else if b / 8 == 0x1E {
      k := 4;
    } else if b / 4 == 0x3E {
      k := 5;
    } else if b / 2 == 0x7E {
      k := 6;
    } else {
      return -1, code;
    }
    if len < k {
      return -1, code;
    }
    var r := ReadTails(b % Room(k), s, 1, k - 1);
    if r == None {
      return -1, code;
    }
    used, code := k, r.value;
  }

  lemma {:induction false} ContinueUndoesTails(code: nat, k: nat, s: seq<Byte>, i: nat)
    requires i + k <= |s| && forall j :: 0 <= j < k ==> s[i + j] == Tails(code, k)[j]
    ensures Continue(Shift6(code, k), s, i, k) == Some(code)
    decreases k
  {
    if k > 0 {
      assert Tails(code, k)[k - 1] == Tail(code);
      var t := Tails(code / 64, k - 1);
      forall j | 0 <= j < |t|
        ensures s[i + j] == t[j]
      {
        assert Tails(code, k)[j] == t[j];
      }
      ContinueUndoesTails(code / 64, k - 1, s, i);
      ContinueOneMore(Shift6(code, k), s, i, k - 1, code / 64);
    }
  }

  lemma {:induction false} ContinueOneMore(v: nat, s: seq<Byte>, i: nat, k: nat, w: nat)
    requires Continue(v, s, i, k) == Some(w)
    ensures Continue(v, s, i, k + 1)
         == if At(s, i + k) / 64 != 2 then None else Some(w * 64 + At(s, i + k) % 64)
    decreases k
  {
    if k > 0 {
      ContinueOneMore(v * 64 + At(s, i) % 64, s, i + 1, k - 1, w);
    }
  }

  /** The decoder undoes the encoder on every code, whatever follows. */
  lemma DecodeUndoesEncode(code: nat, rest: seq<Byte>, len: int)
    requires code <= 0x7FFF_FFFF && len >= Length(code)
    ensures Decode(Encode(code) + rest, len) == Some(Char(code, Length(code)))
  {
    var k := Length(code);
    var s := Encode(code) + rest;
    FirstFits(code);
    assert s[0] == Encode(code)[0];
    assert Announced(s[0]) == k && s[0] % Room(k) == Shift6(code, k - 1);
    var t := Tails(code, k - 1);
    forall j | 0 <= j < |t|
      ensures s[1 + j] == t[j]
    {
      assert s[1 + j] == Encode(code)[1 + j];
    }
    ContinueUndoesTails(code, k - 1, s, 1);
  }

  // The other way round

  lemma {:induction false} TailsUndoContinue(v: nat, s: seq<Byte>, i: nat, k: nat, w: nat)
    requires Continue(v, s, i, k) == Some(w) && i + k <= |s|
    ensures Shift6(w, k) == v && s[i..i + k] == Tails(w, k)
    decreases k
  {
    if k > 0 {
      ContinueSplit(v, s, i, k - 1, w);
      TailsUndoContinue(v, s, i, k - 1, w / 64);
      assert s[i..i + k] == s[i..i + k - 1] + [s[i + k - 1]];
    }
  }

  lemma {:induction false} ContinueSplit(v: nat, s: seq<Byte>, i: nat, k: nat, w: nat)
    requires Continue(v, s, i, k + 1) == Some(w)
    ensures Continue(v, s, i, k) == Some(w / 64) && At(s, i + k) == Tail(w)
    decreases k
  {
    if k > 0 {
      ContinueSplit(v * 64 + At(s, i) % 64, s, i + 1, k - 1, w);
    }
  }

  /** Encoding what was decoded gives the bytes back exactly if they are the shortest form. */
  lemma EncodeUndoesDecode(s: seq<Byte>, len: int)
    requires len <= |s| && Decode(s, len).Some?
    ensures var c := Decode(s, len).value;
            c.code <= 0x7FFF_FFFF && c.used <= |s|
            && (Encode(c.code) == s[..c.used] <==> Length(c.code) == c.used)
  {
    var b, c := At(s, 0), Decode(s, len).value;
    var k := c.used;
    var v := b % Room(k);
    TailsUndoContinue(v, s, 1, k - 1, c.code);
    ShiftBound(c.code, k - 1, v);
    assert s[..k] == [s[0]] + s[1..1 + (k - 1)];
    assert b == Mark(k) + v;
  }

  lemma ShiftBound(w: nat, k: nat, v: nat)
    requires k <= 5 && Shift6(w, k) == v
    requires v < Room(k + 1)
    ensures w <= 0x7FFF_FFFF
  {
    Shifts(w);
  }
}

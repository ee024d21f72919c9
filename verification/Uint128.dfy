/** 128-bit integers as text: a formatter in chunks of 19 digits, and a parser for every base. */
module Uint128 {
  import opened CStrings
  import opened Digits

  const MAX: nat := 0xFFFF_FFFF_FFFF_FFFF_FFFF_FFFF_FFFF_FFFF
  const D19: nat := 1_0000_0000_0000_0000_000
  const D38: nat := 1_0000_0000_0000_0000_0000_0000_0000_0000_0000_00
  const TWO64: nat := 0x1_0000_0000_0000_0000
  const TWO127: nat := 0x8000_0000_0000_0000_0000_0000_0000_0000

  // Formatting

  function Zeros(n: nat): (s: string)
    ensures |s| == n
  {
    if n == 0 then "" else Zeros(n - 1) + "0"
  }

  /** Exactly `k` digits, with leading zeros. */
  function Padded(n: nat, k: nat): (s: string)
    ensures |s| == k
    decreases k, n
  {
    if k == 0 then "" else Padded(n / 10, k - 1) + [('0' as int + n % 10) as char]
  }

  /** The digits of a number are those of its quotient and the padded ones of its remainder. */
  lemma {:induction false} DecimalSplits(q: nat, r: nat, k: nat)
    requires q > 0 && r < Pow10(k)
    ensures Decimal(q * Pow10(k) + r) == Decimal(q) + Padded(r, k)
    decreases k
  {
    if k > 0 {
      var n := q * Pow10(k) + r;
      assert q * Pow10(k) == 10 * (q * Pow10(k - 1));
      assert q * Pow10(k - 1) > 0;
      assert n / 10 == q * Pow10(k - 1) + r / 10 && n % 10 == r % 10;
      DecimalSplits(q, r / 10, k - 1);
    } else {
      assert Decimal(q) + "" == Decimal(q);
    }
  }

  lemma {:induction false} PaddedZero(k: nat)
    ensures Padded(0, k) == Zeros(k)
    decreases k
  {
    if k > 0 {
      PaddedZero(k - 1);
    }
  }

  /** `%019llu`: zeros in front of the decimal text, up to 19 characters. */
  lemma {:induction false} ZeroFilled(n: nat, k: nat)
    requires n < Pow10(k) && k > 0
    ensures |Decimal(n)| <= k && Zeros(k - |Decimal(n)|) + Decimal(n) == Padded(n, k)
    decreases k
  {
    if n < 10 {
      PaddedZero(k - 1);
    } else {
      assert k > 1;
      ZeroFilled(n / 10, k - 1);
      var z, d, last := Zeros(k - |Decimal(n)|), Decimal(n / 10), [('0' as int + n % 10) as char];
      assert z + (d + last) == z + d + last;
    }
  }

  lemma Nineteen()
    ensures Pow10(19) == D19
  {
    assert Pow10(4) == 1_0000;
    PowSplit(4, 4);
    PowSplit(8, 8);
    PowSplit(16, 3);
    assert Pow10(3) == 1000;
  }

  lemma TwoChunks(q: nat, r: nat)
    requires q > 0 && r < D19
    ensures Decimal(q * D19 + r) == Decimal(q) + Padded(r, 19)
  {
    Nineteen();
    DecimalSplits(q, r, 19);
  }

  lemma Quotients(u: nat)
    ensures u == u / D19 * D19 + u % D19
    ensures u / D19 == u / D38 * D19 + u % D38 / D19
    ensures u % D19 == u % D38 % D19
  {
  }

  /** The chunks are the decimal text. */
  lemma ChunksAreDecimal(u: nat)
    ensures D19 <= u ==> Decimal(u) == Decimal(u / D19) + Padded(u % D19, 19)
    ensures D38 <= u ==>
              Decimal(u) == Decimal(u / D38) + Padded(u % D38 / D19, 19) + Padded(u % D38 % D19, 19)
  {
    hide Decimal, Padded;
    Quotients(u);
    if D19 <= u {
      TwoChunks(u / D19, u % D19);
      if D38 <= u {
        TwoChunks(u / D38, u % D38 / D19);
      }
    }
  }

  // Writing the chunks

  /** What a buffer holds as a C string, and where the next chunk goes. */
  datatype Shown = Shown(text: string, next: nat)

  /** The next chunk goes into the text or behind it, or there is no room for anything. */
  predicate Fits(w: Shown, size: nat) {
    (w.next <= |w.text| && w.next < size) || (w.next == size && |w.text| < size)
  }

  /**
   `snprintf` into what is left, which cuts the chunk off where it does not fit with its NUL. The place for the next
   chunk is behind it if the chunk fits without a NUL; otherwise the next chunk is written over it.
   */
  function Printed(w: Shown, s: string, size: nat): (r: Shown)
    requires Fits(w, size) && |s| > 0
    ensures Fits(r, size) && (w.next < size ==> |r.text| < size)
  {
    var room := size - w.next;
    if room == 0 then w
    else if |s| < room then Shown(w.text[..w.next] + s, w.next + |s|)
    else Shown(w.text[..w.next] + s[..room - 1], if |s| == room then size else w.next)
  }

  function PrintAll(w: Shown, chunks: seq<string>, size: nat): (r: Shown)
    requires Fits(w, size) && forall i :: 0 <= i < |chunks| ==> |chunks[i]| > 0
    ensures Fits(r, size)
    decreases |chunks|
  {
    if chunks == [] then w else PrintAll(Printed(w, chunks[0], size), chunks[1..], size)
  }

  function Joined(chunks: seq<string>): string {
    if chunks == [] then "" else chunks[0] + Joined(chunks[1..])
  }

  function Chunks(u: nat): (chunks: seq<string>)
    ensures chunks != [] && forall i :: 0 <= i < |chunks| ==> |chunks[i]| > 0
  {
    if u < D19 then [Decimal(u)]
    else if u < D38 then [Decimal(u / D19), Padded(u % D19, 19)]
    else [Decimal(u / D38), Padded(u % D38 / D19, 19), Padded(u % D38 % D19, 19)]
  }

  /** The result of `formatu128` behind `done` in a buffer of `size` characters. */
  function Format(u: nat, done: string, size: nat): (r: Shown)
    requires |done| < size
    ensures Fits(r, size)
  {
    PrintAll(Shown(done, |done|), Chunks(u), size)
  }

  /** Chunks that fit together are all shown. */
  lemma {:induction false} AllShown(w: Shown, chunks: seq<string>, size: nat)
    requires Fits(w, size) && w.next == |w.text| && forall i :: 0 <= i < |chunks| ==> |chunks[i]| > 0
    requires |w.text| + |Joined(chunks)| < size
    ensures PrintAll(w, chunks, size) == Shown(w.text + Joined(chunks), |w.text| + |Joined(chunks)|)
    decreases |chunks|
  {
    if chunks == [] {
      assert w.text + "" == w.text;
    } else {
      assert w.text[..w.next] == w.text;
      AllShown(Printed(w, chunks[0], size), chunks[1..], size);
      assert w.text + chunks[0] + Joined(chunks[1..]) == w.text + Joined(chunks);
    }
  }

  /** Of chunks that are all too long, the beginning of the last one is shown. */
  lemma {:induction false} LastShown(w: Shown, chunks: seq<string>, size: nat)
    requires Fits(w, size) && w.next < size && chunks != []
    requires forall i :: 0 <= i < |chunks| ==> |chunks[i]| > size - w.next
    ensures PrintAll(w, chunks, size)
            == Shown(w.text[..w.next] + chunks[|chunks| - 1][..size - w.next - 1], w.next)
    decreases |chunks|
  {
    var n := Printed(w, chunks[0], size);
    assert n.text[..n.next] == w.text[..w.next];
    if |chunks| > 1 {
      LastShown(n, chunks[1..], size);
    }
  }

  lemma {:induction false} NoRoom(w: Shown, chunks: seq<string>, size: nat)
    requires Fits(w, size) && w.next == size && forall i :: 0 <= i < |chunks| ==> |chunks[i]| > 0
    ensures PrintAll(w, chunks, size) == w
    decreases |chunks|
  {
    if chunks != [] {
      NoRoom(w, chunks[1..], size);
    }
  }

  /**
   Where the text is cut off it is right: in the first chunk that does not fit into `room`, if that is the last one, or
   takes up the room without a NUL, or begins with what the last one begins with.
   */
  predicate CutIsRight(chunks: seq<string>, room: nat)
    requires room > 0 && chunks != []
    decreases |chunks|
  {
    var first, last := chunks[0], chunks[|chunks| - 1];
    |chunks| == 1 || |first| == room
    || (if |first| < room then CutIsRight(chunks[1..], room - |first|)
        else |last| >= room && first[..room - 1] == last[..room - 1])
  }

  /** No chunk is shorter than one in front of it. */
  predicate Longer(chunks: seq<string>) {
    (forall i :: 0 <= i < |chunks| ==> |chunks[i]| > 0)
    && forall i, j :: 0 <= i < j < |chunks| ==> |chunks[i]| <= |chunks[j]|
  }

  lemma {:induction false} CutShown(w: Shown, chunks: seq<string>, size: nat)
    requires Fits(w, size) && w.next == |w.text| < size && chunks != [] && Longer(chunks)
    requires |w.text| + |Joined(chunks)| >= size
    ensures var r := PrintAll(w, chunks, size).text;
            |r| == size - 1 && (r == (w.text + Joined(chunks))[..size - 1] <==> CutIsRight(chunks, size - |w.text|))
    decreases |chunks|
  {
    var room, first, rest := size - |w.text|, chunks[0], chunks[1..];
    assert w.text[..w.next] == w.text;
    if |first| < room {
      assert rest == [] ==> Joined(chunks) == first;
      assert w.text + first + Joined(rest) == w.text + Joined(chunks);
      assert rest[|rest| - 1] == chunks[|chunks| - 1];
      CutShown(Printed(w, first, size), rest, size);
    } else {
      CutInFirst(w, chunks, size);
    }
  }

  lemma CutInFirst(w: Shown, chunks: seq<string>, size: nat)
    requires Fits(w, size) && w.next == |w.text| < size && chunks != [] && Longer(chunks)
    requires |w.text| + |chunks[0]| >= size
    ensures var r := PrintAll(w, chunks, size).text;
            |r| == size - 1 && (r == (w.text + Joined(chunks))[..size - 1] <==> CutIsRight(chunks, size - |w.text|))
  {
    var room, first, last := size - |w.text|, chunks[0], chunks[|chunks| - 1];
    assert w.text[..w.next] == w.text;
    assert (w.text + Joined(chunks))[..size - 1] == w.text + first[..room - 1];
    if |first| == room {
      NoRoom(Printed(w, first, size), chunks[1..], size);
    } else {
      LastShown(w, chunks, size);
      SameBehind(w.text, first[..room - 1], last[..room - 1]);
    }
  }

  lemma SameBehind(a: string, b: string, c: string)
    ensures a + b == a + c <==> b == c
  {
    assert (a + b)[|a|..] == b && (a + c)[|a|..] == c;
  }

  lemma JoinedUpToThree(a: string, b: string, c: string)
    ensures Joined([a]) == a && Joined([a, b]) == a + b && Joined([a, b, c]) == a + b + c
  {
    var bc := [b, c];
    assert [a][1..] == [] && [a, b][1..] == [b] && [a, b, c][1..] == bc && [b][1..] == [] && bc[1..] == [c];
    assert [c][1..] == [] && Joined([c]) == c + "" == c;
    assert Joined(bc) == b + c;
    assert Joined([a, b, c]) == a + (b + c);
  }

  lemma ChunksJoin(u: nat)
    requires u <= MAX
    ensures Joined(Chunks(u)) == Decimal(u) && Longer(Chunks(u))
  {
    Nineteen();
    ChunksAreDecimal(u);
    if D19 <= u {
      ZeroFilled(if u < D38 then u / D19 else u / D38, 19);
    }
    hide Decimal, Padded, Joined;
    if u < D19 {
      JoinedUpToThree(Decimal(u), "", "");
    } else if u < D38 {
      JoinedUpToThree(Decimal(u / D19), Padded(u % D19, 19), "");
    } else {
      JoinedUpToThree(Decimal(u / D38), Padded(u % D38 / D19, 19), Padded(u % D38 % D19, 19));
    }
  }

  /** A text that fits with its NUL is shown as a whole. */
  lemma FormatFits(u: nat, done: string, size: nat)
    requires u <= MAX && |done| + |Decimal(u)| < size
    ensures Format(u, done, size) == Shown(done + Decimal(u), |done| + |Decimal(u)|)
  {
    ChunksJoin(u);
    AllShown(Shown(done, |done|), Chunks(u), size);
  }

  /** Any other one fills the buffer, and what is shown is its beginning exactly if the cut is right. */
  lemma FormatIsCut(u: nat, done: string, size: nat)
    requires u <= MAX && |done| < size <= |done| + |Decimal(u)|
    ensures var r := Format(u, done, size).text;
            |r| == size - 1 && (r == (done + Decimal(u))[..size - 1] <==> CutIsRight(Chunks(u), size - |done|))
  {
    ChunksJoin(u);
    CutShown(Shown(done, |done|), Chunks(u), size);
  }

  /** With room for one digit only, 123 * 10^19 is shown as 0. */
  lemma WrongCutWitness()
    ensures Format(123 * D19, "", 2).text == "0" && Decimal(123 * D19)[0] == '1'
  {
    var u := 123 * D19;
    assert u / D19 == 123 && u % D19 == 0;
    ChunksAreDecimal(u);
    var zeros := Padded(0, 19);
    PaddedZero(19);
    FirstZero(19);
    assert Decimal(123) == "123";
    LastShown(Shown("", 0), ["123", zeros], 2);
    hide PrintAll, Printed, Zeros;
    assert zeros[..1] == "0";
  }

  lemma {:induction false} FirstZero(n: nat)
    requires n > 0
    ensures Zeros(n)[0] == '0'
  {
    if n > 1 {
      FirstZero(n - 1);
    }
  }

  /** The buffer holds what is shown, as far as the next chunk leaves it alone. */
  ghost predicate Holding(buffer: array<char>, w: Shown)
    requires Fits(w, buffer.Length)
    reads buffer
  {
    if w.next < buffer.Length then Starts(buffer, w.text[..w.next]) else Holds(buffer, w.text)
  }

  /** `snprintf` and what the chunk writers make of its result. */
  method Write(s: string, buffer: array<char>, at: nat, ghost w: Shown) returns (next: nat)
    requires Fits(w, buffer.Length) && at == w.next && Holding(buffer, w) && |s| > 0
    modifies buffer
    ensures var r := Printed(w, s, buffer.Length); next == r.next && Holds(buffer, r.text) && Holding(buffer, r)
  {
    next := at;
    if at < buffer.Length {
      var kept := if at + |s| < buffer.Length then |s| else buffer.Length - at - 1;
      ghost var done := w.text[..at];
      Copy(buffer, at, s[..kept], done);
      Terminate(buffer, at + kept, done + s[..kept]);
      assert kept == |s| ==> s[..kept] == s;
      assert (done + s[..kept])[..at] == done;
      assert buffer[..at] == buffer[..at + kept][..at];
    }
    if |s| <= buffer.Length - at {
      next := at + |s|;
    }
  }

  method WriteU64(u: nat, buffer: array<char>, at: nat, ghost w: Shown) returns (next: nat)
    requires Fits(w, buffer.Length) && at == w.next && Holding(buffer, w) && u < TWO64
    modifies buffer
    ensures var r := Printed(w, Decimal(u), buffer.Length);
            next == r.next && Holds(buffer, r.text) && Holding(buffer, r)
  {
    next := Write(Decimal(u), buffer, at, w);
  }

  lemma PaddedText(u: nat)
    requires u < D19
    ensures 0 < |Decimal(u)| <= 19 && Zeros(19 - |Decimal(u)|) + Decimal(u) == Padded(u, 19) && |Padded(u, 19)| == 19
  {
    Nineteen();
    ZeroFilled(u, 19);
  }

  method WriteU64Padded(u: nat, buffer: array<char>, at: nat, ghost w: Shown) returns (next: nat)
    requires Fits(w, buffer.Length) && at == w.next && Holding(buffer, w) && u < D19
    modifies buffer
    ensures var r := Printed(w, Padded(u, 19), buffer.Length);
            next == r.next && Holds(buffer, r.text) && Holding(buffer, r)
  {
    PaddedText(u);
    var text := Zeros(19 - |Decimal(u)|) + Decimal(u);
    hide Printed, Zeros, Decimal, Padded, Holding, Holds, Starts, Fits;
    assert text == Padded(u, 19);
    next := Write(text, buffer, at, w);
  }

  /** One number and another one padded behind it. */
  method WritePair(u: nat, v: nat, buffer: array<char>, at: nat, ghost w: Shown) returns (next: nat)
    requires Fits(w, buffer.Length) && at == w.next && Holding(buffer, w) && u < TWO64 && v < D19
    modifies buffer
    ensures var r := PrintAll(w, [Decimal(u), Padded(v, 19)], buffer.Length);
            next == r.next && Holds(buffer, r.text) && Holding(buffer, r)
  {
    hide Decimal, Padded, Printed;
    InThree(w, Decimal(u), Padded(v, 19), "0", buffer.Length);
    next := WriteU64(u, buffer, at, w);
    next := WriteU64Padded(v, buffer, next, Printed(w, Decimal(u), buffer.Length));
  }

  method WriteTriple(u: nat, v: nat, x: nat, buffer: array<char>, at: nat, ghost w: Shown) returns (next: nat)
    requires Fits(w, buffer.Length) && at == w.next && Holding(buffer, w) && u < TWO64 && v < D19 && x < D19
    modifies buffer
    ensures var r := PrintAll(w, [Decimal(u), Padded(v, 19), Padded(x, 19)], buffer.Length);
            next == r.next && Holds(buffer, r.text) && Holding(buffer, r)
  {
    hide Decimal, Padded, Printed;
    InThree(w, Decimal(u), Padded(v, 19), Padded(x, 19), buffer.Length);
    next := WritePair(u, v, buffer, at, w);
    next := WriteU64Padded(x, buffer, next, PrintAll(w, [Decimal(u), Padded(v, 19)], buffer.Length));
  }

  lemma InThree(w: Shown, a: string, b: string, c: string, size: nat)
    requires Fits(w, size) && |a| > 0 && |b| > 0 && |c| > 0
    ensures var wa := Printed(w, a, size); var wb := Printed(wa, b, size);
            && PrintAll(w, [a], size) == wa && PrintAll(w, [a, b], size) == wb
            && PrintAll(w, [a, b, c], size) == Printed(wb, c, size)
  {
    hide Printed, PrintAll;
    var wa, bc := Printed(w, a, size), [b, c];
    assert [a][1..] == [] && [a, b][1..] == [b] && [a, b, c][1..] == bc && [b][1..] == [] && bc[1..] == [c];
    assert [c][1..] == [];
    PrintFirst(w, [a], size);
    PrintFirst(w, [a, b], size);
    PrintFirst(w, [a, b, c], size);
    PrintFirst(wa, [b], size);
    PrintFirst(wa, bc, size);
    PrintFirst(Printed(wa, b, size), [c], size);
  }

  lemma PrintFirst(w: Shown, chunks: seq<string>, size: nat)
    requires Fits(w, size) && chunks != [] && forall i :: 0 <= i < |chunks| ==> |chunks[i]| > 0
    ensures PrintAll(w, chunks, size) == PrintAll(Printed(w, chunks[0], size), chunks[1..], size)
    ensures forall n: Shown :: Fits(n, size) ==> PrintAll(n, [], size) == n
  {
  }

  /** The chunks, one behind the other. */
  method WriteChunks(u: nat, buffer: array<char>, from: nat, ghost w: Shown) returns (next: nat)
    requires u <= MAX && Fits(w, buffer.Length) && from == w.next && Holding(buffer, w)
    modifies buffer
    ensures var r := PrintAll(w, Chunks(u), buffer.Length); next == r.next && Holds(buffer, r.text)
  {
    hide Decimal, Padded, PrintAll, Printed;
    if u < D19 {
      InThree(w, Decimal(u), "0", "0", buffer.Length);
      next := WriteU64(u, buffer, from, w);
    } else if u < D38 {
      next := WritePair(u / D19, u % D19, buffer, from, w);
    } else {
      var rest := u % D38;
      next := WriteTriple(u / D38, rest / D19, rest % D19, buffer, from, w);
    }
  }

  /** `formatu128` into the buffer from an index on. */
  method FormatU128(u: nat, buffer: array<char>, from: nat, ghost done: string) returns (written: nat)
    requires u <= MAX && from <= buffer.Length
    requires Starts(buffer, done) && from == |done|
    modifies buffer
    ensures from + written <= buffer.Length
    ensures if from == buffer.Length then written == 0 && buffer[..] == old(buffer[..])
            else var r := Format(u, done, buffer.Length); Holds(buffer, r.text) && from + written == r.next
    ensures from + |Decimal(u)| < buffer.Length ==> written == |Decimal(u)| && Holds(buffer, done + Decimal(u))
  {
    if from == buffer.Length {
      return 0;
    }
    hide Decimal, PrintAll, Chunks;
    assert done[..from] == done;
    var next := WriteChunks(u, buffer, from, Shown(done, from));
    if from + |Decimal(u)| < buffer.Length {
      FormatFits(u, done, buffer.Length);
    }
    NotBack(Shown(done, from), Chunks(u), buffer.Length);
    written := next - from;
  }

  lemma {:induction false} NotBack(w: Shown, chunks: seq<string>, size: nat)
    requires Fits(w, size) && forall i :: 0 <= i < |chunks| ==> |chunks[i]| > 0
    ensures PrintAll(w, chunks, size).next >= w.next
    decreases |chunks|
  {
    if chunks != [] {
      NotBack(Printed(w, chunks[0], size), chunks[1..], size);
    }
  }

  /** `formati128` */
  method FormatI128(i: int, buffer: array<char>) returns (written: nat)
    requires -(TWO127 as int) <= i < TWO127
    modifies buffer
    ensures written <= buffer.Length
    ensures i < 0 && buffer.Length > 1 ==>
              var r := Format(-i, "-", buffer.Length); Holds(buffer, r.text) && written == r.next
    ensures i >= 0 && buffer.Length > 0 ==>
              var r := Format(i, "", buffer.Length); Holds(buffer, r.text) && written == r.next
    ensures i < 0 && buffer.Length <= 1 ==> written == 0 && (buffer.Length == 1 ==> Holds(buffer, ""))
    ensures |DecimalInt(i)| < buffer.Length ==> written == |DecimalInt(i)| && Holds(buffer, DecimalInt(i))
  {
    if buffer.Length == 0 {
      return 0;
    }
    assert Starts(buffer, "");
    if i < 0 {
      if buffer.Length < 2 {
        buffer[0] := NUL;
        return 0;
      }
      Store(buffer, 0, '-', "");
      assert "" + "-" == "-";
      written := FormatU128(-i, buffer, 1, "-");
      written := written + 1;
      assert "-" + Decimal(-i) == DecimalInt(i);
    } else {
      written := FormatU128(i, buffer, 0, "");
      assert "" + Decimal(i) == DecimalInt(i);
    }
  }
}

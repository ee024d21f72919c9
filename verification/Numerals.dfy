/** Digits and numerals, spelled with the characters that they are written with. */
module Numerals {

  const LOWER: string := "0123456789abcdefghijklmnopqrstuvwxyz"
  const UPPER: string := "0123456789ABCDEFGHIJKLMNOPQRSTUVWXYZ"

  /** The character is the digit `d` of a base above `d`, in small letters or capitals. */
  predicate IsDigitOf(c: char, d: nat) {
    d < 36 && (c == LOWER[d] || c == UPPER[d])
  }

  /** What the digits of a base denote. */
  function Horner(ds: seq<nat>, base: nat): nat {
    if ds == [] then 0 else Horner(ds[..|ds| - 1], base) * base + ds[|ds| - 1]
  }

  predicate DigitsBelow(ds: seq<nat>, base: nat) {
    forall i :: 0 <= i < |ds| ==> ds[i] < base
  }

  predicate Spells(s: string, ds: seq<nat>) {
    |s| == |ds| && forall i :: 0 <= i < |s| ==> IsDigitOf(s[i], ds[i])
  }

  /** The digits of a number in a base. */
  function DigitsOf(v: nat, base: nat): (ds: seq<nat>)
    requires base >= 2
    ensures ds != [] && DigitsBelow(ds, base)
    decreases v
  {
    if v < base then [v]
    else
      QuotientIsSmaller(v, base);
      DigitsOf(v / base, base) + [v % base]
  }

  lemma QuotientIsSmaller(v: nat, base: nat)
    requires base >= 2 && v >= base
    ensures v / base < v && v == v / base * base + v % base
  {
    Doubles(v / base, base);
  }

  lemma Doubles(q: nat, base: nat)
    requires base >= 2
    ensures q * base >= 2 * q
  {
  }

  lemma HornerOneMore(ds: seq<nat>, d: nat, base: nat)
    ensures Horner(ds + [d], base) == Horner(ds, base) * base + d
  {
    assert (ds + [d])[..|ds|] == ds;
  }

  lemma {:induction false} DigitsDenote(v: nat, base: nat)
    requires base >= 2
    ensures Horner(DigitsOf(v, base), base) == v
    decreases v
  {
    HornerOneMore([], v, base);
    if v < base {
      assert [] + [v] == [v];
    } else {
      QuotientIsSmaller(v, base);
      DigitsDenote(v / base, base);
      HornerOneMore(DigitsOf(v / base, base), v % base, base);
    }
  }

  /** Which characters these are. */
  lemma DigitIs(d: nat)
    requires d < 36
    ensures LOWER[d] as int == if d < 10 then '0' as int + d else 'a' as int + d - 10
    ensures UPPER[d] as int == if d < 10 then '0' as int + d else 'A' as int + d - 10
  {
    if d < 12 {
      FirstDigits(d);
    } else if d < 24 {
      MiddleDigits(d);
    } else {
      LastDigits(d);
    }
  }

  lemma FirstDigits(d: nat)
    requires d < 12
    ensures LOWER[d] as int == if d < 10 then '0' as int + d else 'a' as int + d - 10
    ensures UPPER[d] as int == if d < 10 then '0' as int + d else 'A' as int + d - 10
  {
  }

  lemma MiddleDigits(d: nat)
    requires 12 <= d < 24
    ensures LOWER[d] as int == 'a' as int + d - 10 && UPPER[d] as int == 'A' as int + d - 10
  {
  }

  lemma LastDigits(d: nat)
    requires 24 <= d < 36
    ensures LOWER[d] as int == 'a' as int + d - 10 && UPPER[d] as int == 'A' as int + d - 10
  {
  }

  /** The four hexadecimal digits of a 16-bit number. */
  predicate SpellsUnit(h: string, u: nat) {
    && |h| == 4 && u < 0x1_0000
    && IsDigitOf(h[0], u / 4096) && IsDigitOf(h[1], u / 256 % 16) && IsDigitOf(h[2], u / 16 % 16)
    && IsDigitOf(h[3], u % 16)
  }
}

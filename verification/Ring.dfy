/** Positions in a table that is probed cyclically. */
module Ring {

  function Succ(n: nat, i: nat): (r: nat)
    requires i < n
    ensures r < n
  {
    if i + 1 == n then 0 else i + 1
  }

  function Pred(n: nat, i: nat): (r: nat)
    requires i < n
    ensures r < n && Succ(n, r) == i
  {
    if i == 0 then n - 1 else i - 1
  }

  /** How far position `i` is past `home`, going round the table (`hmapProbe`). */
  function Dist(n: nat, home: nat, i: nat): (d: nat)
    requires home < n && i < n
    ensures d < n
  {
    if home <= i then i - home else n + i - home
  }

  /** The position at which the probe for a hash code starts. */
  function Home(code: nat, n: nat): (r: nat)
    requires n > 0
    ensures r < n
  {
    code % n
  }

  /** A probe that has not yet met `free` gets one step closer to it. */
  lemma NextIsFurther(n: nat, home: nat, i: nat, free: nat)
    requires i < n && home < n && free < n && Dist(n, home, i) <= Dist(n, home, free) && i != free
    ensures Dist(n, home, Succ(n, i)) == Dist(n, home, i) + 1 <= Dist(n, home, free)
  {
  }
}

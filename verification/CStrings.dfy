/** NUL-terminated strings in character arrays. */
module CStrings {
  const NUL: char := '\0'

  /** The character at an index, with the terminating NUL behind the end. */
  function At(s: string, i: nat): char {
    if i < |s| then s[i] else NUL
  }

  predicate NoNul(s: string) {
    forall i :: 0 <= i < |s| ==> s[i] != NUL
  }

  /** The array begins with the characters of `s`. */
  ghost predicate Starts(a: array<char>, s: string)
    reads a
  {
    |s| <= a.Length && a[..|s|] == s
  }

  /** The array holds the C string `s`: its characters and the terminator. */
  ghost predicate Holds(a: array<char>, s: string)
    reads a
  {
    |s| < a.Length && a[..|s|] == s && a[|s|] == NUL
  }

  /** `strlen` of what begins at `at`. */
  method StrLen(a: array<char>, at: nat, ghost s: string) returns (n: nat)
    requires Holds(a, s) && at <= |s| && NoNul(s[at..])
    ensures at + n == |s|
  {
    n := 0;
    while a[at + n] != NUL
      invariant at + n <= |s|
      decreases |s| - n
    {
      n := n + 1;
    }
  }

  /** One `*ptr++ = c`. */
  method Store(a: array<char>, at: nat, c: char, ghost done: string)
    requires Starts(a, done) && at == |done| < a.Length
    modifies a
    ensures Starts(a, done + [c])
  {
    a[at] := c;
    assert a[..at + 1] == a[..at] + [c];
  }

  /** `memcpy` of the characters of `s`. */
  method Copy(a: array<char>, at: nat, s: string, ghost done: string)
    requires Starts(a, done) && at == |done| && at + |s| <= a.Length
    modifies a
    ensures Starts(a, done + s)
  {
    var i := 0;
    while i < |s|
      invariant 0 <= i <= |s|
      invariant Starts(a, done + s[..i])
    {
      Store(a, at + i, s[i], done + s[..i]);
      assert done + s[..i] + [s[i]] == done + s[..i + 1];
      i := i + 1;
    }
    assert s[..i] == s;
  }

  /** `strcpy`: the characters of `s`, then the terminator. */
  method StrCpy(a: array<char>, at: nat, s: string, ghost done: string)
    requires Starts(a, done) && at == |done| && at + |s| < a.Length
    modifies a
    ensures Holds(a, done + s)
  {
    Copy(a, at, s, done);
    Terminate(a, at + |s|, done + s);
  }

  method Terminate(a: array<char>, at: nat, ghost s: string)
    requires Starts(a, s) && at == |s| < a.Length
    modifies a
    ensures Holds(a, s)
  {
    a[at] := NUL;
  }
}

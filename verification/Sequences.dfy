/** Rearrangements of sequences and sets that proofs need. */
module Sequences {

  function InsertAt<T>(s: seq<T>, c: T, i: nat): seq<T>
    requires i <= |s|
  {
    if i == |s| then s + [c] else InsertAt(s[..|s| - 1], c, i) + [s[|s| - 1]]
  }

  lemma {:induction false} InsertAtIs<T>(s: seq<T>, c: T, i: nat)
    requires i <= |s|
    ensures InsertAt(s, c, i) == s[..i] + [c] + s[i..]
  {
    if i < |s| {
      var n := |s| - 1;
      InsertAtIs(s[..n], c, i);
      assert s[..n][..i] == s[..i] && s[..n][i..] + [s[n]] == s[i..];
    }
  }

  lemma Assoc<T>(a: seq<T>, b: seq<T>, c: seq<T>)
    ensures a + (b + c) == (a + b) + c
  {
  }

  lemma TakeAndAdd<T>(keys: set<T>, last: T, c: T)
    requires last in keys && c != last
    ensures keys - {last} + {c} + {last} == keys + {c}
  {
  }
}

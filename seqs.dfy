/** Facts about sequence prefixes that the loops and inductions over lists share. */
module Seqs {

  /** Extending a prefix of b by one element, after a. */
  lemma PrefixStep<T>(a: seq<T>, b: seq<T>, j: nat)
    requires j < |b|
    ensures a + b[..j + 1] == (a + b[..j]) + [b[j]]
  {
    assert b[..j + 1] == b[..j] + [b[j]];
  }

  /** A non-empty sequence is its prefix followed by its last element, and
      so holds the prefix's elements and the last one. */
  lemma LastSplit<T>(s: seq<T>)
    requires s != []
    ensures s == s[..|s| - 1] + [s[|s| - 1]]
    ensures multiset(s) == multiset(s[..|s| - 1]) + multiset{s[|s| - 1]}
  {
    assert s == s[..|s| - 1] + [s[|s| - 1]];
  }
}

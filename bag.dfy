/**
 * The 7-bag randomizer's guarantee: every kind ever put into the bag arrives in
 * blocks of seven, each block a permutation of the seven kinds, so every prefix
 * of 7k pulls holds each kind exactly k times.
 */
module Bag {
  import opened Catalog

  /** A shuffled copy of PIECE_TYPES: seven entries, every kind exactly once. */
  ghost predicate IsPermutationOfTypes(a: seq<Kind>)
  {
    |a| == 7 &&
    multiset(a)[I] == 1 && multiset(a)[O] == 1 && multiset(a)[T] == 1 && multiset(a)[S] == 1 &&
    multiset(a)[Z] == 1 && multiset(a)[J] == 1 && multiset(a)[L] == 1
  }

  /** Each kind occurs exactly once in a permutation of PIECE_TYPES. */
  lemma PermutationCount(a: seq<Kind>, k: Kind)
    requires IsPermutationOfTypes(a)
    ensures multiset(a)[k] == 1
  {
  }

  /** The `j`-th block of seven. */
  function Block(d: seq<Kind>, j: nat): seq<Kind>
    requires 7 * j + 7 <= |d|
  {
    d[7 * j..7 * j + 7]
  }

  /** A concatenation of permutations of PIECE_TYPES. */
  ghost predicate Bags(d: seq<Kind>)
  {
    |d| % 7 == 0 && forall j: nat :: j < |d| / 7 ==> IsPermutationOfTypes(Block(d, j))
  }

  /** Swapping two entries keeps the multiset of a sequence. */
  lemma SwapKeepsMultiset(s: seq<Kind>, i: nat, j: nat)
    requires i < |s| && j < |s|
    ensures multiset(s[i := s[j]][j := s[i]]) == multiset(s)
  {
  }

  /** Any rearrangement of PIECE_TYPES, such as the result of a sequence of swaps, is a permutation. */
  lemma RearrangedTypes(a: seq<Kind>)
    requires multiset(a) == multiset(PieceTypes)
    ensures IsPermutationOfTypes(a)
  {
    assert |multiset(a)| == |a|;
    assert |multiset(PieceTypes)| == |PieceTypes|;
  }

  /** Appending a fresh bag keeps the sequence a concatenation of bags. */
  lemma BagsAppend(d: seq<Kind>, a: seq<Kind>)
    requires Bags(d) && IsPermutationOfTypes(a)
    ensures Bags(d + a)
  {
    var n := |d| / 7;
    forall j: nat | j < |d + a| / 7
      ensures IsPermutationOfTypes(Block(d + a, j))
    {
      if j < n {
        assert Block(d + a, j) == Block(d, j);
      } else {
        assert Block(d + a, j) == a;
      }
    }
  }

  /** A prefix whose length is a multiple of seven is itself a concatenation of bags. */
  lemma BagsPrefix(d: seq<Kind>, n: nat)
    requires Bags(d) && n % 7 == 0 && n <= |d|
    ensures Bags(d[..n])
  {
    forall j: nat | j < n / 7
      ensures IsPermutationOfTypes(Block(d[..n], j))
    {
      assert Block(d[..n], j) == Block(d, j);
    }
  }

  /** Fairness: in a concatenation of k bags each kind appears exactly k times. */
  lemma {:induction false} BagsCount(d: seq<Kind>, k: Kind)
    requires Bags(d)
    ensures multiset(d)[k] == |d| / 7
    decreases |d|
  {
    if d != [] {
      var rest := d[7..];
      forall j: nat | j < |rest| / 7
        ensures IsPermutationOfTypes(Block(rest, j))
      {
        assert Block(rest, j) == Block(d, j + 1);
      }
      BagsCount(rest, k);
      assert d == Block(d, 0) + rest;
      assert multiset(d) == multiset(Block(d, 0)) + multiset(rest);
      PermutationCount(Block(d, 0), k);
    }
  }

  /** Every prefix of 7k pulls from a bag sequence holds each kind exactly k times. */
  lemma FairPrefix(d: seq<Kind>, n: nat, k: Kind)
    requires Bags(d) && n % 7 == 0 && n <= |d|
    ensures multiset(d[..n])[k] == n / 7
  {
    BagsPrefix(d, n);
    BagsCount(d[..n], k);
  }
}

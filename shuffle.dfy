/** `java.util.Collections.shuffle`, with its random source made explicit:
    `rnd(k)` is the value the k-th call of `nextInt` draws from, taken modulo
    the bound. Any stream of draws gives some permutation of the input. */
module Shuffle {
  import opened Common

  /** The list with positions i and j exchanged (`Collections.swap`). */
  function Swap<T>(s: seq<T>, i: nat, j: nat): (r: seq<T>)
    requires i < |s| && j < |s|
    ensures |r| == |s| && r[i] == s[j] && r[j] == s[i]
    ensures forall k :: 0 <= k < |s| && k != i && k != j ==> r[k] == s[k]
    ensures multiset(r) == multiset(s)
  {
    s[i := s[j]][j := s[i]]
  }

  /** The remaining steps of the shuffle: for positions i-1 down to 1, swap
      position p with a position drawn below p + 1. */
  function ShuffleFrom<T>(s: seq<T>, i: nat, rnd: nat -> nat): (r: seq<T>)
    requires i <= |s|
    ensures |r| == |s| && multiset(r) == multiset(s)
    decreases i
  {
    if i <= 1 then s
    else ShuffleFrom(Swap(s, i - 1, rnd(|s| - i) % i), i - 1, rnd)
  }

  /** The shuffled list: a permutation of `s`. */
  function Shuffled<T>(s: seq<T>, rnd: nat -> nat): (r: seq<T>)
    ensures |r| == |s| && multiset(r) == multiset(s)
  {
    ShuffleFrom(s, |s|, rnd)
  }

  /** A permutation of a list without duplicates has none either. */
  lemma PermutationKeepsDistinct<T>(s: seq<T>, t: seq<T>)
    requires multiset(s) == multiset(t) && NoDuplicates(s)
    ensures NoDuplicates(t)
  {
    forall x | x in multiset(s)
      ensures multiset(s)[x] == 1
    {
      DistinctCount(s, x);
    }
    forall i, j | 0 <= i < j < |t|
      ensures t[i] != t[j]
    {
      if t[i] == t[j] {
        OccursTwice(t, i, j);
        assert false;
      }
    }
  }

  /** Two equal elements at two positions count twice in the multiset. */
  lemma OccursTwice<T>(t: seq<T>, i: nat, j: nat)
    requires i < j < |t| && t[i] == t[j]
    ensures multiset(t)[t[i]] >= 2
  {
    var x := t[i];
    assert t == t[..i] + [x] + t[i + 1..j] + [x] + t[j + 1..];
  }

  /** In a list without duplicates every element occurs once. */
  lemma {:induction false} DistinctCount<T>(s: seq<T>, x: T)
    requires x in s && NoDuplicates(s)
    ensures multiset(s)[x] == 1
    decreases |s|
  {
    assert s == [s[0]] + s[1..];
    if s[0] == x {
      assert x !in s[1..];
      assert multiset(s[1..])[x] == 0;
    } else {
      DistinctCount(s[1..], x);
    }
  }
}

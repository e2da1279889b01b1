/**
 * Randomness as an explicit oracle, and the permutation a Fisher–Yates pass
 * selects from it. Both game engines shuffle; neither engine's correctness
 * depends on how the random numbers are distributed, only on the result
 * being a permutation, so the random source is a parameter.
 */
module Shuffling {

  /**
   * The random draws of a computation, in the order they are made; a draw
   * past its end, or out of range for the index it chooses, reads as 0.
   */
  type Oracle = seq<nat>

  /**
   * The k-th draw as an index below m, the role of `Math.floor(Math.random() * m)`:
   * every index below m is some oracle's answer, and no other is.
   */
  function Draw(rand: Oracle, k: nat, m: nat): (j: nat)
    requires m > 0
    ensures j < m
  {
    if k < |rand| && rand[k] < m then rand[k] else 0
  }

  /**
   * The sequence without its i-th element, the others in their order
   * (`splice(i, 1)` on a copy): drawing without replacement.
   */
  function RemoveAt<T>(s: seq<T>, i: nat): (r: seq<T>)
    requires i < |s|
    ensures |r| == |s| - 1
    ensures forall k :: 0 <= k < |r| ==> r[k] == (if k < i then s[k] else s[k + 1])
  {
    s[..i] + s[i + 1..]
  }

  /** What is removed and what is left make up the whole. */
  lemma RemoveAtMultiset<T>(s: seq<T>, i: nat)
    requires i < |s|
    ensures multiset(RemoveAt(s, i)) + multiset{s[i]} == multiset(s)
  {
    assert s == s[..i] + [s[i]] + s[i + 1..];
  }

  /** Exchange the elements at positions i and j. */
  function Swap<T>(s: seq<T>, i: nat, j: nat): (r: seq<T>)
    requires i < |s| && j < |s|
    ensures |r| == |s|
  {
    s[i := s[j]][j := s[i]]
  }

  /**
   * The descending Fisher–Yates pass over the first n positions: the step at
   * position n - 1 (the (|s| - n)-th step of the whole pass) swaps it with a
   * drawn position at or below it, then the pass goes on below.
   */
  function FisherYatesBelow<T>(s: seq<T>, rand: Oracle, n: nat): (r: seq<T>)
    requires n <= |s|
    ensures |r| == |s|
    decreases n
  {
    if n <= 1 then s
    else FisherYatesBelow(Swap(s, n - 1, Draw(rand, |s| - n, n)), rand, n - 1)
  }

  /** One step of the pass, unfolded. */
  lemma FisherYatesStep<T>(s: seq<T>, rand: Oracle, n: nat)
    requires 1 < n <= |s|
    ensures FisherYatesBelow(s, rand, n) == FisherYatesBelow(Swap(s, n - 1, Draw(rand, |s| - n, n)), rand, n - 1)
  {
  }

  /**
   * The pass only exchanges elements: it rearranges s and leaves the
   * positions at or above n where they were.
   */
  lemma {:induction false} FisherYatesBelowPermutes<T>(s: seq<T>, rand: Oracle, n: nat)
    requires n <= |s|
    ensures multiset(FisherYatesBelow(s, rand, n)) == multiset(s)
    ensures forall k :: n <= k < |s| ==> FisherYatesBelow(s, rand, n)[k] == s[k]
    decreases n
  {
    if n > 1 {
      FisherYatesBelowPermutes(Swap(s, n - 1, Draw(rand, |s| - n, n)), rand, n - 1);
    }
  }

  /** The whole pass, from the last position down. */
  function FisherYates<T>(s: seq<T>, rand: Oracle): (r: seq<T>)
    ensures |r| == |s|
  {
    FisherYatesBelow(s, rand, |s|)
  }

  /** Whatever the draws, the whole pass is a permutation of s. */
  lemma FisherYatesPermutes<T>(s: seq<T>, rand: Oracle)
    ensures multiset(FisherYates(s, rand)) == multiset(s)
  {
    FisherYatesBelowPermutes(s, rand, |s|);
  }
}

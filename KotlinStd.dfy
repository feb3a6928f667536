/** The parts of the Kotlin standard library that both drafts of the game
    engine lean on: nullable values, minOf/maxOf, take, and shuffled.

    A shuffle is random in the program. Here it is an arbitrary permutation,
    supplied by the caller as the order in which the shuffled list reads the
    input: `order[i]` is the input position that lands at position `i`. */
module KotlinStd {

  /** A Kotlin nullable value `T?`. */
  datatype Option<+T> = None | Some(value: T)

  /** `minOf(a, b)`. */
  function MinOf(a: int, b: int): (r: int)
    ensures r <= a && r <= b
    ensures r == a || r == b
  {
    if a <= b then a else b
  }

  /** `maxOf(a, b)`. */
  function MaxOf(a: int, b: int): (r: int)
    ensures r >= a && r >= b
    ensures r == a || r == b
  {
    if a >= b then a else b
  }

  /** `s.take(n)`: the first n elements, or all of s when it is shorter.
      (Kotlin throws for a negative n, hence the nat.) */
  function Take<T>(s: seq<T>, n: nat): (r: seq<T>)
    ensures |r| == MinOf(n, |s|)
    ensures r <= s
  {
    if n <= |s| then s[..n] else s
  }

  /** `order` is a permutation of the positions 0 .. n-1. */
  predicate IsPermutation(order: seq<nat>, n: nat)
  {
    && |order| == n
    && (forall i :: 0 <= i < n ==> order[i] < n)
    && (forall i, j :: 0 <= i < j < n ==> order[i] != order[j])
  }

  /** `s.shuffled()`, for the permutation `order` the random source picked.
      Every element of s lands at exactly one position of the result. */
  function Shuffled<T>(s: seq<T>, order: seq<nat>): (r: seq<T>)
    requires IsPermutation(order, |s|)
    ensures |r| == |s|
    ensures forall i :: 0 <= i < |r| ==> r[i] == s[order[i]]
  {
    seq(|s|, i requires 0 <= i < |s| => s[order[i]])
  }

  /** Nothing is lost by a shuffle: element j of the input sits at some
      position of the result (exactly one, as the order is injective). */
  lemma ShuffledKeepsAll<T>(s: seq<T>, order: seq<nat>, j: nat)
    requires IsPermutation(order, |s|)
    requires j < |s|
    ensures exists i :: 0 <= i < |s| && order[i] == j && Shuffled(s, order)[i] == s[j]
  {
    PermutationCovers(order, |s|, j);
  }

  /** Pigeonhole: |s| distinct values below m need m >= |s|. */
  lemma {:induction false} InjectiveBound(s: seq<nat>, m: nat)
    requires forall i :: 0 <= i < |s| ==> s[i] < m
    requires forall i, j :: 0 <= i < j < |s| ==> s[i] != s[j]
    ensures |s| <= m
    decreases |s|
  {
    if |s| > 0 {
      var last := s[|s| - 1];
      // close the gap that `last` leaves: the rest then fits below m - 1
      var rest: seq<nat> := seq(|s| - 1, i requires 0 <= i < |s| - 1 => if s[i] > last then s[i] - 1 else s[i]);
      forall i | 0 <= i < |rest|
        ensures rest[i] < m - 1
      {
        assert s[i] != last;
      }
      forall i, j | 0 <= i < j < |rest|
        ensures rest[i] != rest[j]
      {
        assert s[i] != s[j] && s[i] != last && s[j] != last;
      }
      InjectiveBound(rest, m - 1);
    }
  }

  /** A permutation of 0 .. n-1 hits every position below n. */
  lemma {:induction false} PermutationCovers(order: seq<nat>, n: nat, j: nat)
    requires IsPermutation(order, n)
    requires j < n
    ensures exists i :: 0 <= i < n && order[i] == j
  {
    if forall i :: 0 <= i < n ==> order[i] != j {
      var squeezed: seq<nat> := seq(n, i requires 0 <= i < n => if order[i] > j then order[i] - 1 else order[i]);
      forall a, b | 0 <= a < b < n
        ensures squeezed[a] != squeezed[b]
      {
        assert order[a] != order[b];
      }
      InjectiveBound(squeezed, n - 1);
      assert false;
    }
  }
}

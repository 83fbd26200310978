/** Building a list by extending it with one piece per element, as
    `list.extend` or `+=` in a loop does. */
module Seqs {
  /** The pieces `f(xs[0]) + f(xs[1]) + ...`, built from the front. */
  function FlatMap<S, T>(xs: seq<S>, f: S -> seq<T>): seq<T>
    decreases |xs|
  {
    if xs == [] then [] else FlatMap(xs[..|xs| - 1], f) + f(xs[|xs| - 1])
  }

  lemma {:induction false} FlatMapAppend<S, T>(a: seq<S>, b: seq<S>, f: S -> seq<T>)
    ensures FlatMap(a + b, f) == FlatMap(a, f) + FlatMap(b, f)
    decreases |b|
  {
    if b == [] {
      assert a + b == a;
    } else {
      var n := |b| - 1;
      assert (a + b)[..|a + b| - 1] == a + b[..n];
      assert (a + b)[|a + b| - 1] == b[n];
      FlatMapAppend(a, b[..n], f);
    }
  }

  /** Pieces of at most one element give at most one element per input. */
  lemma {:induction false} FlatMapShort<S, T>(xs: seq<S>, f: S -> seq<T>)
    requires forall i :: 0 <= i < |xs| ==> |f(xs[i])| <= 1
    ensures |FlatMap(xs, f)| <= |xs|
    decreases |xs|
  {
    if xs != [] {
      var n := |xs| - 1;
      assert forall i :: 0 <= i < n ==> xs[..n][i] == xs[i];
      FlatMapShort(xs[..n], f);
    }
  }

  /** Pieces of exactly one element give one element per input, in order. */
  lemma {:induction false} FlatMapSingletons<S, T>(xs: seq<S>, f: S -> seq<T>)
    requires forall i :: 0 <= i < |xs| ==> |f(xs[i])| == 1
    ensures |FlatMap(xs, f)| == |xs|
    ensures forall i :: 0 <= i < |xs| ==> FlatMap(xs, f)[i] == f(xs[i])[0]
    decreases |xs|
  {
    if xs != [] {
      var n := |xs| - 1;
      assert forall i :: 0 <= i < n ==> xs[..n][i] == xs[i];
      FlatMapSingletons(xs[..n], f);
    }
  }
}

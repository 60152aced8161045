/** Facts about sequences that several modules need. */
module Sequences {

  lemma Assoc<T>(a: seq<T>, b: seq<T>, c: seq<T>)
    ensures a + b + c == a + (b + c)
  {
  }

  /** Some of `ys` are `xs`, in the same order. */
  predicate Subsequence<T(==)>(xs: seq<T>, ys: seq<T>) {
    if |xs| == 0 then true
    else if |ys| == 0 then false
    else
      || Subsequence(xs, ys[..|ys| - 1])
      || (xs[|xs| - 1] == ys[|ys| - 1] && Subsequence(xs[..|xs| - 1], ys[..|ys| - 1]))
  }

  lemma SubsequenceSnoc<T>(xs: seq<T>, ys: seq<T>, y: T)
    requires Subsequence(xs, ys)
    ensures Subsequence(xs, ys + [y]) && Subsequence(xs + [y], ys + [y])
  {
    assert (ys + [y])[..|ys|] == ys && (xs + [y])[..|xs|] == xs;
  }

  /** Where in `ys` the elements of a subsequence are. */
  lemma {:induction false} SubsequenceAt<T>(xs: seq<T>, ys: seq<T>) returns (at: seq<nat>)
    requires Subsequence(xs, ys)
    ensures |at| == |xs| && forall i :: 0 <= i < |xs| ==> at[i] < |ys| && xs[i] == ys[at[i]]
    ensures forall i, j :: 0 <= i < j < |xs| ==> at[i] < at[j]
    decreases |ys|
  {
    if |xs| == 0 {
      at := [];
    } else if Subsequence(xs, ys[..|ys| - 1]) {
      at := SubsequenceAt(xs, ys[..|ys| - 1]);
    } else {
      var front := SubsequenceAt(xs[..|xs| - 1], ys[..|ys| - 1]);
      at := front + [|ys| - 1];
    }
  }

  ghost function Firsts<T>(xs: seq<T>, n: nat): set<T>
    requires n <= |xs|
  {
    if n == 0 then {} else Firsts(xs, n - 1) + {xs[n - 1]}
  }

  lemma {:induction false} FirstsAre<T>(xs: seq<T>, n: nat, x: T)
    requires n <= |xs|
    ensures x in Firsts(xs, n) <==> exists i :: 0 <= i < n && xs[i] == x
  {
    if n > 0 { FirstsAre(xs, n - 1, x); }
  }
}

/** Subsequences of sequences that grow at the end. */
module Subsequences {

  ghost predicate Subsequence<T>(a: seq<T>, b: seq<T>)
    decreases |b|
  {
    if |a| == 0 then true
    else if |b| == 0 then false
    else
      var i, j := |a| - 1, |b| - 1;
      (a[i] == b[j] && Subsequence(a[..i], b[..j])) || Subsequence(a, b[..j])
  }

  lemma {:induction false} SubsequenceLength<T>(a: seq<T>, b: seq<T>)
    requires Subsequence(a, b)
    ensures |a| <= |b|
    ensures |a| == |b| ==> a == b
    decreases |b|
  {
    if |a| != 0 {
      var i, j := |a| - 1, |b| - 1;
      if a[i] == b[j] && Subsequence(a[..i], b[..j]) {
        SubsequenceLength(a[..i], b[..j]);
        assert a == a[..i] + [a[i]] && b == b[..j] + [b[j]];
      } else {
        SubsequenceLength(a, b[..j]);
      }
    }
  }

  lemma SubsequenceGrows<T>(a: seq<T>, b: seq<T>, x: T)
    requires Subsequence(a, b)
    ensures Subsequence(a, b + [x]) && Subsequence(a + [x], b + [x])
  {
    assert (b + [x])[..|b|] == b;
    assert (a + [x])[..|a|] == a;
  }

  /** Every element of a subsequence sits at some position of the whole, in the same order. */
  lemma {:induction false} SubsequencePositions<T>(a: seq<T>, b: seq<T>, i: nat, j: nat) returns (p: nat, q: nat)
    requires Subsequence(a, b) && i < j < |a|
    ensures p < q < |b| && a[i] == b[p] && a[j] == b[q]
    decreases |b|
  {
    var m, n := |a| - 1, |b| - 1;
    if !(a[m] == b[n] && Subsequence(a[..m], b[..n])) {
      p, q := SubsequencePositions(a, b[..n], i, j);
    } else if j < m {
      p, q := SubsequencePositions(a[..m], b[..n], i, j);
    } else {
      p := SubsequencePosition(a[..m], b[..n], i);
      q := n;
    }
  }

  lemma {:induction false} SubsequencePosition<T>(a: seq<T>, b: seq<T>, i: nat) returns (p: nat)
    requires Subsequence(a, b) && i < |a|
    ensures p < |b| && a[i] == b[p]
    decreases |b|
  {
    var m, n := |a| - 1, |b| - 1;
    if !(a[m] == b[n] && Subsequence(a[..m], b[..n])) {
      p := SubsequencePosition(a, b[..n], i);
    } else if i < m {
      p := SubsequencePosition(a[..m], b[..n], i);
    } else {
      p := n;
    }
  }
}

/** Small shared vocabulary: optional values, repeat-free lists, and facts about finite sets and multiples. */
module Common {

  datatype Option<+T> = None | Some(value: T)

  ghost predicate NoRepeats<T>(items: seq<T>) {
    forall i, j :: 0 <= i < j < |items| ==> items[i] != items[j]
  }

  /** Two sets inside one finite universe, each larger than half of it, share a member. */
  lemma MajoritiesMeet<T>(a: set<T>, b: set<T>, universe: set<T>)
    requires a <= universe && b <= universe
    requires |a| > |universe| / 2 && |b| > |universe| / 2
    ensures exists x :: x in a && x in b
  {
    if forall x :: !(x in a && x in b) {
      assert a !! b;
      assert |a + b| == |a| + |b|;
      SubsetSize(a + b, universe);
    }
  }

  lemma SubsetSize<T>(a: set<T>, b: set<T>)
    requires a <= b
    ensures |a| <= |b|
    ensures |a| == |b| ==> a == b
  {
    assert b == a + (b - a);
    assert |b| == |a| + |b - a|;
  }

  lemma Pick<T>(s: set<T>) returns (x: T)
    requires s != {}
    ensures x in s
  {
    x :| x in s;
  }

  /** Some element of a non-empty set, as an iteration over it would deliver next. */
  method Take<T>(s: set<T>) returns (x: T)
    requires s != {}
    ensures x in s
  {
    x :| x in s;
  }

  /** A multiple other than 0 is at least one whole step away from 0. */
  lemma MultiplesAreFar(n: int, e: int)
    requires n >= 0
    ensures e >= 1 ==> n * e >= n
    ensures e <= -1 ==> n * e <= -n
  {
    if e >= 1 {
      assert n * (e - 1) >= 0;
    } else if e <= -1 {
      assert n * (-1 - e) >= 0;
    }
  }
}

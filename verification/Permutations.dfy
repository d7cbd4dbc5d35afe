/** Lists with the same members, as often, in any order. */
module Permutations {

  /** The list without the item at one place. */
  function Without<T>(items: seq<T>, i: nat): (rest: seq<T>)
    requires i < |items|
    ensures |rest| == |items| - 1
  {
    items[..i] + items[i + 1..]
  }

  lemma WithoutCounts<T>(items: seq<T>, i: nat)
    requires i < |items|
    ensures multiset(items) == multiset(Without(items, i)) + multiset{items[i]}
  {
    assert items == items[..i] + [items[i]] + items[i + 1..];
  }

  lemma SameLength<T>(a: seq<T>, b: seq<T>)
    requires multiset(a) == multiset(b)
    ensures |a| == |b|
  {
    assert |multiset(a)| == |a| && |multiset(b)| == |b|;
  }

  /** Where a permutation has the last item of a list. */
  lemma PlaceOf<T>(a: seq<T>, b: seq<T>) returns (i: nat)
    requires multiset(a) == multiset(b) && a != []
    ensures i < |b| && b[i] == a[|a| - 1]
  {
    assert a[|a| - 1] in multiset(b);
    i :| i < |b| && b[i] == a[|a| - 1];
  }

  lemma LastRemoved<T>(a: seq<T>, b: seq<T>, i: nat)
    requires multiset(a) == multiset(b) && a != [] && i < |b| && b[i] == a[|a| - 1]
    ensures multiset(a[..|a| - 1]) == multiset(Without(b, i))
  {
    var m := |a| - 1;
    assert a == a[..m] + [a[m]];
    WithoutCounts(b, i);
    assert multiset(a[..m]) == multiset(a) - multiset{a[m]};
    assert multiset(Without(b, i)) == multiset(b) - multiset{a[m]};
  }

  function Mapped<A, B>(f: A -> B, items: seq<A>): (image: seq<B>)
    ensures |image| == |items| && forall i :: 0 <= i < |items| ==> image[i] == f(items[i])
  {
    seq(|items|, i requires 0 <= i < |items| => f(items[i]))
  }

  /** The images of permuted lists are permuted. */
  lemma {:induction false} MappedPermuted<A, B>(f: A -> B, a: seq<A>, b: seq<A>)
    requires multiset(a) == multiset(b)
    ensures multiset(Mapped(f, a)) == multiset(Mapped(f, b))
    decreases |a|
  {
    SameLength(a, b);
    if a == [] {
      assert Mapped(f, a) == Mapped(f, b);
    } else {
      var m := |a| - 1;
      var i := PlaceOf(a, b);
      LastRemoved(a, b, i);
      MappedPermuted(f, a[..m], Without(b, i));
      assert Mapped(f, a) == Mapped(f, a[..m]) + [f(a[m])];
      assert Mapped(f, Without(b, i)) == Without(Mapped(f, b), i);
      WithoutCounts(Mapped(f, b), i);
    }
  }
}

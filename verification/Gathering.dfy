/** What the members of a list hold, and count, all together. */
module Gathering {

  ghost function Gathered<W, T>(part: W -> multiset<T>, members: seq<W>): multiset<T> {
    if members == [] then multiset{} else part(members[0]) + Gathered(part, members[1..])
  }

  /** What the others hold stays when one member changes. */
  lemma {:induction false} GatheredAround<W, T>(part: W -> multiset<T>, members: seq<W>, i: nat, w: W)
    returns (rest: multiset<T>)
    requires i < |members|
    ensures Gathered(part, members) == rest + part(members[i])
    ensures Gathered(part, members[i := w]) == rest + part(w)
  {
    var changed := members[i := w];
    if i == 0 {
      rest := Gathered(part, members[1..]);
      assert changed[1..] == members[1..];
    } else {
      var inner := GatheredAround(part, members[1..], i - 1, w);
      rest := part(members[0]) + inner;
      assert changed[1..] == members[1..][i - 1 := w];
    }
  }

  lemma {:induction false} GatheredOneMore<W, T>(part: W -> multiset<T>, members: seq<W>, w: W)
    ensures Gathered(part, members + [w]) == Gathered(part, members) + part(w)
  {
    if members == [] {
      assert [w][1..] == [];
    } else {
      GatheredOneMore(part, members[1..], w);
      assert (members + [w])[1..] == members[1..] + [w];
    }
  }

  lemma {:induction false} NothingGathered<W, T>(part: W -> multiset<T>, members: seq<W>)
    requires forall i :: 0 <= i < |members| ==> part(members[i]) == multiset{}
    ensures Gathered(part, members) == multiset{}
  {
    if members != [] { NothingGathered(part, members[1..]); }
  }

  lemma PartOfGathered<W, T>(part: W -> multiset<T>, members: seq<W>, i: nat)
    requires i < |members|
    ensures part(members[i]) <= Gathered(part, members)
  {
    var rest := GatheredAround(part, members, i, members[i]);
  }

  /** The members' counts added up, as a loop over them does. */
  function Total<W>(count: W -> nat, members: seq<W>): nat
    decreases |members|
  {
    if members == [] then 0 else Total(count, members[..|members| - 1]) + count(members[|members| - 1])
  }

  lemma {:induction false} TotalAround<W>(count: W -> nat, members: seq<W>, i: nat, w: W)
    requires i < |members|
    ensures Total(count, members[i := w]) == Total(count, members) - count(members[i]) + count(w)
    decreases |members|
  {
    var m := |members| - 1;
    if i < m {
      TotalAround(count, members[..m], i, w);
      assert members[i := w][..m] == members[..m][i := w];
    } else {
      assert members[i := w][..m] == members[..m];
    }
  }

  lemma TotalOneMore<W>(count: W -> nat, members: seq<W>, w: W)
    ensures Total(count, members + [w]) == Total(count, members) + count(w)
  {
    assert (members + [w])[..|members|] == members;
  }

  lemma {:induction false} TotalsCompare<W>(less: W -> nat, more: W -> nat, members: seq<W>)
    requires forall i :: 0 <= i < |members| ==> less(members[i]) <= more(members[i])
    ensures Total(less, members) <= Total(more, members)
    decreases |members|
  {
    if members != [] { TotalsCompare(less, more, members[..|members| - 1]); }
  }
}

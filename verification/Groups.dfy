/** Lists split by a key, as the category queues, the shards and the shuffle of the MapReduce do. */
module Groups {
  import opened Common
  import opened Subsequences

  /** The items with a given key, in their order. */
  function Group<T, K(==)>(key: T -> K, name: K, items: seq<T>): (group: seq<T>)
    ensures forall x :: x in group ==> x in items && key(x) == name
    decreases |items|
  {
    if items == [] then []
    else
      var m := |items| - 1;
      var before := Group(key, name, items[..m]);
      if key(items[m]) == name then before + [items[m]] else before
  }

  lemma GroupGrows<T, K>(key: T -> K, name: K, items: seq<T>, x: T)
    ensures Group(key, name, items + [x])
         == if key(x) == name then Group(key, name, items) + [x] else Group(key, name, items)
  {
    assert (items + [x])[..|items|] == items;
  }

  lemma GroupStep<T, K>(key: T -> K, name: K, items: seq<T>, i: nat)
    requires i < |items|
    ensures Group(key, name, items[..i + 1])
         == if key(items[i]) == name then Group(key, name, items[..i]) + [items[i]] else Group(key, name, items[..i])
  {
    assert items[..i + 1] == items[..i] + [items[i]];
    GroupGrows(key, name, items[..i], items[i]);
  }

  /** A group holds the items with its key, as often as the list does. */
  lemma {:induction false} GroupCounts<T, K>(key: T -> K, name: K, items: seq<T>, x: T)
    ensures multiset(Group(key, name, items))[x] == if key(x) == name then multiset(items)[x] else 0
    decreases |items|
  {
    if items != [] {
      var m := |items| - 1;
      GroupCounts(key, name, items[..m], x);
      assert items == items[..m] + [items[m]];
    }
  }

  /** A group keeps the list's order. */
  lemma {:induction false} GroupInOrder<T, K>(key: T -> K, name: K, items: seq<T>)
    ensures Subsequence(Group(key, name, items), items)
    decreases |items|
  {
    if items != [] {
      var m := |items| - 1;
      GroupInOrder(key, name, items[..m]);
      SubsequenceGrows(Group(key, name, items[..m]), items[..m], items[m]);
      assert items == items[..m] + [items[m]];
    }
  }

  /** Two lists are permutations of each other if each of their groups are ... */
  lemma GroupsDecide<T, K(!new)>(key: T -> K, a: seq<T>, b: seq<T>)
    requires forall name :: multiset(Group(key, name, a)) == multiset(Group(key, name, b))
    ensures multiset(a) == multiset(b)
  {
    forall x ensures multiset(a)[x] == multiset(b)[x] {
      GroupCounts(key, key(x), a, x);
      GroupCounts(key, key(x), b, x);
      assert multiset(Group(key, key(x), a)) == multiset(Group(key, key(x), b));
    }
    SameCounts(multiset(a), multiset(b));
  }

  /** ... and only if they are. */
  lemma SameGroup<T, K>(key: T -> K, a: seq<T>, b: seq<T>, name: K)
    requires multiset(a) == multiset(b)
    ensures multiset(Group(key, name, a)) == multiset(Group(key, name, b))
  {
    forall x ensures multiset(Group(key, name, a))[x] == multiset(Group(key, name, b))[x] {
      GroupCounts(key, name, a, x);
      GroupCounts(key, name, b, x);
    }
    SameCounts(multiset(Group(key, name, a)), multiset(Group(key, name, b)));
  }

  lemma SameCounts<T>(a: multiset<T>, b: multiset<T>)
    requires forall x :: a[x] == b[x]
    ensures a == b
  {
  }

  /** Everything in the named queues, the queues of a list of names taken together. */
  ghost function Held<K, T>(names: seq<K>, queues: map<K, seq<T>>): multiset<T>
    requires forall name :: name in names ==> name in queues
  {
    if names == [] then multiset{} else multiset(queues[names[0]]) + Held(names[1..], queues)
  }

  /** What is held outside one queue stays when that queue is replaced. */
  lemma {:induction false} HeldAround<K, T>(names: seq<K>, queues: map<K, seq<T>>, name: K, q: seq<T>)
    returns (rest: multiset<T>)
    requires NoRepeats(names) && name in names && forall other :: other in names ==> other in queues
    ensures Held(names, queues) == rest + multiset(queues[name])
    ensures Held(names, queues[name := q]) == rest + multiset(q)
  {
    if names[0] == name {
      rest := Held(names[1..], queues);
      assert name !in names[1..];
      HeldElsewhere(names[1..], queues, name, q);
    } else {
      var inner := HeldAround(names[1..], queues, name, q);
      rest := multiset(queues[names[0]]) + inner;
    }
  }

  lemma {:induction false} HeldElsewhere<K, T>(names: seq<K>, queues: map<K, seq<T>>, name: K, q: seq<T>)
    requires name !in names && forall other :: other in names ==> other in queues
    ensures Held(names, queues[name := q]) == Held(names, queues)
  {
    if names != [] { HeldElsewhere(names[1..], queues, name, q); }
  }

  /** The queues are all empty exactly if nothing is held. */
  lemma {:induction false} NothingHeldIff<K, T>(names: seq<K>, queues: map<K, seq<T>>)
    requires forall name :: name in names ==> name in queues
    ensures Held(names, queues) == multiset{} <==> forall name :: name in names ==> queues[name] == []
  {
    if names != [] {
      NothingHeldIff(names[1..], queues);
      assert names == [names[0]] + names[1..];
      assert queues[names[0]] != [] ==> queues[names[0]][0] in Held(names, queues);
    }
  }

  ghost function GroupsOf<T, K>(key: T -> K, names: seq<K>, items: seq<T>): (queues: map<K, seq<T>>)
    ensures forall name :: name in names ==> name in queues
    ensures forall name :: name in names ==> queues[name] == Group(key, name, items)
  {
    map name | name in names :: Group(key, name, items)
  }

  lemma GroupsOfOneMore<T, K>(key: T -> K, names: seq<K>, items: seq<T>, x: T)
    requires NoRepeats(names) && key(x) in names
    ensures Held(names, GroupsOf(key, names, items + [x])) == Held(names, GroupsOf(key, names, items)) + multiset{x}
  {
    var before, after := GroupsOf(key, names, items), GroupsOf(key, names, items + [x]);
    var grown := before[key(x) := before[key(x)] + [x]];
    forall name | name in names ensures after[name] == grown[name] {
      GroupGrows(key, name, items, x);
    }
    HeldAlike(names, after, grown);
    OneMoreHeld(names, before, key(x), x);
  }

  lemma {:induction false} GroupsOfHold<T, K>(key: T -> K, names: seq<K>, items: seq<T>)
    requires NoRepeats(names) && forall x :: x in items ==> key(x) in names
    ensures Held(names, GroupsOf(key, names, items)) == multiset(items)
    decreases |items|
  {
    if items == [] {
      NothingHeldIff(names, GroupsOf(key, names, items));
    } else {
      var m := |items| - 1;
      assert items == items[..m] + [items[m]];
      GroupsOfHold(key, names, items[..m]);
      GroupsOfOneMore(key, names, items[..m], items[m]);
    }
  }

  /** Queues that are the groups of a list hold exactly that list. */
  lemma GroupsHoldAll<T, K>(key: T -> K, names: seq<K>, items: seq<T>, queues: map<K, seq<T>>)
    requires NoRepeats(names) && forall x :: x in items ==> key(x) in names
    requires forall name :: name in names ==> name in queues && queues[name] == Group(key, name, items)
    ensures Held(names, queues) == multiset(items)
  {
    GroupsOfHold(key, names, items);
    HeldAlike(names, queues, GroupsOf(key, names, items));
  }

  lemma OneMoreHeld<T, K>(names: seq<K>, queues: map<K, seq<T>>, name: K, x: T)
    requires NoRepeats(names) && name in names && forall other :: other in names ==> other in queues
    ensures Held(names, queues[name := queues[name] + [x]]) == Held(names, queues) + multiset{x}
  {
    var rest := HeldAround(names, queues, name, queues[name] + [x]);
  }

  lemma {:induction false} HeldAlike<K, T>(names: seq<K>, queues: map<K, seq<T>>, others: map<K, seq<T>>)
    requires forall name :: name in names ==> name in queues && name in others && queues[name] == others[name]
    ensures Held(names, queues) == Held(names, others)
  {
    if names != [] { HeldAlike(names[1..], queues, others); }
  }
}

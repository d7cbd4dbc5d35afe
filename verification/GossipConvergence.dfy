/** Gossip convergence: two sweeps of a hub inform everybody, and the statistics say so. */
module GossipConvergence {
  import opened Common
  import opened Gossip

  /** Nodes 0 to n-1 post themselves. */
  ghost function Posts(n: nat, info: int -> Info): seq<Op> {
    if n == 0 then [] else Posts(n - 1, info) + [Post(n - 1, info(n - 1))]
  }

  /** The hub, node 0, meets nodes 1 to n-1 in turn. */
  ghost function Sweep(n: nat): seq<Op> {
    if n <= 1 then [] else Sweep(n - 1) + [Meet(0, n - 1)]
  }

  /** Exactly nodes 0 to n-1 own a view, and no view mentions another node. */
  ghost predicate Among(views: Views, n: nat) {
    (forall i :: i in views <==> 0 <= i < n) && (forall i, k :: Knows(views, i, k) ==> 0 <= k < n)
  }

  /** Everybody knows itself, and the hub knows nodes 0 to j-1. */
  ghost predicate HubKnows(views: Views, n: nat, j: nat) {
    && Among(views, n)
    && (forall i :: 0 <= i < n ==> Knows(views, i, i))
    && (forall k :: 0 <= k < j ==> Knows(views, 0, k))
  }

  /** Nodes 0 to j-1 know all n nodes. */
  ghost predicate Informed(views: Views, n: nat, j: nat) {
    Among(views, n) && forall i, k :: 0 <= i < j && 0 <= k < n ==> Knows(views, i, k)
  }

  ghost predicate Complete(views: Views, n: nat) { Informed(views, n, n) }

  lemma MeetKnows(views: Views, a: int, b: int, i: int, k: int)
    ensures i in Exchanged(views, a, b, map[]) <==> i in views || i == a || i == b
    ensures Knows(Exchanged(views, a, b, map[]), i, k)
      <==> Knows(views, i, k) || (i == a && Knows(views, b, k)) || (i == b && Knows(views, a, k))
  {
  }

  lemma MeetAmong(views: Views, n: nat, a: int, b: int)
    requires Among(views, n) && 0 <= a < n && 0 <= b < n
    ensures Among(Exchanged(views, a, b, map[]), n)
  {
    forall i, k ensures i in Exchanged(views, a, b, map[]) <==> 0 <= i < n
      ensures Knows(Exchanged(views, a, b, map[]), i, k) ==> 0 <= k < n
    {
      MeetKnows(views, a, b, i, k);
    }
  }

  lemma HubStep(views: Views, n: nat, j: nat)
    requires HubKnows(views, n, j) && 0 < j < n
    ensures HubKnows(Exchanged(views, 0, j, map[]), n, j + 1)
  {
    var t := Exchanged(views, 0, j, map[]);
    MeetAmong(views, n, 0, j);
    forall i | 0 <= i < n ensures Knows(t, i, i) { MeetKnows(views, 0, j, i, i); }
    forall k | 0 <= k < j + 1 ensures Knows(t, 0, k) { MeetKnows(views, 0, j, 0, k); }
  }

  lemma HubIsInformed(views: Views, n: nat)
    requires HubKnows(views, n, n)
    ensures Informed(views, n, 1)
  {
  }

  lemma InformedStep(views: Views, n: nat, j: nat)
    requires Informed(views, n, j) && 0 < j < n
    ensures Informed(Exchanged(views, 0, j, map[]), n, j + 1)
  {
    var t := Exchanged(views, 0, j, map[]);
    MeetAmong(views, n, 0, j);
    forall i, k | 0 <= i < j + 1 && 0 <= k < n ensures Knows(t, i, k) { MeetKnows(views, 0, j, i, k); }
  }

  lemma CompleteStep(views: Views, n: nat, a: int, b: int)
    requires Complete(views, n) && 0 <= a < n && 0 <= b < n
    ensures Complete(Exchanged(views, a, b, map[]), n)
  {
    MeetAmong(views, n, a, b);
    forall i, k | 0 <= i < n && 0 <= k < n ensures Knows(Exchanged(views, a, b, map[]), i, k) {
      MeetKnows(views, a, b, i, k);
    }
  }

  /** Exactly nodes 0 to n-1 own a view, and each knows itself. */
  ghost predicate AllPosted(views: Views, n: nat) {
    Among(views, n) && forall i :: 0 <= i < n ==> Knows(views, i, i)
  }

  lemma PostKnows(views: Views, n: int, info: Info, i: int, k: int)
    ensures i in Posted(views, n, info) <==> i in views || i == n
    ensures Knows(Posted(views, n, info), i, k) <==> Knows(views, i, k) || (i == n && k == n)
  {
  }

  lemma PostStep(views: Views, n: nat, info: Info)
    requires AllPosted(views, n)
    ensures AllPosted(Posted(views, n, info), n + 1)
  {
    var t := Posted(views, n, info);
    forall i, k ensures i in t <==> 0 <= i < n + 1
      ensures Knows(t, i, k) ==> 0 <= k < n + 1
    {
      PostKnows(views, n, info, i, k);
    }
    forall i | 0 <= i < n + 1 ensures Knows(t, i, i) { PostKnows(views, n, info, i, i); }
  }

  lemma PostsStep(before: seq<Op>, n: nat, info: Info)
    requires AllPosted(Exec(before), n)
    ensures AllPosted(Exec(before + [Post(n, info)]), n + 1)
  {
    ExecLast(before, Post(n, info));
    PostStep(Exec(before), n, info);
  }

  lemma {:induction false} AfterPosts(n: nat, info: int -> Info, posts: seq<Op>)
    requires posts == Posts(n, info)
    ensures AllPosted(Exec(posts), n)
  {
    if n > 0 {
      var before := Posts(n - 1, info);
      AfterPosts(n - 1, info, before);
      PostsStep(before, n - 1, info(n - 1));
    }
  }

  /** What a sweep does to the views. */
  ghost function Swept(views: Views, j: nat): Views {
    if j <= 1 then views else Exchanged(Swept(views, j - 1), 0, j - 1, map[])
  }

  /** A run, followed by a sweep. */
  ghost function WithSweep(start: seq<Op>, j: nat): seq<Op> {
    if j <= 1 then start else WithSweep(start, j - 1) + [Meet(0, j - 1)]
  }

  lemma {:induction false} WithSweepIs(start: seq<Op>, j: nat)
    ensures WithSweep(start, j) == start + Sweep(j)
  {
    if j > 1 { WithSweepIs(start, j - 1); }
  }

  lemma {:induction false} ExecSweep(start: seq<Op>, j: nat)
    ensures Exec(WithSweep(start, j)) == Swept(Exec(start), j)
  {
    if j > 1 {
      ExecSweep(start, j - 1);
      ExecLast(WithSweep(start, j - 1), Meet(0, j - 1));
    }
  }

  lemma ExecNothing(start: seq<Op>, ops: seq<Op>)
    requires ops == []
    ensures Exec(start + ops) == Exec(start)
  {
    assert start + ops == start;
  }

  lemma ExecAppend(start: seq<Op>, ops: seq<Op>, op: Op)
    ensures Exec(start + (ops + [op])) == Apply(Exec(start + ops), op)
  {
    assert start + (ops + [op]) == (start + ops) + [op];
    ExecLast(start + ops, op);
  }

  /** The first sweep collects everything at the hub. */
  lemma {:induction false} FirstSweep(views: Views, n: nat, j: nat)
    requires 1 <= j <= n && HubKnows(views, n, 1)
    ensures HubKnows(Swept(views, j), n, j)
  {
    if j > 1 {
      FirstSweep(views, n, j - 1);
      HubStep(Swept(views, j - 1), n, j - 1);
    }
  }

  /** A sweep from a hub that knows everything hands its view to everybody it meets. */
  lemma {:induction false} SecondSweep(views: Views, n: nat, j: nat)
    requires 1 <= j <= n && HubKnows(views, n, n)
    ensures Informed(Swept(views, j), n, j)
  {
    if j == 1 {
      HubIsInformed(views, n);
    } else {
      SecondSweep(views, n, j - 1);
      InformedStep(Swept(views, j - 1), n, j - 1);
    }
  }

  lemma TwoSweeps(start: seq<Op>, n: nat)
    requires n > 0 && HubKnows(Exec(start), n, 1)
    ensures Complete(Exec(start + Sweep(n) + Sweep(n)), n)
  {
    var once := WithSweep(start, n);
    ExecSweep(start, n);
    ExecSweep(once, n);
    FirstSweep(Exec(start), n, n);
    SecondSweep(Exec(once), n, n);
    WithSweepIs(start, n);
    WithSweepIs(once, n);
  }

  lemma {:induction false} StaysComplete(start: seq<Op>, n: nat, more: seq<Op>)
    requires Complete(Exec(start), n)
    requires forall k :: 0 <= k < |more| ==> more[k].Meet? && 0 <= more[k].a < n && 0 <= more[k].b < n
    ensures Complete(Exec(start + more), n)
    decreases |more|
  {
    if more == [] {
      ExecNothing(start, more);
    } else {
      var k := |more| - 1;
      var fewer, last := more[..k], more[k];
      StaysComplete(start, n, fewer);
      assert more == fewer + [last];
      ExecAppend(start, fewer, last);
      CompleteStep(Exec(start + fewer), n, last.a, last.b);
    }
  }

  /**
   After every node has posted itself, two sweeps of the hub make every view complete,
   and any exchanges among the nodes afterwards keep them so.
   */
  lemma TwoSweepsConverge(n: nat, info: int -> Info, more: seq<Op>)
    requires n > 0
    requires forall k :: 0 <= k < |more| ==> more[k].Meet? && 0 <= more[k].a < n && 0 <= more[k].b < n
    ensures Complete(Exec(Posts(n, info) + Sweep(n) + Sweep(n) + more), n)
  {
    AfterPosts(n, info, Posts(n, info));
    TwoSweeps(Posts(n, info), n);
    StaysComplete(Posts(n, info) + Sweep(n) + Sweep(n), n, more);
  }

  /** In a complete cluster every view counts as converged. */
  lemma CompleteIsConverged(views: Views, n: nat)
    requires Complete(views, n)
    ensures AllComplete(views)
  {
    forall v | v in views ensures views[v].Keys == AllNodes(views) {
      forall k ensures k in views[v].Keys <==> k in AllNodes(views) {
        InAllNodes(views, k);
        assert k in views[v].Keys <==> Knows(views, v, k);
        assert k in views ==> Knows(views, v, k);
      }
    }
  }
}

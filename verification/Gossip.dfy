/**
 Gossip: the protocol object, and what a view contains after any run of posts and exchanges.
 */
module Gossip {
  import opened Common

  datatype Info = Info(status: string, loadScore: real)

  /** What each node stores about each node; `T` is what an entry holds. */
  type ViewsOf<T> = map<int, map<int, T>>

  type View = map<int, Info>

  type Views = ViewsOf<Info>

  function ViewOf<T>(views: ViewsOf<T>, node: int): map<int, T> {
    if node in views then views[node] else map[]
  }

  function Ensured<T>(views: ViewsOf<T>, node: int): ViewsOf<T> {
    if node in views then views else views[node := map[]]
  }

  function Posted<T>(views: ViewsOf<T>, node: int, x: T): ViewsOf<T> {
    var v := Ensured(views, node);
    v[node := v[node][node := x]]
  }

  /** Both nodes get the union; where both know a node, the second one's entry wins. */
  function Exchanged<T>(views: ViewsOf<T>, a: int, b: int, snapshot: map<int, T>): ViewsOf<T> {
    var v := Ensured(Ensured(views, a), b);
    var w := v[a := v[a] + snapshot];
    var merged := w[a] + w[b];
    w[a := merged][b := merged]
  }

  datatype Record = Record(round: nat, from: int, to: int, shared: nat)

  /** What each of the two nodes stores about k afterwards; of two different nodes the second one's entry wins. */
  lemma ExchangedEntries<T>(views: ViewsOf<T>, a: int, b: int, snapshot: map<int, T>, k: int)
    ensures var after, mine, theirs := Exchanged(views, a, b, snapshot), ViewOf(views, a), ViewOf(views, b);
      && after.Keys == views.Keys + {a, b} && after[a] == after[b]
      && (forall node :: node in views && node != a && node != b ==> after[node] == views[node])
      && (k in after[a] <==> k in mine || k in snapshot || k in theirs)
      && (a != b && k in theirs ==> after[a][k] == theirs[k])
      && (k in snapshot && (a == b || k !in theirs) ==> after[a][k] == snapshot[k])
      && (k in mine && k !in snapshot && (a == b || k !in theirs) ==> after[a][k] == mine[k])
  {
  }

  function Latest(records: seq<Record>, n: nat): (latest: seq<Record>)
    ensures |latest| == (if |records| < n then |records| else n)
    ensures latest == records[|records| - |latest|..]
  {
    if |records| > n then records[|records| - n..] else records
  }

  /** Node y's view has an entry for x. */
  ghost predicate Knows(views: Views, y: int, x: int) { y in views && x in views[y] }

  /** All nodes that own a view or are mentioned in one. */
  ghost function AllNodes(views: Views): set<int> {
    views.Keys + (set v, k | v in views && k in views[v] :: k)
  }

  lemma InAllNodes(views: Views, k: int)
    ensures k in AllNodes(views) <==> k in views || exists v :: Knows(views, v, k)
  {
    if v :| Knows(views, v, k) { assert v in views && k in views[v]; }
    if k in AllNodes(views) && k !in views {
      var v :| v in views && k in views[v];
      assert Knows(views, v, k);
    }
  }

  class GossipProtocol {
    var rounds: nat
    var views: Views
    var recentExchanges: seq<Record>

    constructor ()
      ensures rounds == 0 && views == map[] && recentExchanges == []
    {
      rounds, views, recentExchanges := 0, map[], [];
    }

    method UpdateSelf(nodeId: int, status: string, loadScore: real)
      modifies this`views
      ensures views == Posted(old(views), nodeId, Info(status, loadScore))
      ensures views.Keys == old(views).Keys + {nodeId}
      ensures views[nodeId] == ViewOf(old(views), nodeId)[nodeId := Info(status, loadScore)]
      ensures forall node :: node in old(views) && node != nodeId ==> views[node] == old(views)[node]
    {
      if nodeId !in views { views := views[nodeId := map[]]; }
      views := views[nodeId := views[nodeId][nodeId := Info(status, loadScore)]];
    }

    method MergeViews(nodeA: int, nodeB: int, snapshot: View) returns (shared: nat)
      modifies this`views
      ensures views == Exchanged(old(views), nodeA, nodeB, snapshot)
      ensures shared == |ViewOf(views, nodeA)|
    {
      var v := Ensured(Ensured(views, nodeA), nodeB);
      v := v[nodeA := v[nodeA] + snapshot];
      var merged := v[nodeA] + v[nodeB];
      v := v[nodeA := merged];
      v := v[nodeB := merged];
      views := v;
      shared := |merged|;
    }

    /** `snapshot` holds the well-formed node states of the optional argument, empty if there is none. */
    method Exchange(nodeA: int, nodeB: int, snapshot: View)
      modifies this
      ensures views == Exchanged(old(views), nodeA, nodeB, snapshot)
      ensures rounds == old(rounds) + 1
      ensures var record := Record(rounds, nodeA, nodeB, |ViewOf(views, nodeA)|);
        recentExchanges == Latest(old(recentExchanges) + [record], 20)
    {
      var shared := MergeViews(nodeA, nodeB, snapshot);
      rounds := rounds + 1;
      recentExchanges := recentExchanges + [Record(rounds, nodeA, nodeB, shared)];
      if |recentExchanges| > 20 {
        recentExchanges := recentExchanges[|recentExchanges| - 20..];
      }
    }

    method KnownNodes(nodeId: int) returns (known: View)
      ensures known == ViewOf(views, nodeId)
      ensures nodeId in views ==> known == views[nodeId]
      ensures nodeId !in views ==> known == map[]
    {
      known := if nodeId in views then views[nodeId] else map[];
    }

    static method KnownAnywhere(views: Views) returns (allNodes: set<int>)
      ensures allNodes == AllNodes(views)
    {
      allNodes := views.Keys;
      var rest := views.Keys;
      while rest != {}
        invariant rest <= views.Keys
        invariant forall k :: k in allNodes <==> k in views || exists v :: v !in rest && Knows(views, v, k)
      {
        var v := Take(rest);
        rest := rest - {v};
        allNodes := allNodes + views[v].Keys;
      }
      forall k ensures k in allNodes <==> k in AllNodes(views) { InAllNodes(views, k); }
    }

    static method CountConverged(views: Views, expected: nat) returns (count: nat)
      ensures count == |LargeViews(views, expected)|
    {
      count := 0;
      var rest := views.Keys;
      ghost var counted: set<int> := {};
      while rest != {}
        invariant rest <= views.Keys && count == |counted|
        invariant forall v :: v in counted <==> v in views && v !in rest && |views[v]| >= expected
      {
        var v := Take(rest);
        rest := rest - {v};
        if |views[v]| >= expected {
          count := count + 1;
          counted := counted + {v};
        }
      }
      forall v ensures v in counted <==> v in LargeViews(views, expected) {}
      assert counted == LargeViews(views, expected);
    }

    /** The rounds, the nodes ever mentioned, the share of views that know them all, and five exchanges. */
    method Stats() returns (roundsSoFar: nat, knownNodes: nat, convergence: real, recent: seq<Record>)
      ensures roundsSoFar == rounds && knownNodes == |AllNodes(views)|
      ensures convergence == |CompleteViews(views)| as real / (if |views| > 1 then |views| else 1) as real
      ensures convergence == 1.0 <==> views != map[] && AllComplete(views)
      ensures recent == Latest(recentExchanges, 5)
    {
      var allNodes := KnownAnywhere(views);
      roundsSoFar, knownNodes := rounds, |allNodes|;
      var expected := if |allNodes| > 1 then |allNodes| else 1;
      var convergedViews := CountConverged(views, expected);
      var total := if |views| > 1 then |views| else 1;
      convergence := convergedViews as real / total as real;
      recent := if |recentExchanges| > 5 then recentExchanges[|recentExchanges| - 5..] else recentExchanges;
      LargeIffComplete(views);
      AllCompleteBySize(views);
      RatioIsOne(convergedViews, total);
    }
  }

  lemma RatioIsOne(c: nat, total: nat)
    requires total > 0
    ensures c as real / total as real == 1.0 <==> c == total
  {
  }

  ghost function LargeViews(views: Views, size: nat): set<int> { set v | v in views && |views[v]| >= size }

  ghost function CompleteViews(views: Views): set<int> { set v | v in views && views[v].Keys == AllNodes(views) }

  /** Every view knows every node. */
  ghost predicate AllComplete(views: Views) { forall v :: v in views ==> views[v].Keys == AllNodes(views) }

  /** A view is complete exactly if it is as large as the set of all nodes, or as one. */
  lemma CompleteBySize(views: Views, v: int)
    requires v in views
    ensures |views[v]| >= (if |AllNodes(views)| > 1 then |AllNodes(views)| else 1) <==> views[v].Keys == AllNodes(views)
  {
    assert |views[v]| == |views[v].Keys|;
    forall k | k in views[v].Keys ensures k in AllNodes(views) {
      assert Knows(views, v, k);
      InAllNodes(views, k);
    }
    SubsetSize(views[v].Keys, AllNodes(views));
    SubsetSize({v}, AllNodes(views));
  }

  lemma LargeIffComplete(views: Views)
    ensures LargeViews(views, if |AllNodes(views)| > 1 then |AllNodes(views)| else 1) == CompleteViews(views)
  {
    forall v | v in views
      ensures |views[v]| >= (if |AllNodes(views)| > 1 then |AllNodes(views)| else 1)
        <==> views[v].Keys == AllNodes(views)
    {
      CompleteBySize(views, v);
    }
  }

  lemma AllCompleteBySize(views: Views)
    ensures |CompleteViews(views)| <= |views| && (|CompleteViews(views)| == |views| <==> AllComplete(views))
    ensures |views| == 0 <==> views == map[]
  {
    assert |views.Keys| == |views|;
    SubsetSize(CompleteViews(views), views.Keys);
    if AllComplete(views) {
      forall v ensures v in CompleteViews(views) <==> v in views.Keys {}
      assert CompleteViews(views) == views.Keys;
    }
  }

  // -------------------------------------------------------- runs

  datatype Op = Post(node: int, info: Info) | Meet(a: int, b: int)

  ghost function Apply(views: Views, op: Op): Views {
    match op
    case Post(node, info) => Posted(views, node, info)
    case Meet(a, b) => Exchanged(views, a, b, map[])
  }

  ghost function Exec(ops: seq<Op>): Views
    decreases |ops|
  {
    if ops == [] then map[] else Apply(Exec(ops[..|ops| - 1]), ops[|ops| - 1])
  }

  lemma ExecLast(ops: seq<Op>, op: Op)
    ensures Exec(ops + [op]) == Apply(Exec(ops), op)
  {
    assert (ops + [op])[..|ops|] == ops;
  }

  ghost predicate Joins(op: Op, u: int, v: int) {
    op.Meet? && ((op.a == u && op.b == v) || (op.a == v && op.b == u))
  }

  /**
   A chain along which a post of `info` about x reaches y: first the post itself, at host x,
   then exchanges at rising times, each joining the last host to the next one.
   */
  ghost predicate IsChain(ops: seq<Op>, times: seq<nat>, hosts: seq<int>, x: int, info: Info, y: int) {
    && |times| == |hosts| >= 1
    && (forall i :: 0 <= i < |times| ==> times[i] < |ops|)
    && ops[times[0]] == Post(x, info)
    && hosts[0] == x && hosts[|hosts| - 1] == y
    && (forall i :: 1 <= i < |times| ==> times[i - 1] < times[i] && Joins(ops[times[i]], hosts[i - 1], hosts[i]))
  }

  ghost predicate Reached(ops: seq<Op>, x: int, info: Info, y: int) {
    exists times, hosts :: IsChain(ops, times, hosts, x, info, y)
  }

  lemma ReachedLater(ops: seq<Op>, op: Op, x: int, info: Info, y: int)
    requires Reached(ops, x, info, y)
    ensures Reached(ops + [op], x, info, y)
  {
    var times, hosts :| IsChain(ops, times, hosts, x, info, y);
    assert IsChain(ops + [op], times, hosts, x, info, y);
  }

  lemma ReachedByMeeting(ops: seq<Op>, op: Op, x: int, info: Info, y: int, z: int)
    requires Reached(ops, x, info, y) && Joins(op, y, z)
    ensures Reached(ops + [op], x, info, z)
  {
    var times, hosts :| IsChain(ops, times, hosts, x, info, y);
    var now: nat := |ops|;
    assert IsChain(ops + [op], times + [now], hosts + [z], x, info, z);
  }

  /** Every entry of a view arrived by a chain that starts with the post of exactly that value. */
  lemma {:induction false} EntriesWerePosted(ops: seq<Op>, x: int, y: int)
    requires x in ViewOf(Exec(ops), y)
    ensures Reached(ops, x, ViewOf(Exec(ops), y)[x], y)
    decreases |ops|
  {
    var k := |ops| - 1;
    var before, op := ops[..k], ops[k];
    assert ops == before + [op];
    var info := ViewOf(Exec(ops), y)[x];
    if op.Post? && op.node == y && x == y {
      assert IsChain(ops, [k], [y], x, info, y);
    } else if op.Meet? && (y == op.a || y == op.b) {
      var z := if x in ViewOf(Exec(before), op.b) then op.b else op.a;
      EntriesWerePosted(before, x, z);
      if z == y { ReachedLater(before, op, x, info, y); } else { ReachedByMeeting(before, op, x, info, z, y); }
    } else {
      EntriesWerePosted(before, x, y);
      ReachedLater(before, op, x, info, y);
    }
  }

  lemma StepKeepsKnown(views: Views, op: Op, y: int, x: int)
    requires Knows(views, y, x)
    ensures Knows(Apply(views, op), y, x)
  {
  }

  lemma StepTellsPartner(views: Views, op: Op, u: int, y: int, x: int)
    requires Knows(views, u, x) && Joins(op, u, y)
    ensures Knows(Apply(views, op), y, x)
  {
  }

  lemma ChainPrefix(ops: seq<Op>, times: seq<nat>, hosts: seq<int>, x: int, info: Info, y: int, k: nat)
    requires IsChain(ops, times, hosts, x, info, y) && k < |ops| == k + 1
    ensures times[|times| - 1] < k ==> IsChain(ops[..k], times, hosts, x, info, y)
    ensures var m := |times| - 1;
      m > 0 && times[m] == k
      ==> IsChain(ops[..k], times[..m], hosts[..m], x, info, hosts[m - 1]) && Joins(ops[k], hosts[m - 1], y)
  {
    TimesRise(ops, times, hosts, x, info, y);
  }

  /** Whatever a chain reaches is known there. */
  lemma {:induction false} ChainsAreKnown(ops: seq<Op>, times: seq<nat>, hosts: seq<int>, x: int, info: Info, y: int)
    requires IsChain(ops, times, hosts, x, info, y)
    ensures Knows(Exec(ops), y, x)
    decreases |ops|
  {
    var k, m := |ops| - 1, |times| - 1;
    var before := ops[..k];
    assert ops == before + [ops[k]];
    ExecLast(before, ops[k]);
    ChainPrefix(ops, times, hosts, x, info, y, k);
    if times[m] < k {
      ChainsAreKnown(before, times, hosts, x, info, y);
      StepKeepsKnown(Exec(before), ops[k], y, x);
    } else if m > 0 {
      ChainsAreKnown(before, times[..m], hosts[..m], x, info, hosts[m - 1]);
      StepTellsPartner(Exec(before), ops[k], hosts[m - 1], y, x);
    }
  }

  lemma {:induction false} TimesRise(ops: seq<Op>, times: seq<nat>, hosts: seq<int>, x: int, info: Info, y: int)
    requires IsChain(ops, times, hosts, x, info, y)
    ensures forall i :: 0 <= i < |times| - 1 ==> times[i] < times[|times| - 1]
    decreases |times|
  {
    var m := |times| - 1;
    if m > 0 { TimesRise(ops, times[..m], hosts[..m], x, info, hosts[m - 1]); }
  }

  /** A node is known to y exactly if some post of it reaches y by a time-respecting chain of exchanges. */
  lemma KnownIffReached(ops: seq<Op>, x: int, y: int)
    ensures x in ViewOf(Exec(ops), y) <==> exists info :: Reached(ops, x, info, y)
  {
    if x in ViewOf(Exec(ops), y) { EntriesWerePosted(ops, x, y); }
    if info :| Reached(ops, x, info, y) {
      var times, hosts :| IsChain(ops, times, hosts, x, info, y);
      ChainsAreKnown(ops, times, hosts, x, info, y);
    }
  }
}

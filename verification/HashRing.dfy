/**
 The consistent hash ring: sorted virtual points, kept by binary insertion and looked up
 by bisection. The ring depends only on its set of nodes, and a change of that set moves
 only the keys it must. The hash is any function from strings to positions.
 */
module HashRing {
  import opened Common

  type Hash = string -> nat

  /** Where replica i of a node lies; any placement will do for the proofs. */
  type Places = (string, nat) -> nat

  datatype Point = Point(pos: nat, node: string)

  /** Strings compare code point by code point. */
  predicate NameLe(a: string, b: string) {
    if a == [] then true
    else if b == [] then false
    else a[0] < b[0] || (a[0] == b[0] && NameLe(a[1..], b[1..]))
  }

  predicate Le(a: Point, b: Point) {
    a.pos < b.pos || (a.pos == b.pos && NameLe(a.node, b.node))
  }

  lemma {:induction false} NameTotal(a: string, b: string)
    ensures NameLe(a, b) || NameLe(b, a)
    ensures NameLe(a, b) && NameLe(b, a) ==> a == b
  {
    if a != [] && b != [] {
      NameTotal(a[1..], b[1..]);
      assert a == [a[0]] + a[1..] && b == [b[0]] + b[1..];
    }
  }

  lemma {:induction false} NameTransitive(a: string, b: string, c: string)
    requires NameLe(a, b) && NameLe(b, c)
    ensures NameLe(a, c)
  {
    if a != [] && b != [] && c != [] && a[0] == b[0] == c[0] { NameTransitive(a[1..], b[1..], c[1..]); }
  }

  /** A prefix comes first, and else the smaller code point at the first difference decides. */
  lemma {:induction false} NamesByFirstDifference(common: string, a: string, b: string)
    ensures NameLe(common, common + a)
    ensures a != [] && b != [] && a[0] < b[0] ==> NameLe(common + a, common + b) && !NameLe(common + b, common + a)
  {
    if common == [] {
      assert [] + a == a && [] + b == b;
    } else {
      NamesByFirstDifference(common[1..], a, b);
      assert (common + a)[1..] == common[1..] + a && (common + b)[1..] == common[1..] + b;
    }
  }

  lemma LeTotal(a: Point, b: Point)
    ensures Le(a, b) || Le(b, a)
    ensures Le(a, b) && Le(b, a) ==> a == b
  {
    NameTotal(a.node, b.node);
  }

  lemma LeTransitive(a: Point, b: Point, c: Point)
    requires Le(a, b) && Le(b, c)
    ensures Le(a, c)
  {
    if NameLe(a.node, b.node) && NameLe(b.node, c.node) { NameTransitive(a.node, b.node, c.node); }
  }

  ghost predicate Sorted(points: seq<Point>) {
    forall i, j :: 0 <= i < j < |points| ==> Le(points[i], points[j])
  }

  // -------------------------------------------------------- the ring as a value

  datatype Ring = Ring(points: seq<Point>, positions: seq<nat>, nodes: set<string>)

  function Replica(places: Places, node: string, i: nat): Point { Point(places(node, i), node) }

  /** Linear insertion behind all smaller or equal points. */
  function Inserted(points: seq<Point>, p: Point): seq<Point> {
    if points == [] || !Le(points[0], p) then [p] + points
    else [points[0]] + Inserted(points[1..], p)
  }

  function WithReplicas(places: Places, points: seq<Point>, node: string, k: nat): seq<Point>
    decreases k
  {
    if k == 0 then points else Inserted(WithReplicas(places, points, node, k - 1), Replica(places, node, k - 1))
  }

  function Without(points: seq<Point>, node: string): seq<Point> {
    if points == [] then []
    else (if points[0].node != node then [points[0]] else []) + Without(points[1..], node)
  }

  function Positions(points: seq<Point>): seq<nat> {
    seq(|points|, i requires 0 <= i < |points| => points[i].pos)
  }

  function Make(points: seq<Point>, nodes: set<string>): Ring { Ring(points, Positions(points), nodes) }

  function Added(places: Places, replicas: nat, r: Ring, node: string): Ring {
    if node in r.nodes then r
    else Make(WithReplicas(places, r.points, node, replicas), r.nodes + {node})
  }

  function Removed(r: Ring, node: string): Ring {
    if node !in r.nodes then r else Make(Without(r.points, node), r.nodes - {node})
  }

  // -------------------------------------------------------- the object

  function Decimal(n: nat): string {
    var digit := ['0' + (n % 10) as char];
    if n < 10 then digit else Decimal(n / 10) + digit
  }

  /** The string hashed for replica i of a node. */
  function ReplicaKey(node: string, i: nat): string { node + ":" + Decimal(i) }

  /** The number that a string of digits stands for. */
  ghost function Value(s: string): int
    decreases |s|
  {
    if s == [] then 0 else 10 * Value(s[..|s| - 1]) + (s[|s| - 1] as int - '0' as int)
  }

  /** The decimal form consists of digits and stands for its number. */
  lemma {:induction false} DecimalReads(n: nat)
    ensures forall i :: 0 <= i < |Decimal(n)| ==> '0' <= Decimal(n)[i] <= '9'
    ensures Value(Decimal(n)) == n
    decreases n
  {
    var digit := ['0' + (n % 10) as char];
    if n < 10 {
      assert digit[..0] == [];
    } else {
      DecimalReads(n / 10);
      assert (Decimal(n / 10) + digit)[..|Decimal(n / 10)|] == Decimal(n / 10);
    }
  }

  lemma SplitAtColon(a: string, s: string, b: string, t: string)
    requires ':' !in s && ':' !in t && a + ":" + s == b + ":" + t
    ensures a == b && s == t
  {
    if |a| > |b| {
      ColonLater(a, s, b, t);
    } else if |a| < |b| {
      ColonLater(b, t, a, s);
    } else {
      var both := a + ":" + s;
      assert a == both[..|a|] == b;
      assert s == both[|a| + 1..] == t;
    }
  }

  lemma ColonLater(a: string, s: string, b: string, t: string)
    requires |a| > |b| && a + ":" + s == b + ":" + t
    ensures ':' in t
  {
    var both := a + ":" + s;
    assert both[|a|] == ':';
    assert both[|a|] == t[|a| - |b| - 1];
  }

  /** Different replicas, of one node or of different ones, have different strings. */
  lemma ReplicaKeysDiffer(node: string, i: nat, other: string, j: nat)
    requires ReplicaKey(node, i) == ReplicaKey(other, j)
    ensures node == other && i == j
  {
    DecimalReads(i);
    DecimalReads(j);
    SplitAtColon(node, Decimal(i), other, Decimal(j));
  }

  /** The string is the node's name, a colon, and the replica's number in decimal. */
  lemma ReplicaKeyReads(node: string, i: nat)
    ensures ReplicaKey(node, i)[..|node|] == node && ReplicaKey(node, i)[|node|] == ':'
    ensures Value(ReplicaKey(node, i)[|node| + 1..]) == i
  {
    DecimalReads(i);
    assert ReplicaKey(node, i)[|node| + 1..] == Decimal(i);
  }

  class ConsistentHashRing {
    const hash: Hash
    const replicas: nat
    const places: Places
    var ring: seq<Point>
    var positions: seq<nat>
    var nodes: set<string>

    function View(): Ring
      reads this
    {
      Ring(ring, positions, nodes)
    }

    ghost predicate Valid()
      reads this
    {
      Good(places, replicas, View())
    }

    constructor (hash: Hash, replicas: nat)
      ensures this.hash == hash && this.replicas == replicas
      ensures forall node, i :: places(node, i) == hash(ReplicaKey(node, i))
      ensures View() == Make([], {}) && Valid()
    {
      this.hash, this.replicas := hash, replicas;
      places := (node, i) => hash(ReplicaKey(node, i));
      ring, positions, nodes := [], [], {};
    }

    method AddNode(name: string)
      requires Valid()
      modifies this
      ensures View() == Added(places, replicas, old(View()), name) && Valid()
      ensures nodes == old(nodes) + {name}
    {
      AddedIsGood(places, replicas, View(), name);
      if name in nodes { return; }
      nodes := nodes + {name};
      for i := 0 to replicas
        invariant ring == WithReplicas(places, old(ring), name, i) && Sorted(ring)
        invariant nodes == old(nodes) + {name} && positions == old(positions)
      {
        var p := Replica(places, name, i);
        InsertedSorted(ring, p);
        ring := Insort(ring, p);
      }
      positions := Positions(ring);
    }

    method RemoveNode(name: string)
      requires Valid()
      modifies this
      ensures View() == Removed(old(View()), name) && Valid()
      ensures nodes == old(nodes) - {name}
    {
      RemovedIsGood(places, replicas, View(), name);
      if name !in nodes { return; }
      nodes := nodes - {name};
      ring := Without(ring, name);
      positions := Positions(ring);
    }

    /** The node of the first point at or after the key's position, wrapping around. */
    method GetNode(key: string) returns (node: Option<string>)
      requires Valid()
      ensures node == None <==> nodes == {} || replicas == 0
      ensures node.Some? ==> node.value in nodes && Owns(places, replicas, nodes, hash(key), node.value)
    {
      EmptyIff(places, replicas, View());
      if ring == [] { return None; }
      var idx := BisectLeft(positions, hash(key));
      WrapsToFirst(idx, |ring|);
      idx := idx % |ring|;
      FoundIsOwner(places, replicas, View(), hash(key), idx);
      return Some(ring[idx].node);
    }
  }

  lemma WrapsToFirst(idx: nat, n: nat)
    requires idx <= n && n > 0
    ensures idx % n == if idx == n then 0 else idx
  {
  }

  /** The insertion point of bisect.insort, which goes behind equal entries. */
  method Insort(points: seq<Point>, p: Point) returns (r: seq<Point>)
    requires Sorted(points)
    ensures r == Inserted(points, p)
  {
    var lo, hi := 0, |points|;
    while lo < hi
      invariant 0 <= lo <= hi <= |points|
      invariant forall i :: 0 <= i < lo ==> Le(points[i], p)
      invariant forall i :: hi <= i < |points| ==> !Le(points[i], p)
    {
      var mid := (lo + hi) / 2;
      if !Le(points[mid], p) {
        forall i | mid <= i < |points| ensures !Le(points[i], p) {
          if Le(points[i], p) && mid < i { LeTransitive(points[mid], points[i], p); }
        }
        hi := mid;
      } else {
        forall i | 0 <= i < mid + 1 ensures Le(points[i], p) {
          if i < mid { LeTransitive(points[i], points[mid], p); }
        }
        lo := mid + 1;
      }
    }
    InsertedAt(points, p, lo);
    r := points[..lo] + [p] + points[lo..];
  }

  method BisectLeft(positions: seq<nat>, x: nat) returns (idx: nat)
    requires forall i, j :: 0 <= i < j < |positions| ==> positions[i] <= positions[j]
    ensures idx <= |positions|
    ensures forall i :: 0 <= i < idx ==> positions[i] < x
    ensures forall i :: idx <= i < |positions| ==> x <= positions[i]
  {
    var lo, hi := 0, |positions|;
    while lo < hi
      invariant 0 <= lo <= hi <= |positions|
      invariant forall i :: 0 <= i < lo ==> positions[i] < x
      invariant forall i :: hi <= i < |positions| ==> x <= positions[i]
    {
      var mid := (lo + hi) / 2;
      if positions[mid] < x { lo := mid + 1; } else { hi := mid; }
    }
    idx := lo;
  }

  lemma {:induction false} InsertedAt(points: seq<Point>, p: Point, k: nat)
    requires k <= |points|
    requires forall i :: 0 <= i < k ==> Le(points[i], p)
    requires k < |points| ==> !Le(points[k], p)
    ensures Inserted(points, p) == points[..k] + [p] + points[k..]
  {
    if k > 0 {
      InsertedAt(points[1..], p, k - 1);
      assert points[..k] == [points[0]] + points[1..][..k - 1];
      assert points[1..][k - 1..] == points[k..];
    } else {
      assert points[..0] == [] && points[0..] == points;
    }
  }

  // -------------------------------------------------------- the ring is determined by its nodes

  /** How many of the first k replicas of a node fall on a position. */
  ghost function Copies(places: Places, k: nat, node: string, pos: nat): nat
    decreases k
  {
    if k == 0 then 0 else Copies(places, k - 1, node, pos) + if places(node, k - 1) == pos then 1 else 0
  }

  ghost function Expected(places: Places, replicas: nat, nodes: set<string>, p: Point): nat {
    if p.node in nodes then Copies(places, replicas, p.node, p.pos) else 0
  }

  /** Sorted, with the projected positions, and exactly the replicas of its nodes. */
  ghost predicate Good(places: Places, replicas: nat, r: Ring) {
    && Sorted(r.points)
    && r.positions == Positions(r.points)
    && forall p :: multiset(r.points)[p] == Expected(places, replicas, r.nodes, p)
  }

  lemma {:induction false} InsertedElements(points: seq<Point>, p: Point)
    ensures multiset(Inserted(points, p)) == multiset(points) + multiset{p}
  {
    if points != [] && Le(points[0], p) {
      InsertedElements(points[1..], p);
      assert points == [points[0]] + points[1..];
    }
  }

  lemma InsertedCount(points: seq<Point>, node: string, pos: nat, p: Point)
    ensures multiset(Inserted(points, Point(pos, node)))[p]
      == multiset(points)[p] + if p.node == node && p.pos == pos then 1 else 0
  {
    InsertedElements(points, Point(pos, node));
    assert p.node == node && p.pos == pos <==> p == Point(pos, node);
  }

  lemma {:induction false} InsertedSorted(points: seq<Point>, p: Point)
    requires Sorted(points)
    ensures Sorted(Inserted(points, p))
  {
    if points == [] {
    } else if !Le(points[0], p) {
      LeTotal(points[0], p);
      forall i | 0 <= i < |points| ensures Le(p, points[i]) {
        if i > 0 { LeTransitive(p, points[0], points[i]); }
      }
    } else {
      InsertedSorted(points[1..], p);
      InsertedElements(points[1..], p);
      var rest := Inserted(points[1..], p);
      forall i | 0 <= i < |rest| ensures Le(points[0], rest[i]) {
        assert rest[i] in multiset(rest);
        if rest[i] != p { assert rest[i] in multiset(points[1..]); assert rest[i] in points[1..]; }
      }
    }
  }

  lemma {:induction false} WithReplicasSorted(places: Places, points: seq<Point>, node: string, k: nat)
    requires Sorted(points)
    ensures Sorted(WithReplicas(places, points, node, k))
    decreases k
  {
    if k > 0 {
      WithReplicasSorted(places, points, node, k - 1);
      InsertedSorted(WithReplicas(places, points, node, k - 1), Replica(places, node, k - 1));
    }
  }

  /** How often p occurs among some points and the first k replicas of a node. */
  ghost function CountWith(places: Places, points: seq<Point>, node: string, k: nat, p: Point): nat {
    multiset(points)[p] + if p.node == node then Copies(places, k, node, p.pos) else 0
  }

  lemma OneMoreReplica(places: Places, points: seq<Point>, node: string, k: nat, all: seq<Point>, p: Point)
    requires multiset(all)[p] == CountWith(places, points, node, k, p)
    ensures multiset(Inserted(all, Replica(places, node, k)))[p] == CountWith(places, points, node, k + 1, p)
  {
    InsertedCount(all, node, places(node, k), p);
  }

  /** WithReplicas, one replica after the other. */
  ghost predicate Follows(places: Places, node: string, stages: seq<seq<Point>>, k: nat) {
    && |stages| == k + 1
    && forall i :: 0 <= i < k ==> stages[i + 1] == Inserted(stages[i], Replica(places, node, i))
  }

  lemma {:induction false} WithReplicasStages(places: Places, points: seq<Point>, node: string, k: nat)
    returns (stages: seq<seq<Point>>)
    ensures Follows(places, node, stages, k)
    ensures stages[0] == points && stages[k] == WithReplicas(places, points, node, k)
  {
    if k == 0 {
      stages := [points];
    } else {
      var earlier := WithReplicasStages(places, points, node, k - 1);
      stages := earlier + [WithReplicas(places, points, node, k)];
    }
  }

  lemma {:induction false} StageCount(places: Places, node: string, stages: seq<seq<Point>>, k: nat, i: nat, p: Point)
    requires Follows(places, node, stages, k) && i <= k
    ensures multiset(stages[i])[p] == CountWith(places, stages[0], node, i, p)
    decreases i
  {
    if i > 0 {
      StageCount(places, node, stages, k, i - 1, p);
      OneMoreReplica(places, stages[0], node, i - 1, stages[i - 1], p);
      assert stages[i - 1 + 1] == Inserted(stages[i - 1], Replica(places, node, i - 1));
    }
  }

  lemma WithReplicasElements(places: Places, points: seq<Point>, node: string, k: nat, p: Point)
    ensures multiset(WithReplicas(places, points, node, k))[p] == CountWith(places, points, node, k, p)
  {
    var stages := WithReplicasStages(places, points, node, k);
    StageCount(places, node, stages, k, k, p);
  }

  lemma {:induction false} WithoutElements(points: seq<Point>, node: string, p: Point)
    ensures multiset(Without(points, node))[p] == if p.node == node then 0 else multiset(points)[p]
  {
    if points != [] {
      WithoutElements(points[1..], node, p);
      TailElements(points);
      var rest := Without(points[1..], node);
      assert multiset([points[0]] + rest)[p] == multiset(rest)[p] + if p == points[0] then 1 else 0;
    }
  }

  lemma {:induction false} WithoutSorted(points: seq<Point>, node: string)
    requires Sorted(points)
    ensures Sorted(Without(points, node))
  {
    if points != [] {
      WithoutSorted(points[1..], node);
      var rest := Without(points[1..], node);
      forall i | 0 <= i < |rest| ensures Le(points[0], rest[i]) {
        WithoutElements(points[1..], node, rest[i]);
        assert rest[i] in multiset(rest);
        assert rest[i] in points[1..];
      }
    }
  }

  lemma AddedIsGood(places: Places, replicas: nat, r: Ring, node: string)
    requires Good(places, replicas, r)
    ensures Good(places, replicas, Added(places, replicas, r, node))
  {
    if node !in r.nodes {
      var t := Added(places, replicas, r, node);
      WithReplicasSorted(places, r.points, node, replicas);
      forall p ensures multiset(t.points)[p] == Expected(places, replicas, t.nodes, p) {
        WithReplicasElements(places, r.points, node, replicas, p);
      }
    }
  }

  lemma RemovedIsGood(places: Places, replicas: nat, r: Ring, node: string)
    requires Good(places, replicas, r)
    ensures Good(places, replicas, Removed(r, node))
  {
    if node in r.nodes {
      var t := Removed(r, node);
      WithoutSorted(r.points, node);
      forall p ensures multiset(t.points)[p] == Expected(places, replicas, t.nodes, p) {
        WithoutElements(r.points, node, p);
      }
    }
  }

  lemma FirstIsLeast(a: seq<Point>, p: Point)
    requires Sorted(a) && p in multiset(a)
    ensures a != [] && Le(a[0], p)
  {
    assert p in a;
    LeTotal(p, p);
  }

  lemma TailElements(a: seq<Point>)
    requires a != []
    ensures multiset(a[1..]) == multiset(a) - multiset{a[0]}
  {
    assert a == [a[0]] + a[1..];
  }

  lemma SameFirst(a: seq<Point>, b: seq<Point>)
    requires Sorted(a) && Sorted(b) && multiset(a) == multiset(b) && a != [] && b != []
    ensures a[0] == b[0]
  {
    assert b[0] in multiset(b) && a[0] in multiset(a);
    FirstIsLeast(a, b[0]);
    FirstIsLeast(b, a[0]);
    LeTotal(a[0], b[0]);
  }

  lemma {:induction false} SortedIsUnique(a: seq<Point>, b: seq<Point>)
    requires Sorted(a) && Sorted(b) && multiset(a) == multiset(b)
    ensures a == b
  {
    assert |multiset(a)| == |a| && |multiset(b)| == |b|;
    if a != [] {
      SameFirst(a, b);
      TailElements(a);
      TailElements(b);
      SortedIsUnique(a[1..], b[1..]);
      assert a == [a[0]] + a[1..] && b == [b[0]] + b[1..];
    }
  }

  datatype Op = Add(node: string) | Remove(node: string)

  ghost function Exec(places: Places, replicas: nat, ops: seq<Op>): Ring {
    if ops == [] then Make([], {})
    else
      var r := Exec(places, replicas, ops[..|ops| - 1]);
      match ops[|ops| - 1]
      case Add(node) => Added(places, replicas, r, node)
      case Remove(node) => Removed(r, node)
  }

  lemma {:induction false} ExecIsGood(places: Places, replicas: nat, ops: seq<Op>)
    ensures Good(places, replicas, Exec(places, replicas, ops))
  {
    if ops != [] {
      var r := Exec(places, replicas, ops[..|ops| - 1]);
      ExecIsGood(places, replicas, ops[..|ops| - 1]);
      match ops[|ops| - 1]
      case Add(node) => AddedIsGood(places, replicas, r, node);
      case Remove(node) => RemovedIsGood(r := r, places := places, replicas := replicas, node := node);
    }
  }

  /** Two good rings with the same nodes are the same ring. */
  lemma GoodRingsAgree(places: Places, replicas: nat, r: Ring, t: Ring)
    requires Good(places, replicas, r) && Good(places, replicas, t) && r.nodes == t.nodes
    ensures r == t
  {
    assert multiset(r.points) == multiset(t.points);
    SortedIsUnique(r.points, t.points);
  }

  /** Any two histories of additions and removals that end with the same nodes build identical rings. */
  lemma HistoryIndependence(places: Places, replicas: nat, ops: seq<Op>, others: seq<Op>)
    requires Exec(places, replicas, ops).nodes == Exec(places, replicas, others).nodes
    ensures Exec(places, replicas, ops) == Exec(places, replicas, others)
  {
    ExecIsGood(places, replicas, ops);
    ExecIsGood(places, replicas, others);
    GoodRingsAgree(places, replicas, Exec(places, replicas, ops), Exec(places, replicas, others));
  }

  // -------------------------------------------------------- ownership

  /** The point is a replica of one of these nodes. */
  ghost predicate OnRing(places: Places, replicas: nat, nodes: set<string>, p: Point) {
    p.node in nodes && exists i :: 0 <= i < replicas && places(p.node, i) == p.pos
  }

  /** The least replica at or after the position, or the least of all if there is none. */
  ghost predicate IsOwner(places: Places, replicas: nat, nodes: set<string>, at: nat, p: Point) {
    && OnRing(places, replicas, nodes, p)
    && (p.pos < at ==> forall q :: OnRing(places, replicas, nodes, q) ==> q.pos < at)
    && (forall q :: OnRing(places, replicas, nodes, q) && (p.pos >= at ==> q.pos >= at) ==> Le(p, q))
  }

  ghost predicate Owns(places: Places, replicas: nat, nodes: set<string>, at: nat, node: string) {
    exists p :: IsOwner(places, replicas, nodes, at, p) && p.node == node
  }

  lemma {:induction false} CopiesIff(places: Places, k: nat, node: string, pos: nat)
    ensures Copies(places, k, node, pos) > 0 <==> exists i :: 0 <= i < k && places(node, i) == pos
    decreases k
  {
    if k > 0 {
      CopiesIff(places, k - 1, node, pos);
    }
  }

  lemma PointsAreReplicas(places: Places, replicas: nat, r: Ring, p: Point)
    requires Good(places, replicas, r)
    ensures p in r.points <==> OnRing(places, replicas, r.nodes, p)
  {
    CopiesIff(places, replicas, p.node, p.pos);
    assert p in r.points <==> multiset(r.points)[p] > 0;
  }

  lemma EmptyIff(places: Places, replicas: nat, r: Ring)
    requires Good(places, replicas, r)
    ensures r.points == [] <==> r.nodes == {} || replicas == 0
  {
    if r.points != [] {
      PointsAreReplicas(places, replicas, r, r.points[0]);
    }
    if r.nodes != {} && replicas > 0 {
      var node := Pick(r.nodes);
      assert places(node, 0) == Replica(places, node, 0).pos;
      PointsAreReplicas(places, replicas, r, Replica(places, node, 0));
    }
  }

  /** Bisection, wrapped around, finds the owner of the linear-scan definition. */
  lemma FoundIsOwner(places: Places, replicas: nat, r: Ring, at: nat, idx: nat)
    requires Good(places, replicas, r) && idx < |r.points|
    requires forall i :: 0 <= i < idx ==> r.positions[i] < at
    requires at <= r.positions[idx] || (idx == 0 && forall i :: 0 <= i < |r.points| ==> r.positions[i] < at)
    ensures IsOwner(places, replicas, r.nodes, at, r.points[idx])
  {
    var p := r.points[idx];
    PointsAreReplicas(places, replicas, r, p);
    forall q | OnRing(places, replicas, r.nodes, q)
      ensures p.pos < at ==> q.pos < at
      ensures (p.pos >= at ==> q.pos >= at) ==> Le(p, q)
    {
      PointsAreReplicas(places, replicas, r, q);
      var j :| 0 <= j < |r.points| && r.points[j] == q;
      assert r.positions[j] == q.pos;
      LeTotal(p, q);
    }
  }

  /** The owner is the next point clockwise: none lies between, so a point's own position belongs to a point there. */
  lemma OwnerIsNext(places: Places, replicas: nat, nodes: set<string>, at: nat, p: Point, q: Point)
    requires IsOwner(places, replicas, nodes, at, p) && OnRing(places, replicas, nodes, q)
    ensures at <= q.pos ==> at <= p.pos <= q.pos
    ensures q.pos < at && p.pos < at ==> p.pos <= q.pos
    ensures q.pos == p.pos ==> NameLe(p.node, q.node)
    ensures forall near :: at <= near <= p.pos ==> IsOwner(places, replicas, nodes, near, p)
  {
  }

  /** A position has at most one owner. */
  lemma OwnerIsUnique(places: Places, replicas: nat, nodes: set<string>, at: nat, p: Point, q: Point)
    requires IsOwner(places, replicas, nodes, at, p) && IsOwner(places, replicas, nodes, at, q)
    ensures p == q
  {
    LeTotal(p, q);
  }

  /** Among more nodes, a key stays where it was unless its new owner is one of the new nodes. */
  lemma MinimalRemapping(places: Places, replicas: nat, few: set<string>, many: set<string>, at: nat, p: Point)
    requires few <= many && IsOwner(places, replicas, many, at, p) && p.node in few
    ensures IsOwner(places, replicas, few, at, p)
    ensures forall node :: Owns(places, replicas, few, at, node) ==> node == p.node
  {
    assert OnRing(places, replicas, few, p);
    forall q | OnRing(places, replicas, few, q) ensures OnRing(places, replicas, many, q) {}
    forall node | Owns(places, replicas, few, at, node) ensures node == p.node {
      var q :| IsOwner(places, replicas, few, at, q) && q.node == node;
      OwnerIsUnique(places, replicas, few, at, p, q);
    }
  }
}

/**
 Vector clocks: the clock object, and the theorem that its vectors characterise
 causality in every run of n processes that tick, send and receive.
 */
module VectorClocks {
  import opened Common

  function Max(a: nat, b: nat): nat { if a < b then b else a }

  function Min(a: nat, b: nat): nat { if a < b then a else b }

  type Vector = seq<nat>

  function Ticked(v: Vector, i: nat): Vector
    requires i < |v|
  {
    v[i := v[i] + 1]
  }

  /** Slot by slot maximum, as far as the remote vector reaches. */
  function Merged(v: Vector, remote: Vector): (r: Vector)
    ensures |r| == |v|
  {
    seq(|v|, k requires 0 <= k < |v| => if k < |remote| then Max(v[k], remote[k]) else v[k])
  }

  function Received(v: Vector, remote: Vector, i: nat): Vector
    requires i < |v|
  {
    Ticked(Merged(v, remote), i)
  }

  class VectorClock {
    const nodeId: nat
    const numNodes: nat
    const vector: array<nat>

    ghost predicate Valid() { nodeId < numNodes && vector.Length == numNodes }

    constructor (nodeId: nat, numNodes: nat)
      requires nodeId < numNodes
      ensures Valid() && fresh(vector) && this.nodeId == nodeId && this.numNodes == numNodes
      ensures vector[..] == seq(numNodes, _ => 0)
    {
      this.nodeId := nodeId;
      this.numNodes := numNodes;
      vector := new nat[numNodes](_ => 0);
    }

    method Tick() returns (snapshot: Vector)
      requires Valid()
      modifies vector
      ensures vector[..] == Ticked(old(vector[..]), nodeId) && snapshot == vector[..]
      ensures vector[nodeId] == old(vector[nodeId]) + 1
      ensures forall k :: 0 <= k < numNodes && k != nodeId ==> vector[k] == old(vector[k])
    {
      vector[nodeId] := vector[nodeId] + 1;
      snapshot := vector[..];
    }

    method Send() returns (message: Vector)
      requires Valid()
      modifies vector
      ensures vector[..] == Ticked(old(vector[..]), nodeId) && message == vector[..]
    {
      message := Tick();
    }

    method Receive(remote: Vector) returns (snapshot: Vector)
      requires Valid()
      modifies vector
      ensures vector[..] == Received(old(vector[..]), remote, nodeId) && snapshot == vector[..]
      ensures forall k :: 0 <= k < numNodes && k != nodeId ==>
        vector[k] == if k < |remote| && old(vector[k]) < remote[k] then remote[k] else old(vector[k])
      ensures var own := old(vector[nodeId]);
        vector[nodeId] == (if nodeId < |remote| && own < remote[nodeId] then remote[nodeId] else own) + 1
    {
      var n := Min(vector.Length, |remote|);
      ghost var merged := Merged(vector[..], remote);
      for i := 0 to n
        invariant forall k :: 0 <= k < i ==> vector[k] == merged[k]
        invariant forall k :: i <= k < vector.Length ==> vector[k] == old(vector[k])
      {
        vector[i] := Max(vector[i], remote[i]);
      }
      assert vector[..] == merged;
      vector[nodeId] := vector[nodeId] + 1;
      snapshot := vector[..];
    }
  }

  datatype Order = Before | After | Concurrent | Equal

  function Compare(va: Vector, vb: Vector): Order {
    var n := Min(|va|, |vb|);
    var le := forall i :: 0 <= i < n ==> va[i] <= vb[i];
    var ge := forall i :: 0 <= i < n ==> va[i] >= vb[i];
    var eq := forall i :: 0 <= i < n ==> va[i] == vb[i];
    if eq then Equal else if le then Before else if ge then After else Concurrent
  }

  /** Only the common slots count, and swapping the vectors swaps before and after. */
  lemma CompareCommonSlots(va: Vector, vb: Vector)
    ensures var n := Min(|va|, |vb|);
      Compare(va, vb) == Compare(va[..n], vb[..n])
    ensures Compare(va, vb) == Equal <==> Compare(vb, va) == Equal
    ensures Compare(va, vb) == Before <==> Compare(vb, va) == After
    ensures Compare(va, vb) == Concurrent <==>
      exists i, j :: 0 <= i < |va| && i < |vb| && 0 <= j < |va| && j < |vb| && va[i] < vb[i] && va[j] > vb[j]
  {
  }

  // -------------------------------------------------------- runs

  /** A receive names the event that sent its message; a message may arrive late, twice or never. */
  datatype Action = Local(p: nat) | Send(p: nat) | Receive(p: nat, from: nat)

  ghost predicate IsRun(n: nat, run: seq<Action>) {
    forall k :: 0 <= k < |run| ==>
      run[k].p < n && (run[k].Receive? ==> run[k].from < k && run[run[k].from].Send?)
  }

  /** The clocks of all processes, and the vector every event returned. */
  datatype World = World(clocks: seq<Vector>, stamps: seq<Vector>)

  ghost function Exec(n: nat, run: seq<Action>): (w: World)
    requires IsRun(n, run)
    ensures |w.clocks| == n && |w.stamps| == |run|
    ensures forall p :: 0 <= p < n ==> |w.clocks[p]| == n
    ensures forall k :: 0 <= k < |run| ==> |w.stamps[k]| == n
    decreases |run|
  {
    if run == [] then World(seq(n, _ => seq(n, _ => 0)), [])
    else
      var k := |run| - 1;
      var w := Exec(n, run[..k]);
      var a := run[k];
      var v := if a.Receive? then Received(w.clocks[a.p], w.stamps[a.from], a.p) else Ticked(w.clocks[a.p], a.p);
      World(w.clocks[a.p := v], w.stamps + [v])
  }

  ghost function Stamp(n: nat, run: seq<Action>, k: nat): (v: Vector)
    requires IsRun(n, run) && k < |run|
    ensures |v| == n
  {
    Exec(n, run).stamps[k]
  }

  /** The last event of process p before position k, if any. */
  ghost function LastOf(run: seq<Action>, k: nat, p: nat): (r: Option<nat>)
    requires k <= |run|
    ensures r.Some? ==> r.value < k && run[r.value].p == p && forall j :: r.value < j < k ==> run[j].p != p
    ensures r.None? ==> forall j :: 0 <= j < k ==> run[j].p != p
  {
    if k == 0 then None else if run[k - 1].p == p then Some(k - 1) else LastOf(run, k - 1, p)
  }

  /** The clock a process has before its event at k: its last stamp, or all zero. */
  ghost function ClockBefore(n: nat, run: seq<Action>, k: nat, p: nat): (v: Vector)
    requires IsRun(n, run) && k <= |run|
    ensures |v| == n
  {
    var last := LastOf(run, k, p);
    if last.Some? then Stamp(n, run, last.value) else seq(n, _ => 0)
  }

  lemma {:induction false} ExecPrefix(n: nat, run: seq<Action>, k: nat)
    requires IsRun(n, run) && k <= |run|
    ensures IsRun(n, run[..k]) && Exec(n, run[..k]).stamps == Exec(n, run).stamps[..k]
    decreases |run|
  {
    if k < |run| {
      var m := |run| - 1;
      ExecPrefix(n, run[..m], k);
      assert run[..m][..k] == run[..k];
      assert Exec(n, run).stamps[..m] == Exec(n, run[..m]).stamps;
      assert Exec(n, run).stamps[..m][..k] == Exec(n, run).stamps[..k];
    } else {
      assert run[..k] == run;
    }
  }

  lemma {:induction false} ClockIsLastStamp(n: nat, run: seq<Action>, p: nat)
    requires IsRun(n, run) && p < n
    ensures Exec(n, run).clocks[p] == ClockBefore(n, run, |run|, p)
    decreases |run|
  {
    if run != [] {
      var k := |run| - 1;
      ClockIsLastStamp(n, run[..k], p);
      LastOfPrefix(run, k, k, p);
      ExecPrefix(n, run, k);
    }
  }

  lemma {:induction false} LastOfPrefix(run: seq<Action>, m: nat, k: nat, p: nat)
    requires k <= m <= |run|
    ensures LastOf(run[..m], k, p) == LastOf(run, k, p)
    decreases k
  {
    if k > 0 { LastOfPrefix(run, m, k - 1, p); }
  }

  /** How the stamp of an event comes from its process's previous one and the message received. */
  lemma StampStep(n: nat, run: seq<Action>, k: nat)
    requires IsRun(n, run) && k < |run|
    ensures var v := ClockBefore(n, run, k, run[k].p);
      Stamp(n, run, k)
        == if run[k].Receive? then Received(v, Stamp(n, run, run[k].from), run[k].p) else Ticked(v, run[k].p)
  {
    var now := run[..k + 1];
    ExecPrefix(n, run, k + 1);
    ExecPrefix(n, run, k);
    assert now[..k] == run[..k];
    assert now[k] == run[k];
    ClockIsLastStamp(n, run[..k], run[k].p);
    LastOfPrefix(run, k, k, run[k].p);
    assert Exec(n, now).stamps[k] == Exec(n, run).stamps[k];
  }

  // -------------------------------------------------------- causality

  /** The direct causes of an event: earlier events of its process, and the send it receives. */
  ghost predicate Edge(run: seq<Action>, a: nat, b: nat) {
    a < b < |run| && (run[a].p == run[b].p || (run[b].Receive? && run[b].from == a))
  }

  /** Happens-before: a chain of direct causes leads from a to b. */
  ghost predicate HappensBefore(run: seq<Action>, a: nat, b: nat) {
    exists path: seq<nat> :: IsPath(run, path, a, b)
  }

  ghost predicate IsPath(run: seq<Action>, path: seq<nat>, a: nat, b: nat) {
    && |path| >= 2 && path[0] == a && path[|path| - 1] == b
    && forall i :: 0 <= i < |path| - 1 ==> Edge(run, path[i], path[i + 1])
  }

  /** Event a lies in the causal past of b, b itself included. */
  ghost predicate InPast(run: seq<Action>, a: nat, b: nat)
    decreases b
  {
    a == b || exists c: nat :: c < b && Edge(run, c, b) && InPast(run, a, c)
  }

  lemma {:induction false} PastIsEarlier(run: seq<Action>, a: nat, b: nat)
    requires InPast(run, a, b)
    ensures a <= b
    decreases b
  {
    if a != b {
      var c: nat :| c < b && Edge(run, c, b) && InPast(run, a, c);
      PastIsEarlier(run, a, c);
    }
  }

  lemma {:induction false} PastIsTransitive(run: seq<Action>, a: nat, b: nat, c: nat)
    requires InPast(run, a, b) && InPast(run, b, c)
    ensures InPast(run, a, c)
    decreases c
  {
    if b != c {
      var d: nat :| d < c && Edge(run, d, c) && InPast(run, b, d);
      PastIsTransitive(run, a, b, d);
    }
  }

  lemma {:induction false} PathIsPast(run: seq<Action>, path: seq<nat>, a: nat, b: nat)
    requires IsPath(run, path, a, b)
    ensures a < b && InPast(run, a, b)
    decreases |path|
  {
    var m := |path| - 2;
    assert Edge(run, path[m], path[m + 1]);
    if m > 0 {
      PathIsPast(run, path[..m + 1], a, path[m]);
    }
  }

  lemma {:induction false} PastIsPath(run: seq<Action>, a: nat, b: nat)
    requires InPast(run, a, b) && a != b
    ensures HappensBefore(run, a, b)
    decreases b
  {
    var c: nat :| c < b && Edge(run, c, b) && InPast(run, a, c);
    if a == c {
      assert IsPath(run, [a, b], a, b);
    } else {
      PastIsPath(run, a, c);
      var path :| IsPath(run, path, a, c);
      assert IsPath(run, path + [b], a, b);
    }
  }

  // -------------------------------------------------------- what the slots count

  /** The number of events of process p among the first k. */
  ghost function CountOf(run: seq<Action>, k: nat, p: nat): nat
    requires k <= |run|
  {
    if k == 0 then 0 else CountOf(run, k - 1, p) + if run[k - 1].p == p then 1 else 0
  }

  lemma {:induction false} CountMonotone(run: seq<Action>, j: nat, k: nat, p: nat)
    requires j <= k <= |run|
    ensures CountOf(run, j, p) <= CountOf(run, k, p)
    ensures (exists i :: j <= i < k && run[i].p == p) <==> CountOf(run, j, p) < CountOf(run, k, p)
    decreases k
  {
    if j < k { CountMonotone(run, j, k - 1, p); }
  }

  /** The position of event a among the events of its own process, counted from one. */
  ghost function Rank(run: seq<Action>, a: nat): nat
    requires a < |run|
  {
    CountOf(run, a + 1, run[a].p)
  }

  /** What the process of event k had counted of process q before it. */
  ghost function OwnBefore(n: nat, run: seq<Action>, k: nat, q: nat): nat
    requires IsRun(n, run) && k < |run| && q < n
  {
    var last := LastOf(run, k, run[k].p);
    if last.Some? then Stamp(n, run, last.value)[q] else 0
  }

  /** One slot of a stamp: the larger of what the process and the message knew, plus the event itself. */
  lemma SlotStep(n: nat, run: seq<Action>, k: nat, q: nat)
    requires IsRun(n, run) && k < |run| && q < n
    ensures Stamp(n, run, k)[q] ==
      Max(OwnBefore(n, run, k, q), if run[k].Receive? then Stamp(n, run, run[k].from)[q] else 0)
      + if q == run[k].p then 1 else 0
  {
    StampStep(n, run, k);
    assert ClockBefore(n, run, k, run[k].p)[q] == OwnBefore(n, run, k, q);
  }

  /** No slot ever exceeds the number of events of its process. */
  lemma {:induction false} SlotBound(n: nat, run: seq<Action>, k: nat, q: nat)
    requires IsRun(n, run) && k < |run| && q < n
    ensures Stamp(n, run, k)[q] <= CountOf(run, k + 1, q)
    decreases k
  {
    SlotStep(n, run, k, q);
    var last := LastOf(run, k, run[k].p);
    if last.Some? { SlotBound(n, run, last.value, q); }
    OwnBeforeBound(n, run, k, q);
    if run[k].Receive? {
      SlotBound(n, run, run[k].from, q);
      CountMonotone(run, run[k].from + 1, k, q);
    }
  }

  lemma OwnBeforeBound(n: nat, run: seq<Action>, k: nat, q: nat)
    requires IsRun(n, run) && k < |run| && q < n
    requires var last := LastOf(run, k, run[k].p);
      last.Some? ==> Stamp(n, run, last.value)[q] <= CountOf(run, last.value + 1, q)
    ensures OwnBefore(n, run, k, q) <= CountOf(run, k, q)
  {
    var last := LastOf(run, k, run[k].p);
    if last.Some? { CountMonotone(run, last.value + 1, k, q); }
  }

  /** A process's own slot counts all its events. */
  lemma {:induction false} OwnSlot(n: nat, run: seq<Action>, k: nat)
    requires IsRun(n, run) && k < |run|
    ensures Stamp(n, run, k)[run[k].p] == Rank(run, k)
    decreases k
  {
    var p := run[k].p;
    SlotStep(n, run, k, p);
    var last := LastOf(run, k, p);
    if last.Some? {
      OwnSlot(n, run, last.value);
      CountMonotone(run, last.value + 1, k, p);
    } else {
      CountMonotone(run, 0, k, p);
    }
    if run[k].Receive? {
      SlotBound(n, run, run[k].from, p);
      CountMonotone(run, run[k].from + 1, k, p);
    }
  }

  /** The heart: event b's vector has counted event a exactly if a is in b's causal past. */
  lemma {:induction false} KnowsIffPast(n: nat, run: seq<Action>, a: nat, b: nat)
    requires IsRun(n, run) && a < |run| && b < |run|
    ensures Rank(run, a) <= Stamp(n, run, b)[run[a].p] <==> InPast(run, a, b)
    decreases b
  {
    var p, q := run[b].p, run[a].p;
    if p == q {
      OwnSlot(n, run, b);
      if a <= b {
        CountMonotone(run, a + 1, b + 1, p);
        assert a == b || Edge(run, a, b);
        assert InPast(run, a, a);
      } else {
        CountMonotone(run, b + 1, a + 1, p);
        if InPast(run, a, b) { PastIsEarlier(run, a, b); }
      }
    } else {
      KnowsFromCauses(n, run, a, b);
    }
  }

  lemma {:induction false} KnowsFromCauses(n: nat, run: seq<Action>, a: nat, b: nat)
    requires IsRun(n, run) && a < |run| && b < |run| && run[a].p != run[b].p
    ensures Rank(run, a) <= Stamp(n, run, b)[run[a].p] <==> InPast(run, a, b)
    decreases b, 0
  {
    SlotStep(n, run, b, run[a].p);
    CountMonotone(run, a, a + 1, run[a].p);
    var last := LastOf(run, b, run[b].p);
    if last.Some? {
      KnowsIffPast(n, run, a, last.value);
      assert Edge(run, last.value, b);
    }
    if run[b].Receive? {
      KnowsIffPast(n, run, a, run[b].from);
      assert Edge(run, run[b].from, b);
    }
    if InPast(run, a, b) {
      var c: nat :| c < b && Edge(run, c, b) && InPast(run, a, c);
      if run[c].p == run[b].p && c != last.value {
        assert Edge(run, c, last.value);
      }
    }
  }

  ghost function PastOf(run: seq<Action>, b: nat, q: nat): set<nat> {
    set a: nat | a < |run| && run[a].p == q && InPast(run, a, b)
  }

  lemma {:induction false} RankedBelow(run: seq<Action>, k: nat, q: nat, v: nat)
    requires k <= |run|
    ensures |set a: nat | a < k && run[a].p == q && Rank(run, a) <= v| == Min(v, CountOf(run, k, q))
    decreases k
  {
    var all := set a: nat | a < k && run[a].p == q && Rank(run, a) <= v;
    if k > 0 {
      RankedBelow(run, k - 1, q, v);
      var fewer := set a: nat | a < k - 1 && run[a].p == q && Rank(run, a) <= v;
      if run[k - 1].p == q && Rank(run, k - 1) <= v {
        assert all == fewer + {k - 1};
      } else {
        assert all == fewer;
      }
    } else {
      assert all == {};
    }
  }

  /** Slot q of an event's vector is the number of events of process q in its causal past. */
  lemma SlotCountsPast(n: nat, run: seq<Action>, b: nat, q: nat)
    requires IsRun(n, run) && b < |run| && q < n
    ensures Stamp(n, run, b)[q] == |PastOf(run, b, q)|
  {
    var v := Stamp(n, run, b)[q];
    forall a: nat | a < |run| && run[a].p == q ensures Rank(run, a) <= v <==> InPast(run, a, b) {
      KnowsIffPast(n, run, a, b);
    }
    assert PastOf(run, b, q) == set a: nat | a < |run| && run[a].p == q && Rank(run, a) <= v;
    RankedBelow(run, |run|, q, v);
    SlotBound(n, run, b, q);
    CountMonotone(run, b + 1, |run|, q);
  }

  lemma VectorsFollowPast(n: nat, run: seq<Action>, a: nat, b: nat)
    requires IsRun(n, run) && a < |run| && b < |run|
    ensures (forall q :: 0 <= q < n ==> Stamp(n, run, a)[q] <= Stamp(n, run, b)[q]) <==> InPast(run, a, b)
  {
    if InPast(run, a, b) {
      forall q | 0 <= q < n ensures Stamp(n, run, a)[q] <= Stamp(n, run, b)[q] {
        SlotCountsPast(n, run, a, q);
        SlotCountsPast(n, run, b, q);
        forall x | x in PastOf(run, a, q) ensures x in PastOf(run, b, q) { PastIsTransitive(run, x, a, b); }
        SubsetSize(PastOf(run, a, q), PastOf(run, b, q));
      }
    } else {
      OwnSlot(n, run, a);
      KnowsIffPast(n, run, a, b);
    }
  }

  /** Comparing the vectors of two events of a run decides exactly how they are causally related. */
  lemma CompareDecidesCausality(n: nat, run: seq<Action>, a: nat, b: nat)
    requires IsRun(n, run) && a < |run| && b < |run|
    ensures var order := Compare(Stamp(n, run, a), Stamp(n, run, b));
      && (order == Equal <==> a == b)
      && (order == Before <==> HappensBefore(run, a, b))
      && (order == After <==> HappensBefore(run, b, a))
      && (order == Concurrent <==> a != b && !HappensBefore(run, a, b) && !HappensBefore(run, b, a))
  {
    VectorsFollowPast(n, run, a, b);
    VectorsFollowPast(n, run, b, a);
    PastIffPath(run, a, b);
    PastIffPath(run, b, a);
    if InPast(run, a, b) && InPast(run, b, a) {
      PastIsEarlier(run, a, b);
      PastIsEarlier(run, b, a);
    }
  }

  lemma PastIffPath(run: seq<Action>, a: nat, b: nat)
    ensures HappensBefore(run, a, b) <==> a != b && InPast(run, a, b)
  {
    if HappensBefore(run, a, b) {
      var path :| IsPath(run, path, a, b);
      PathIsPast(run, path, a, b);
    }
    if a != b && InPast(run, a, b) { PastIsPath(run, a, b); }
  }
}

/**
 The cluster at coarse granularity: each test in the run loop is atomic with the
 block it guards, a promotion is atomic with its calls to the peers, and so is an
 append with its replication. `history` is the sequence of all entries append_log has
 ever accepted. Every run at this granularity is a run at the fine one (IsFineRun).
 */
module RaftCoarse {
  import opened Common
  import opened RaftNodes
  import opened RaftCore
  import F = RaftFine

  datatype Coarse = Coarse(c: Cluster, history: seq<Entry>)

  datatype Step =
    | StartElection(c: Id)
    | PollPeer(c: Id, p: Id)
    | FinishPolling(c: Id)
    | SendHeartbeats(c: Id)
    | BeatPeer(c: Id, p: Id)
    | CrashNode(n: Id)
    | RecoverNode(n: Id)
    | AppendLog(n: Id, command: string)

  predicate LeadsAlive(s: Cluster, n: Id) { At(s, n) && s.nodes[n].role == Leader && !s.nodes[n].crashed }

  predicate Enabled(s: Coarse, a: Step) {
    match a
    case StartElection(c) => At(s.c, c) && s.c.pcs[c].Idle? && !s.c.nodes[c].crashed && s.c.nodes[c].role != Leader
    case PollPeer(c, p) => CanPoll(s.c, c, p)
    case FinishPolling(c) => DonePolling(s.c, c)
    case SendHeartbeats(c) => LeadsAlive(s.c, c) && s.c.pcs[c].Idle?
    case BeatPeer(c, p) => CanBeat(s.c, c, p)
    case CrashNode(n) => At(s.c, n)
    case RecoverNode(n) => At(s.c, n)
    case AppendLog(n, _) => LeadsAlive(s.c, n)
  }

  /** The peers in `peers` accept `c` as leader of its current term. */
  function AcceptBy(nodes: map<Id, Node>, c: Id, peers: set<Id>): map<Id, Node>
    requires c in nodes
  {
    map n | n in nodes :: if n in peers then AcceptBlock(nodes[n], c, nodes[c].term) else nodes[n]
  }

  function AppendBy(nodes: map<Id, Node>, entry: Entry, peers: set<Id>): map<Id, Node> {
    map n | n in nodes :: if n in peers then AppendPeerBlock(nodes[n], entry) else nodes[n]
  }

  function Finish(s: Cluster, c: Id): Cluster
    requires DonePolling(s, c)
  {
    if Winning(s, c) then
      var u := Promote(s, c, Idle);
      u.(nodes := AcceptBy(u.nodes, c, u.nodes.Keys - {c}))
    else SetPc(s, c, Idle)
  }

  function Append(s: Coarse, n: Id, command: string): Coarse
    requires At(s.c, n)
  {
    var entry := Entry(s.c.nodes[n].term, command);
    var own := s.c.nodes[n := AppendOwnBlock(s.c.nodes[n], command)];
    Coarse(s.c.(nodes := AppendBy(own, entry, own.Keys - {n})), s.history + [entry])
  }

  function Apply(s: Coarse, a: Step): Coarse
    requires Enabled(s, a)
  {
    match a
    case StartElection(c) => s.(c := Start(s.c, c))
    case PollPeer(c, p) => s.(c := Poll(s.c, c, p))
    case FinishPolling(c) => s.(c := Finish(s.c, c))
    case SendHeartbeats(c) => s.(c := SetPc(s.c, c, BeatingPc(s.c.nodes[c].term, s.c.nodes.Keys - {c})))
    case BeatPeer(c, p) => s.(c := Beat(s.c, c, p))
    case CrashNode(n) => s.(c := Crash(s.c, n))
    case RecoverNode(n) => s.(c := Recover(s.c, n))
    case AppendLog(n, command) => Append(s, n, command)
  }

  ghost predicate Run(ids: set<Id>, steps: seq<Step>, s: Coarse)
    decreases |steps|
  {
    if steps == [] then s == Coarse(Init(ids), [])
    else
      var k := |steps| - 1;
      exists r :: Run(ids, steps[..k], r) && Enabled(r, steps[k]) && s == Apply(r, steps[k])
  }

  ghost predicate Reachable(ids: set<Id>, s: Coarse) {
    exists steps :: Run(ids, steps, s)
  }

  lemma RunExtends(ids: set<Id>, s: Coarse, a: Step)
    requires Reachable(ids, s) && Enabled(s, a)
    ensures Reachable(ids, Apply(s, a))
  {
    var steps :| Run(ids, steps, s);
    var more := steps + [a];
    assert more[..|more| - 1] == steps;
    assert Run(ids, more, Apply(s, a));
  }

  // -------------------------------------------------------- coarse runs are fine runs

  function AsFine(s: Coarse): F.Fine { F.Fine(s.c, multiset{}) }

  ghost predicate NoneLocked(s: Cluster) {
    s.nodes.Keys == s.pcs.Keys && forall n :: n in s.pcs ==> !s.pcs[n].Announcing?
  }

  ghost predicate OnlyLocks(s: Cluster, c: Id) {
    && s.nodes.Keys == s.pcs.Keys
    && F.Locked(s, c) && {} != s.pcs[c].pending <= s.nodes.Keys - {c}
    && forall n :: n in s.pcs && s.pcs[n].Announcing? ==> n == c
  }

  /** The cluster after all remaining calls of the promotion loop of `c`. */
  ghost function Announced(s: Cluster, c: Id): Cluster
    requires F.Locked(s, c)
  {
    s.(nodes := AcceptBy(s.nodes, c, s.pcs[c].pending), pcs := s.pcs[c := Idle])
  }

  lemma AnnouncedStep(s: Cluster, c: Id, p: Id)
    requires OnlyLocks(s, c) && p in s.pcs[c].pending
    ensures var t := F.Accept(s, c, p);
      if s.pcs[c].pending == {p} then t == Announced(s, c)
      else OnlyLocks(t, c) && Announced(t, c) == Announced(s, c)
  {
    var t := F.Accept(s, c, p);
    var rest := s.pcs[c].pending - {p};
    assert t.pcs[c := Idle] == s.pcs[c := Idle];
    assert AcceptBy(t.nodes, c, rest) == AcceptBy(s.nodes, c, s.pcs[c].pending);
    if s.pcs[c].pending == {p} {
      assert rest == {};
      assert AcceptBy(t.nodes, c, rest) == t.nodes;
    } else {
      assert rest != {};
    }
  }

  ghost function Announces(c: Id, peers: set<Id>): set<F.Step> { set p | p in peers :: F.Announce(c, p) }

  ghost function Deliveries(peers: set<Id>, entry: Entry): set<F.Step> {
    set p | p in peers :: F.Deliver(F.Delivery(p, entry))
  }

  lemma OneCallFewer(c: Id, peers: set<Id>, entry: Entry, p: Id)
    requires p in peers
    ensures multiset(Announces(c, peers)) == multiset{F.Announce(c, p)} + multiset(Announces(c, peers - {p}))
    ensures multiset(Deliveries(peers, entry))
      == multiset{F.Deliver(F.Delivery(p, entry))} + multiset(Deliveries(peers - {p}, entry))
  {
    assert Announces(c, peers) == {F.Announce(c, p)} + Announces(c, peers - {p});
    assert Deliveries(peers, entry) == {F.Deliver(F.Delivery(p, entry))} + Deliveries(peers - {p}, entry);
  }

  lemma JoinCalls(before: seq<F.Step>, step: F.Step, rest: seq<F.Step>)
    ensures before + [step] + rest == before + ([step] + rest)
    ensures multiset([step] + rest) == multiset{step} + multiset(rest)
  {
  }

  /** From a promotion on, the fine model makes all the calls of the promotion loop, each once. */
  lemma {:induction false} AnnounceRest(ids: set<Id>, before: seq<F.Step>, s: F.Fine, c: Id)
    returns (calls: seq<F.Step>)
    requires F.Run(ids, before, s) && OnlyLocks(s.c, c)
    ensures F.Run(ids, before + calls, s.(c := Announced(s.c, c)))
    ensures multiset(calls) == multiset(Announces(c, s.c.pcs[c].pending))
    decreases |s.c.pcs[c].pending|
  {
    var pending := s.c.pcs[c].pending;
    var p := Pick(pending);
    var step := F.Announce(c, p);
    F.RunGrows(ids, before, s, step);
    AnnouncedStep(s.c, c, p);
    OneCallFewer(c, pending, Entry(0, ""), p);
    if pending == {p} {
      calls := [step];
      assert Announces(c, pending - {p}) == {};
    } else {
      assert F.Accept(s.c, c, p).pcs[c].pending == pending - {p};
      var rest := AnnounceRest(ids, before + [step], s.(c := F.Accept(s.c, c, p)), c);
      JoinCalls(before, step, rest);
      calls := [step] + rest;
    }
  }

  ghost function Calls(peers: set<Id>, entry: Entry): multiset<F.Delivery> {
    multiset(set p | p in peers :: F.Delivery(p, entry))
  }

  lemma DeliverOne(s: F.Fine, peers: set<Id>, entry: Entry, p: Id)
    requires NoneLocked(s.c) && p in peers && peers <= s.c.nodes.Keys && s.inflight == Calls(peers, entry)
    ensures F.Enabled(s, F.Deliver(F.Delivery(p, entry)))
    ensures var t := F.Apply(s, F.Deliver(F.Delivery(p, entry)));
      && NoneLocked(t.c) && t.c.nodes.Keys == s.c.nodes.Keys && t.inflight == Calls(peers - {p}, entry)
      && t.c.(nodes := AppendBy(t.c.nodes, entry, peers - {p})) == s.c.(nodes := AppendBy(s.c.nodes, entry, peers))
  {
    var t := F.Apply(s, F.Deliver(F.Delivery(p, entry)));
    assert AppendBy(t.c.nodes, entry, peers - {p}) == AppendBy(s.c.nodes, entry, peers);
  }

  lemma NothingLeft(s: F.Fine, entry: Entry)
    requires NoneLocked(s.c) && s.inflight == Calls({}, entry)
    ensures s == AsFine(Coarse(s.c.(nodes := AppendBy(s.c.nodes, entry, {})), []))
    ensures Deliveries({}, entry) == {}
  {
    assert AppendBy(s.c.nodes, entry, {}) == s.c.nodes;
  }

  lemma {:induction false} DeliverRest(ids: set<Id>, before: seq<F.Step>, s: F.Fine, peers: set<Id>, entry: Entry)
    returns (calls: seq<F.Step>)
    requires F.Run(ids, before, s)
    requires s.inflight == Calls(peers, entry) && NoneLocked(s.c) && peers <= s.c.nodes.Keys
    ensures F.Run(ids, before + calls, AsFine(Coarse(s.c.(nodes := AppendBy(s.c.nodes, entry, peers)), [])))
    ensures multiset(calls) == multiset(Deliveries(peers, entry))
    decreases |peers|
  {
    if peers != {} {
      var p := Pick(peers);
      var step := F.Deliver(F.Delivery(p, entry));
      DeliverOne(s, peers, entry, p);
      F.RunGrows(ids, before, s, step);
      OneCallFewer(p, peers, entry, p);
      var rest := DeliverRest(ids, before + [step], F.Apply(s, step), peers - {p}, entry);
      JoinCalls(before, step, rest);
      calls := [step] + rest;
    } else {
      calls := [];
      assert before + calls == before;
      NothingLeft(s, entry);
    }
  }

  lemma FinishThenAnnounce(s: Cluster, c: Id)
    requires NoneLocked(s) && Winning(s, c)
    ensures if s.nodes.Keys == {c} then F.Finish(s, c) == Finish(s, c)
      else OnlyLocks(F.Finish(s, c), c) && Announced(F.Finish(s, c), c) == Finish(s, c)
  {
    var t := F.Finish(s, c);
    var peers := s.nodes.Keys - {c};
    assert t.nodes.Keys == s.nodes.Keys;
    if s.nodes.Keys == {c} {
      assert peers == {};
      assert AcceptBy(t.nodes, c, peers) == t.nodes;
    } else {
      assert peers != {} by { assert s.nodes.Keys == peers + {c}; }
      assert t.pcs[c := Idle] == s.pcs[c := Idle];
    }
  }

  function Same(a: Step): F.Step
    requires !a.AppendLog?
  {
    match a
    case StartElection(c) => F.StartElection(c)
    case PollPeer(c, p) => F.PollPeer(c, p)
    case FinishPolling(c) => F.FinishPolling(c)
    case SendHeartbeats(c) => F.SendHeartbeats(c)
    case BeatPeer(c, p) => F.BeatPeer(c, p)
    case CrashNode(n) => F.CrashNode(n)
    case RecoverNode(n) => F.RecoverNode(n)
  }

  /**
   The fine steps of one coarse step, in order: a promotion is followed by its call to every other
   node, an append by its delivery to every other node, each once; any other step is the same step.
   */
  ghost predicate Expands(ids: set<Id>, a: Step, part: seq<F.Step>) {
    if a.AppendLog? then
      && part != [] && part[0] == F.AppendOwn(a.n, a.command)
      && exists entry :: multiset(part[1..]) == multiset(Deliveries(ids - {a.n}, entry))
    else
      && part != [] && part[0] == Same(a)
      && (part[1..] == []
          || (a.FinishPolling? && multiset(part[1..]) == multiset(Announces(a.c, ids - {a.c}))))
  }

  lemma PromotionExpands(ids: set<Id>, c: Id, rest: seq<F.Step>)
    requires multiset(rest) == multiset(Announces(c, ids - {c}))
    ensures Expands(ids, FinishPolling(c), [F.FinishPolling(c)] + rest)
  {
    assert ([F.FinishPolling(c)] + rest)[1..] == rest;
  }

  lemma AppendExpands(ids: set<Id>, n: Id, command: string, entry: Entry, rest: seq<F.Step>)
    requires multiset(rest) == multiset(Deliveries(ids - {n}, entry))
    ensures Expands(ids, AppendLog(n, command), [F.AppendOwn(n, command)] + rest)
  {
    assert ([F.AppendOwn(n, command)] + rest)[1..] == rest;
  }

  lemma OneStepExpands(ids: set<Id>, a: Step)
    requires !a.AppendLog?
    ensures Expands(ids, a, [Same(a)])
  {
    assert [Same(a)][1..] == [];
  }

  /** A promotion with peers, and its calls. */
  lemma PromotionIsFine(ids: set<Id>, before: seq<F.Step>, s: Coarse, c: Id) returns (part: seq<F.Step>)
    requires F.Run(ids, before, AsFine(s)) && NoneLocked(s.c) && s.c.nodes.Keys == ids
    requires Winning(s.c, c) && ids != {c}
    ensures F.Run(ids, before + part, AsFine(s.(c := Finish(s.c, c)))) && Expands(ids, FinishPolling(c), part)
  {
    var first := F.FinishPolling(c);
    F.RunGrows(ids, before, AsFine(s), first);
    FinishThenAnnounce(s.c, c);
    var rest := AnnounceRest(ids, before + [first], AsFine(s.(c := F.Finish(s.c, c))), c);
    JoinCalls(before, first, rest);
    part := [first] + rest;
    PromotionExpands(ids, c, rest);
  }

  lemma FinishIsFine(ids: set<Id>, before: seq<F.Step>, s: Coarse, c: Id) returns (part: seq<F.Step>)
    requires F.Run(ids, before, AsFine(s)) && NoneLocked(s.c) && s.c.nodes.Keys == ids && DonePolling(s.c, c)
    ensures F.Run(ids, before + part, AsFine(s.(c := Finish(s.c, c)))) && Expands(ids, FinishPolling(c), part)
  {
    if Winning(s.c, c) && ids != {c} {
      part := PromotionIsFine(ids, before, s, c);
    } else {
      if Winning(s.c, c) { FinishThenAnnounce(s.c, c); }
      F.RunGrows(ids, before, AsFine(s), F.FinishPolling(c));
      part := [F.FinishPolling(c)];
      OneStepExpands(ids, FinishPolling(c));
    }
  }

  /** After the leader's own half of an append all its calls are still to be made. */
  lemma AppendOpens(s: Coarse, n: Id, command: string)
    requires NoneLocked(s.c) && At(s.c, n)
    ensures var t, peers := F.Append(AsFine(s), n, command), s.c.nodes.Keys - {n};
      var entry := Entry(s.c.nodes[n].term, command);
      && t.inflight == Calls(peers, entry) && NoneLocked(t.c) && t.c.nodes.Keys == s.c.nodes.Keys
      && t.c.(nodes := AppendBy(t.c.nodes, entry, peers)) == Append(s, n, command).c
  {
    var t, peers := F.Append(AsFine(s), n, command), s.c.nodes.Keys - {n};
    var entry := Entry(s.c.nodes[n].term, command);
    assert (set p | p in s.c.nodes && p != n :: F.Delivery(p, entry)) == (set p | p in peers :: F.Delivery(p, entry));
    assert t.c.nodes.Keys == s.c.nodes.Keys;
  }

  lemma AppendIsFine(ids: set<Id>, before: seq<F.Step>, s: Coarse, n: Id, command: string)
    returns (part: seq<F.Step>)
    requires F.Run(ids, before, AsFine(s)) && NoneLocked(s.c) && s.c.nodes.Keys == ids && At(s.c, n)
    ensures F.Run(ids, before + part, AsFine(Append(s, n, command))) && Expands(ids, AppendLog(n, command), part)
  {
    var first := F.AppendOwn(n, command);
    var entry := Entry(s.c.nodes[n].term, command);
    AppendOpens(s, n, command);
    F.RunGrows(ids, before, AsFine(s), first);
    var rest := DeliverRest(ids, before + [first], F.Append(AsFine(s), n, command), ids - {n}, entry);
    JoinCalls(before, first, rest);
    part := [first] + rest;
    AppendExpands(ids, n, command, entry, rest);
  }

  lemma StepIsFine(ids: set<Id>, before: seq<F.Step>, s: Coarse, a: Step) returns (part: seq<F.Step>)
    requires F.Run(ids, before, AsFine(s)) && NoneLocked(s.c) && s.c.nodes.Keys == ids && Enabled(s, a)
    ensures F.Run(ids, before + part, AsFine(Apply(s, a))) && Expands(ids, a, part)
  {
    if a.AppendLog? {
      part := AppendIsFine(ids, before, s, a.n, a.command);
    } else if a.FinishPolling? {
      part := FinishIsFine(ids, before, s, a.c);
    } else {
      assert F.Enabled(AsFine(s), Same(a));
      F.RunGrows(ids, before, AsFine(s), Same(a));
      part := [Same(a)];
      OneStepExpands(ids, a);
    }
  }

  lemma StepLocksNobody(s: Coarse, a: Step)
    requires NoneLocked(s.c) && Enabled(s, a)
    ensures NoneLocked(Apply(s, a).c) && Apply(s, a).c.nodes.Keys == s.c.nodes.Keys
  {
  }

  ghost function Flat(parts: seq<seq<F.Step>>): seq<F.Step> {
    if parts == [] then [] else Flat(parts[..|parts| - 1]) + parts[|parts| - 1]
  }

  lemma FlatGrows(parts: seq<seq<F.Step>>, part: seq<F.Step>)
    ensures Flat(parts + [part]) == Flat(parts) + part
  {
    assert (parts + [part])[..|parts|] == parts;
  }

  ghost predicate AllExpand(ids: set<Id>, steps: seq<Step>, parts: seq<seq<F.Step>>) {
    |parts| == |steps| && forall k :: 0 <= k < |steps| ==> Expands(ids, steps[k], parts[k])
  }

  lemma AllExpandGrows(ids: set<Id>, steps: seq<Step>, parts: seq<seq<F.Step>>, part: seq<F.Step>)
    requires steps != [] && AllExpand(ids, steps[..|steps| - 1], parts) && Expands(ids, steps[|steps| - 1], part)
    ensures AllExpand(ids, steps, parts + [part])
  {
  }

  /** A coarse run, each step replaced by its fine steps, is a fine run to the same state. */
  lemma {:induction false} IsFineRun(ids: set<Id>, steps: seq<Step>, s: Coarse) returns (parts: seq<seq<F.Step>>)
    requires Run(ids, steps, s)
    ensures AllExpand(ids, steps, parts) && F.Run(ids, Flat(parts), AsFine(s))
    ensures NoneLocked(s.c) && s.c.nodes.Keys == ids
    decreases |steps|
  {
    if steps == [] {
      parts := [];
      assert F.Run(ids, [], AsFine(s));
    } else {
      var k := |steps| - 1;
      var r :| Run(ids, steps[..k], r) && Enabled(r, steps[k]) && s == Apply(r, steps[k]);
      var earlier := IsFineRun(ids, steps[..k], r);
      var part := StepIsFine(ids, Flat(earlier), r, steps[k]);
      StepLocksNobody(r, steps[k]);
      FlatGrows(earlier, part);
      AllExpandGrows(ids, steps, earlier, part);
      parts := earlier + [part];
    }
  }

  lemma CoreOfRun(ids: set<Id>, steps: seq<Step>, s: Coarse)
    requires Run(ids, steps, s)
    ensures Core(s.c) && s.c.nodes.Keys == ids && NoneLocked(s.c)
  {
    var parts := IsFineRun(ids, steps, s);
    F.RunKeepsCore(ids, Flat(parts), AsFine(s));
  }
}

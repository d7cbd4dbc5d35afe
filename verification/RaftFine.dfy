/**
 The cluster at fine granularity: the tests in the run loop and in append_log are
 separate from the blocks they guard, so a node may start an election although it has just
 crashed, and any node may send a heartbeat round or append an entry with whatever
 term it has by then. The promotion loop holds the promoting node's lock from
 the promotion until its last peer has answered.
 */
module RaftFine {
  import opened Common
  import opened RaftNodes
  import opened RaftCore

  datatype Delivery = Delivery(target: Id, entry: Entry)

  /** `inflight` holds the replication calls that append_log still has to make. */
  datatype Fine = Fine(c: Cluster, inflight: multiset<Delivery>)

  datatype Step =
    | StartElection(c: Id)
    | PollPeer(c: Id, p: Id)
    | FinishPolling(c: Id)
    | Announce(c: Id, p: Id)
    | SendHeartbeats(c: Id)
    | BeatPeer(c: Id, p: Id)
    | CrashNode(n: Id)
    | RecoverNode(n: Id)
    | AppendOwn(n: Id, command: string)
    | Deliver(d: Delivery)

  /** The node's lock is held by its own promotion loop. */
  predicate Locked(s: Cluster, n: Id) { At(s, n) && s.pcs[n].Announcing? }

  predicate Free(s: Cluster, n: Id) { At(s, n) && !s.pcs[n].Announcing? }

  predicate Enabled(s: Fine, a: Step) {
    match a
    case StartElection(c) => At(s.c, c) && s.c.pcs[c].Idle?
    case PollPeer(c, p) => CanPoll(s.c, c, p) && Free(s.c, p)
    case FinishPolling(c) => DonePolling(s.c, c)
    case Announce(c, p) => Locked(s.c, c) && p in s.c.pcs[c].pending && Free(s.c, p)
    case SendHeartbeats(c) => At(s.c, c) && s.c.pcs[c].Idle?
    case BeatPeer(c, p) => CanBeat(s.c, c, p) && Free(s.c, p)
    case CrashNode(n) => Free(s.c, n)
    case RecoverNode(n) => Free(s.c, n)
    case AppendOwn(n, _) => At(s.c, n)
    case Deliver(d) => d in s.inflight && Free(s.c, d.target)
  }

  function AnnouncingPc(pending: set<Id>, missed: set<Id>): Pc {
    if pending == {} then Idle else Announcing(pending, missed)
  }

  function Finish(s: Cluster, c: Id): Cluster
    requires DonePolling(s, c)
  {
    if Winning(s, c) then Promote(s, c, AnnouncingPc(s.nodes.Keys - {c}, s.pcs[c].missed))
    else SetPc(s, c, Idle)
  }

  function Accept(s: Cluster, c: Id, p: Id): Cluster
    requires Locked(s, c) && At(s, p)
  {
    var q := s.pcs[c];
    s.(nodes := s.nodes[p := AcceptBlock(s.nodes[p], c, s.nodes[c].term)],
       pcs := s.pcs[c := AnnouncingPc(q.pending - {p}, q.missed)])
  }

  function Append(s: Fine, n: Id, command: string): Fine
    requires At(s.c, n)
  {
    var entry := Entry(s.c.nodes[n].term, command);
    Fine(s.c.(nodes := s.c.nodes[n := AppendOwnBlock(s.c.nodes[n], command)]),
         s.inflight + multiset(set p | p in s.c.nodes && p != n :: Delivery(p, entry)))
  }

  function Apply(s: Fine, a: Step): Fine
    requires Enabled(s, a)
  {
    match a
    case StartElection(c) => s.(c := Start(s.c, c))
    case PollPeer(c, p) => s.(c := Poll(s.c, c, p))
    case FinishPolling(c) => s.(c := Finish(s.c, c))
    case Announce(c, p) => s.(c := Accept(s.c, c, p))
    case SendHeartbeats(c) => s.(c := SetPc(s.c, c, BeatingPc(s.c.nodes[c].term, s.c.nodes.Keys - {c})))
    case BeatPeer(c, p) => s.(c := Beat(s.c, c, p))
    case CrashNode(n) => s.(c := Crash(s.c, n))
    case RecoverNode(n) => s.(c := Recover(s.c, n))
    case AppendOwn(n, command) => Append(s, n, command)
    case Deliver(d) =>
      Fine(s.c.(nodes := s.c.nodes[d.target := AppendPeerBlock(s.c.nodes[d.target], d.entry)]),
           s.inflight - multiset{d})
  }

  // -------------------------------------------------------- runs

  function InitFine(ids: set<Id>): Fine { Fine(Init(ids), multiset{}) }

  ghost predicate Run(ids: set<Id>, steps: seq<Step>, s: Fine)
    decreases |steps|
  {
    if steps == [] then s == InitFine(ids)
    else
      var k := |steps| - 1;
      exists r :: Run(ids, steps[..k], r) && Enabled(r, steps[k]) && s == Apply(r, steps[k])
  }

  /** `s` is a state of some run of a cluster with these node ids. */
  ghost predicate Reachable(ids: set<Id>, s: Fine) {
    exists steps :: Run(ids, steps, s)
  }

  lemma RunGrows(ids: set<Id>, steps: seq<Step>, s: Fine, a: Step)
    requires Run(ids, steps, s) && Enabled(s, a)
    ensures Run(ids, steps + [a], Apply(s, a))
  {
    var more := steps + [a];
    assert more[..|more| - 1] == steps;
  }

  lemma RunExtends(ids: set<Id>, s: Fine, a: Step)
    requires Reachable(ids, s) && Enabled(s, a)
    ensures Reachable(ids, Apply(s, a))
  {
    var steps :| Run(ids, steps, s);
    RunGrows(ids, steps, s, a);
  }

  // -------------------------------------------------------- the invariant holds in every run

  lemma AcceptMovesOn(s: Cluster, c: Id, p: Id)
    requires Core(s) && Locked(s, c) && p in s.pcs[c].pending
    ensures Core(SetPc(s, c, AnnouncingPc(s.pcs[c].pending - {p}, s.pcs[c].missed)))
  {
    SetPcKeepsCore(s, c, AnnouncingPc(s.pcs[c].pending - {p}, s.pcs[c].missed));
  }

  lemma AcceptKeepsCore(s: Cluster, c: Id, p: Id)
    requires Core(s) && Locked(s, c) && p in s.pcs[c].pending && Free(s, p)
    ensures Core(Accept(s, c, p))
  {
    var pc := AnnouncingPc(s.pcs[c].pending - {p}, s.pcs[c].missed);
    AcceptMovesOn(s, c, p);
    BlocksAreCalm(s.nodes[p], s.nodes[c].term, c, Entry(0, ""));
    CalmOneKeepsCore(SetPc(s, c, pc), p, AcceptBlock(s.nodes[p], c, s.nodes[c].term));
  }

  lemma StepKeepsCore(s: Fine, a: Step)
    requires Core(s.c) && Enabled(s, a)
    ensures Core(Apply(s, a).c)
  {
    match a
    case StartElection(c) => StartKeepsCore(s.c, c);
    case PollPeer(c, p) => PollKeepsCore(s.c, c, p);
    case FinishPolling(c) =>
      if Winning(s.c, c) { PromoteKeepsCore(s.c, c, AnnouncingPc(s.c.nodes.Keys - {c}, s.c.pcs[c].missed)); }
      else { SetPcKeepsCore(s.c, c, Idle); }
    case Announce(c, p) => AcceptKeepsCore(s.c, c, p);
    case SendHeartbeats(c) => SetPcKeepsCore(s.c, c, BeatingPc(s.c.nodes[c].term, s.c.nodes.Keys - {c}));
    case BeatPeer(c, p) => BeatKeepsCore(s.c, c, p);
    case CrashNode(n) => CrashKeepsCore(s.c, n);
    case RecoverNode(n) => RecoverKeepsCore(s.c, n);
    case AppendOwn(n, command) =>
      CalmOneKeepsCore(s.c, n, AppendOwnBlock(s.c.nodes[n], command));
    case Deliver(d) => CalmOneKeepsCore(s.c, d.target, AppendPeerBlock(s.c.nodes[d.target], d.entry));
  }

  lemma StepKeepsIds(s: Fine, a: Step)
    requires Enabled(s, a)
    ensures Apply(s, a).c.nodes.Keys == s.c.nodes.Keys
  {
  }

  lemma {:induction false} RunKeepsCore(ids: set<Id>, steps: seq<Step>, s: Fine)
    requires Run(ids, steps, s)
    ensures Core(s.c) && s.c.nodes.Keys == ids
    decreases |steps|
  {
    if steps == [] {
      InitCore(ids);
    } else {
      var k := |steps| - 1;
      var r :| Run(ids, steps[..k], r) && Enabled(r, steps[k]) && s == Apply(r, steps[k]);
      RunKeepsCore(ids, steps[..k], r);
      StepKeepsCore(r, steps[k]);
      StepKeepsIds(r, steps[k]);
    }
  }

  // -------------------------------------------------------- election safety

  ghost predicate BothLead(s: Cluster, a: Id, b: Id) {
    a in s.nodes && b in s.nodes && s.nodes[a].role == Leader && s.nodes[b].role == Leader
  }

  /**
   Election Safety: no two promotions of a run share a term, and two nodes that are
   leaders in the same term are the same node.
   */
  lemma ElectionSafety(ids: set<Id>, s: Fine)
    requires Reachable(ids, s)
    ensures forall i, j :: 0 <= i < j < |s.c.elected| ==> s.c.elected[i].term != s.c.elected[j].term
    ensures forall a, b :: BothLead(s.c, a, b) && s.c.nodes[a].term == s.c.nodes[b].term ==> a == b
  {
    var steps :| Run(ids, steps, s);
    RunKeepsCore(ids, steps, s);
    forall a, b | BothLead(s.c, a, b) && s.c.nodes[a].term == s.c.nodes[b].term ensures a == b {
      LeaderOfTermIsUnique(s.c, a, b);
    }
  }

  lemma LeaderOfTermIsUnique(s: Cluster, a: Id, b: Id)
    requires Core(s) && BothLead(s, a, b) && s.nodes[a].term == s.nodes[b].term
    ensures a == b
  {
    assert Win(s.nodes[a].term, a) in s.elected && Win(s.nodes[b].term, b) in s.elected;
  }

  /** Every promotion was backed, in its term, by more than half of the cluster. */
  lemma ElectedByMajority(ids: set<Id>, s: Fine, w: Win)
    requires Reachable(ids, s) && w in s.c.elected
    ensures 2 * |Backers(s.c, w.term, w.id)| > |ids|
  {
    var steps :| Run(ids, steps, s);
    RunKeepsCore(ids, steps, s);
    assert |s.c.nodes.Keys| == |s.c.nodes|;
  }

  // -------------------------------------------------------- the nested locks of a promotion

  /** Through with polling and about to take, or holding, its own lock for the promotion. */
  ghost predicate Finished(s: Cluster, c: Id) { Winning(s, c) || Locked(s, c) }

  /** The peers that were crashed when `c` polled them. */
  ghost function Missed(s: Cluster, c: Id): set<Id>
    requires Finished(s, c)
  {
    s.pcs[c].missed
  }

  /**
   Two nodes can both be through with polling only at different terms, and then only
   because the one with the higher term found the other one crashed.
   */
  lemma FinishedTogether(ids: set<Id>, s: Fine, a: Id, b: Id)
    requires Reachable(ids, s)
    requires a != b && Finished(s.c, a) && Finished(s.c, b) && s.c.nodes[a].term <= s.c.nodes[b].term
    ensures s.c.nodes[a].term < s.c.nodes[b].term
    ensures a in Missed(s.c, b) && a in s.c.faulty
  {
    var steps :| Run(ids, steps, s);
    RunKeepsCore(ids, steps, s);
    assert ThreadOk(s.c, a) && ThreadOk(s.c, b);
    if s.c.nodes[a].term == s.c.nodes[b].term { SameTermSameWinner(s.c, a, b); }
  }

  lemma SameTermSameWinner(s: Cluster, a: Id, b: Id)
    requires Core(s) && Finished(s, a) && Finished(s, b) && s.nodes[a].term == s.nodes[b].term
    ensures a == b
  {
    var t := s.nodes[a].term;
    assert ThreadOk(s, a) && ThreadOk(s, b);
    if Winning(s, a) { WinnerIsNew(s, a); } else { assert Win(t, a) in s.elected; }
    if Winning(s, b) { WinnerIsNew(s, b); } else { assert Win(t, b) in s.elected; }
    assert |s.nodes.Keys| == |s.nodes|;
    MajoritiesMeet(Backers(s, t, a), Backers(s, t, b), s.nodes.Keys);
  }

  /** A promotion loop waiting for the lock of a node that is inside its own promotion loop. */
  ghost predicate WaitsFor(s: Cluster, a: Id, b: Id) {
    Locked(s, a) && Locked(s, b) && b in s.pcs[a].pending
  }

  /** While nobody has ever crashed, at most one node is through with polling. */
  lemma CrashFreeOneFinishes(ids: set<Id>, s: Fine, a: Id, b: Id)
    requires Reachable(ids, s) && s.c.faulty == {}
    requires Finished(s.c, a) && Finished(s.c, b)
    ensures a == b
  {
    if a != b {
      if s.c.nodes[a].term <= s.c.nodes[b].term { FinishedTogether(ids, s, a, b); }
      else { FinishedTogether(ids, s, b, a); }
    }
  }

  /** Hence no promotion waits for another one: each of its remaining calls can be made. */
  lemma CrashFreePromotionNeverWaits(ids: set<Id>, s: Fine, a: Id, p: Id)
    requires Reachable(ids, s) && s.c.faulty == {}
    requires Locked(s.c, a) && p in s.c.pcs[a].pending
    ensures Enabled(s, Announce(a, p)) && !WaitsFor(s.c, a, p)
  {
    var steps :| Run(ids, steps, s);
    RunKeepsCore(ids, steps, s);
    assert ThreadOk(s.c, a);
    if Locked(s.c, p) { CrashFreeOneFinishes(ids, s, a, p); }
  }
}

/**
 The state of a Raft cluster between lock-protected blocks, and the invariant that
 both granularities share. Every node's thread has a program counter, because the
 polling loop and the heartbeat loop hold no lock while they call the peers.
 */
module RaftCore {
  import opened Common
  import opened RaftNodes

  /**
   Where a node's own thread is. `pending` holds the peers a loop has not reached
   yet: any order of the peer list is covered. `voters` are the nodes whose votes
   were counted, the candidate included; `missed` the peers that were crashed when polled.
   */
  datatype Pc =
    | Idle
    | Polling(term: nat, logLen: nat, pending: set<Id>, votes: nat, voters: set<Id>, missed: set<Id>)
    | Announcing(pending: set<Id>, missed: set<Id>)
    | Beating(term: nat, pending: set<Id>)

  datatype Win = Win(term: nat, id: Id)

  /**
   `ballots` and `elected` record the past: who each node backed in each term, and the
   promotions in order. `faulty` holds the nodes that have ever been crashed.
   */
  datatype Cluster = Cluster(
    nodes: map<Id, Node>,
    pcs: map<Id, Pc>,
    ballots: map<(Id, nat), Id>,
    elected: seq<Win>,
    faulty: set<Id>)

  function Init(ids: set<Id>): Cluster {
    Cluster(map n | n in ids :: FRESH, map n | n in ids :: Idle, map[], [], {})
  }

  // -------------------------------------------------------- blocks on a cluster

  predicate At(s: Cluster, n: Id) { n in s.nodes && n in s.pcs }

  function Start(s: Cluster, c: Id): Cluster
    requires At(s, c)
  {
    var n := StartBlock(s.nodes[c], c);
    s.(nodes := s.nodes[c := n],
       pcs := s.pcs[c := Polling(n.term, |n.log|, s.nodes.Keys - {c}, 1, {c}, {})],
       ballots := s.ballots[(c, n.term) := c])
  }

  predicate CanPoll(s: Cluster, c: Id, p: Id) {
    At(s, c) && At(s, p) && s.pcs[c].Polling? && p in s.pcs[c].pending
  }

  function Poll(s: Cluster, c: Id, p: Id): Cluster
    requires CanPoll(s, c, p)
  {
    var q := s.pcs[c];
    var (n, granted) := VoteBlock(s.nodes[p], q.term, c, q.logLen);
    var q1 := q.(pending := q.pending - {p},
                 missed := if s.nodes[p].crashed then q.missed + {p} else q.missed);
    var q2 := if granted then q1.(votes := q.votes + 1, voters := q.voters + {p}) else q1;
    s.(nodes := s.nodes[p := n],
       pcs := s.pcs[c := q2],
       ballots := if granted then s.ballots[(p, q.term) := c] else s.ballots)
  }

  predicate DonePolling(s: Cluster, c: Id) {
    At(s, c) && s.pcs[c].Polling? && s.pcs[c].pending == {}
  }

  /** A node that has polled everybody, is still a candidate and holds a winning count. */
  predicate Winning(s: Cluster, c: Id) {
    DonePolling(s, c) && Wins(s.nodes[c], s.pcs[c].votes, |s.nodes|)
  }

  function Promote(s: Cluster, c: Id, pc: Pc): Cluster
    requires At(s, c)
  {
    s.(nodes := s.nodes[c := PromoteBlock(s.nodes[c], c)],
       pcs := s.pcs[c := pc],
       elected := s.elected + [Win(s.nodes[c].term, c)])
  }

  function SetPc(s: Cluster, c: Id, pc: Pc): Cluster { s.(pcs := s.pcs[c := pc]) }

  function BeatingPc(term: nat, pending: set<Id>): Pc {
    if pending == {} then Idle else Beating(term, pending)
  }

  predicate CanBeat(s: Cluster, c: Id, p: Id) {
    At(s, c) && At(s, p) && s.pcs[c].Beating? && p in s.pcs[c].pending
  }

  function Beat(s: Cluster, c: Id, p: Id): Cluster
    requires CanBeat(s, c, p)
  {
    var q := s.pcs[c];
    s.(nodes := s.nodes[p := HeartbeatBlock(s.nodes[p], q.term, c)],
       pcs := s.pcs[c := BeatingPc(q.term, q.pending - {p})])
  }

  function Crash(s: Cluster, n: Id): Cluster
    requires At(s, n)
  {
    s.(nodes := s.nodes[n := CrashBlock(s.nodes[n])], faulty := s.faulty + {n})
  }

  function Recover(s: Cluster, n: Id): Cluster
    requires At(s, n)
  {
    s.(nodes := s.nodes[n := RecoverBlock(s.nodes[n])])
  }

  // -------------------------------------------------------- the shared invariant

  ghost predicate Backs(s: Cluster, n: Id, term: nat, c: Id) {
    (n, term) in s.ballots && s.ballots[(n, term)] == c
  }

  ghost function Backers(s: Cluster, term: nat, c: Id): set<Id> {
    set n | n in s.nodes && Backs(s, n, term, c)
  }

  /** A recorded ballot is never newer than its node, and binds it while its term lasts. */
  ghost predicate BallotsOk(s: Cluster) {
    forall n, t :: (n, t) in s.ballots ==>
      && n in s.nodes
      && t <= s.nodes[n].term
      && (t == s.nodes[n].term ==> s.nodes[n].votedFor == Some(s.ballots[(n, t)]))
  }

  ghost predicate PollingOk(s: Cluster, c: Id)
    requires At(s, c) && s.pcs[c].Polling?
  {
    var n, q := s.nodes[c], s.pcs[c];
    && c in q.voters
    && q.voters <= s.nodes.Keys - q.pending
    && q.pending <= s.nodes.Keys - {c}
    && q.votes == |q.voters|
    && q.term <= n.term
    && n.role != Leader
    && (n.role == Candidate ==> n.term == q.term)
    && q.logLen <= |n.log|
    && q.missed <= s.faulty
    && q.missed !! q.pending && q.missed !! q.voters
    && (forall v :: v in q.voters ==> Backs(s, v, q.term, c))
    && (forall a :: a in s.nodes && a !in q.pending && a !in q.missed ==> q.term <= s.nodes[a].term)
    && (forall w :: w in s.elected && w.id == c ==> w.term < q.term)
  }

  /** More than half of the nodes are not in `missed`. */
  ghost predicate Most(nodes: set<Id>, missed: set<Id>) { 2 * |nodes - missed| > |nodes| }

  ghost predicate ThreadOk(s: Cluster, c: Id)
    requires At(s, c)
  {
    match s.pcs[c]
    case Idle => true
    case Polling(_, _, _, _, _, _) => PollingOk(s, c)
    case Announcing(pending, missed) =>
      && s.nodes[c].role == Leader
      && pending != {} && pending <= s.nodes.Keys - {c}
      && missed <= s.faulty
      && Most(s.nodes.Keys, missed)
      && (forall a :: a in s.nodes && a !in missed ==> s.nodes[c].term <= s.nodes[a].term)
    case Beating(t, pending) => pending != {} && pending <= s.nodes.Keys - {c} && t <= s.nodes[c].term
  }

  ghost predicate WinsOk(s: Cluster) {
    && (forall w :: w in s.elected ==>
         && w.id in s.nodes
         && w.term <= s.nodes[w.id].term
         && |Backers(s, w.term, w.id)| > |s.nodes| / 2)
    && (forall i, j :: 0 <= i < j < |s.elected| ==> s.elected[i].term != s.elected[j].term)
  }

  /** Leaders were elected in their term, and crashed nodes are known as faulty. */
  ghost predicate RolesOk(s: Cluster) {
    && (forall n :: n in s.nodes && s.nodes[n].role == Leader ==> Win(s.nodes[n].term, n) in s.elected)
    && (forall n :: n in s.nodes && s.nodes[n].crashed ==> n in s.faulty)
  }

  ghost predicate Core(s: Cluster) {
    && s.pcs.Keys == s.nodes.Keys
    && (forall n :: n in s.nodes ==> ThreadOk(s, n))
    && RolesOk(s)
    && BallotsOk(s)
    && WinsOk(s)
  }

  lemma InitCore(ids: set<Id>)
    ensures Core(Init(ids))
  {
  }

  // -------------------------------------------------------- preservation

  /** `t` has the past of `s`, and at least its ballots. */
  ghost predicate Keeps(s: Cluster, t: Cluster) {
    && t.nodes.Keys == s.nodes.Keys && t.pcs.Keys == s.pcs.Keys
    && (forall k :: k in s.ballots ==> k in t.ballots && t.ballots[k] == s.ballots[k])
    && (forall n :: n in s.nodes ==> s.nodes[n].term <= t.nodes[n].term)
  }

  lemma BackersGrow(s: Cluster, t: Cluster, term: nat, c: Id)
    requires Keeps(s, t)
    ensures |Backers(s, term, c)| <= |Backers(t, term, c)|
    ensures |t.nodes| == |s.nodes|
  {
    SubsetSize(Backers(s, term, c), Backers(t, term, c));
    assert |t.nodes.Keys| == |s.nodes.Keys|;
  }

  lemma WinsKept(s: Cluster, t: Cluster)
    requires WinsOk(s) && Keeps(s, t) && t.elected == s.elected
    ensures WinsOk(t)
  {
    forall w | w in t.elected ensures |Backers(t, w.term, w.id)| > |t.nodes| / 2 {
      BackersGrow(s, t, w.term, w.id);
    }
  }

  /** Calm blocks on any number of nodes keep the invariant, announcing nodes standing still. */
  lemma CalmKeepsCore(s: Cluster, t: Cluster)
    requires Core(s) && t.nodes.Keys == s.nodes.Keys
    requires t == s.(nodes := t.nodes, faulty := t.faulty) && s.faulty <= t.faulty
    requires forall n :: n in s.nodes ==> Calm(s.nodes[n], t.nodes[n])
    requires forall n :: n in s.nodes && t.nodes[n].crashed ==> n in t.faulty
    requires forall n :: n in s.nodes && s.pcs[n].Announcing? ==>
      t.nodes[n].role == s.nodes[n].role && t.nodes[n].term == s.nodes[n].term
    ensures Core(t)
  {
    WinsKept(s, t);
    forall n | n in t.nodes ensures ThreadOk(t, n) {
      assert ThreadOk(s, n);
    }
  }

  lemma StartKeepsOwn(s: Cluster, c: Id)
    requires At(s, c) && s.nodes.Keys == s.pcs.Keys && BallotsOk(s)
    requires forall w :: w in s.elected && w.id == c ==> w.term <= s.nodes[c].term
    ensures ThreadOk(Start(s, c), c)
  {
  }

  lemma StartKeepsOther(s: Cluster, c: Id, n: Id)
    requires At(s, c) && At(s, n) && n != c && s.nodes.Keys == s.pcs.Keys
    requires ThreadOk(s, n) && Keeps(s, Start(s, c))
    ensures ThreadOk(Start(s, c), n)
  {
    assert Start(s, c).nodes.Keys == s.nodes.Keys;
  }

  lemma StartKeepsBallots(s: Cluster, c: Id)
    requires At(s, c) && BallotsOk(s)
    ensures BallotsOk(Start(s, c)) && Keeps(s, Start(s, c))
  {
  }

  lemma StartKeepsCore(s: Cluster, c: Id)
    requires Core(s) && At(s, c) && s.pcs[c].Idle?
    ensures Core(Start(s, c))
  {
    StartKeepsBallots(s, c);
    WinsKept(s, Start(s, c));
    forall n | n in s.nodes ensures ThreadOk(Start(s, c), n) {
      assert ThreadOk(s, n);
      if n == c { StartKeepsOwn(s, c); } else { StartKeepsOther(s, c, n); }
    }
  }

  lemma PollKeepsBallots(s: Cluster, c: Id, p: Id)
    requires CanPoll(s, c, p) && BallotsOk(s)
    ensures BallotsOk(Poll(s, c, p)) && Keeps(s, Poll(s, c, p))
  {
  }

  lemma PollKeepsPoller(s: Cluster, c: Id, p: Id)
    requires CanPoll(s, c, p) && s.nodes.Keys == s.pcs.Keys
    requires PollingOk(s, c) && Keeps(s, Poll(s, c, p))
    requires forall n :: n in s.nodes && s.nodes[n].crashed ==> n in s.faulty
    ensures PollingOk(Poll(s, c, p), c)
  {
  }

  lemma PollKeepsOther(s: Cluster, c: Id, p: Id, n: Id)
    requires CanPoll(s, c, p) && At(s, n) && n != c && !s.pcs[p].Announcing?
    requires ThreadOk(s, n) && Keeps(s, Poll(s, c, p))
    ensures ThreadOk(Poll(s, c, p), n)
  {
  }

  lemma PollKeepsRoles(s: Cluster, c: Id, p: Id)
    requires CanPoll(s, c, p) && RolesOk(s)
    ensures RolesOk(Poll(s, c, p))
  {
  }

  lemma PollKeepsCore(s: Cluster, c: Id, p: Id)
    requires Core(s) && CanPoll(s, c, p) && !s.pcs[p].Announcing?
    ensures Core(Poll(s, c, p))
  {
    var t := Poll(s, c, p);
    PollKeepsBallots(s, c, p);
    PollKeepsRoles(s, c, p);
    WinsKept(s, t);
    forall n | n in t.nodes ensures ThreadOk(t, n) {
      assert ThreadOk(s, n);
      if n == c { PollKeepsPoller(s, c, p); } else { PollKeepsOther(s, c, p, n); }
    }
  }

  /** The winner's voters back it in its own term; nobody else was elected in that term. */
  lemma WinnerIsNew(s: Cluster, c: Id)
    requires Core(s) && Winning(s, c)
    ensures |Backers(s, s.nodes[c].term, c)| > |s.nodes| / 2
    ensures forall w :: w in s.elected ==> w.term != s.nodes[c].term
  {
    assert ThreadOk(s, c) && PollingOk(s, c);
    var term := s.nodes[c].term;
    SubsetSize(s.pcs[c].voters, Backers(s, term, c));
    forall w | w in s.elected ensures w.term != term {
      if w.term == term {
        assert |s.nodes.Keys| == |s.nodes|;
        MajoritiesMeet(Backers(s, term, c), Backers(s, term, w.id), s.nodes.Keys);
      }
    }
  }

  ghost predicate AfterPromotion(s: Cluster, c: Id, pc: Pc)
    requires At(s, c) && s.pcs[c].Polling?
  {
    pc.Idle? || (pc.Announcing? && pc.missed == s.pcs[c].missed && pc.pending != {} && pc.pending <= s.nodes.Keys - {c})
  }

  lemma PromoteKeepsWinner(s: Cluster, c: Id, pc: Pc, w: Win)
    requires At(s, c) && w.id in s.nodes && w.term <= s.nodes[w.id].term
    requires |Backers(s, w.term, w.id)| > |s.nodes| / 2
    ensures var t := Promote(s, c, pc);
      w.id in t.nodes && w.term <= t.nodes[w.id].term && |Backers(t, w.term, w.id)| > |t.nodes| / 2
  {
    BackersGrow(s, Promote(s, c, pc), w.term, w.id);
  }

  lemma PromoteKeepsWins(s: Cluster, c: Id, pc: Pc)
    requires Core(s) && Winning(s, c)
    ensures WinsOk(Promote(s, c, pc))
  {
    var t := Promote(s, c, pc);
    WinnerIsNew(s, c);
    forall w | w in t.elected
      ensures w.id in t.nodes && w.term <= t.nodes[w.id].term && |Backers(t, w.term, w.id)| > |t.nodes| / 2
    {
      assert w in s.elected || w == Win(s.nodes[c].term, c);
      PromoteKeepsWinner(s, c, pc, w);
    }
  }

  /** More than half of the cluster was up when the winner polled it. */
  lemma WinnerMissedFew(s: Cluster, c: Id)
    requires Core(s) && Winning(s, c)
    ensures Most(s.nodes.Keys, s.pcs[c].missed)
  {
    assert ThreadOk(s, c) && PollingOk(s, c);
    SubsetSize(s.pcs[c].voters, s.nodes.Keys - s.pcs[c].missed);
    assert |s.nodes.Keys| == |s.nodes|;
  }

  lemma PromoteKeepsThread(s: Cluster, c: Id, pc: Pc, n: Id)
    requires Core(s) && Winning(s, c) && AfterPromotion(s, c, pc) && n in s.nodes
    ensures ThreadOk(Promote(s, c, pc), n)
  {
    var t := Promote(s, c, pc);
    assert ThreadOk(s, n) && ThreadOk(s, c);
    WinnerMissedFew(s, c);
    assert t.nodes.Keys == s.nodes.Keys;
    if n != c && t.pcs[n].Polling? {
      forall w | w in t.elected && w.id == n ensures w.term < t.pcs[n].term {
        assert w in s.elected;
      }
    }
  }

  lemma PromoteKeepsCore(s: Cluster, c: Id, pc: Pc)
    requires Core(s) && Winning(s, c) && AfterPromotion(s, c, pc)
    ensures Core(Promote(s, c, pc))
  {
    var t := Promote(s, c, pc);
    PromoteKeepsWins(s, c, pc);
    forall n | n in t.nodes ensures ThreadOk(t, n) { PromoteKeepsThread(s, c, pc, n); }
    assert t.elected[|s.elected|] == Win(s.nodes[c].term, c);
    forall n | n in t.nodes && t.nodes[n].role == Leader ensures Win(t.nodes[n].term, n) in t.elected {
      assert n != c ==> Win(s.nodes[n].term, n) in s.elected;
    }
  }

  lemma SetPcKeepsCore(s: Cluster, c: Id, pc: Pc)
    requires Core(s) && At(s, c)
    requires pc.Idle?
      || (pc.Beating? && pc.pending != {} && pc.pending <= s.nodes.Keys - {c} && pc.term <= s.nodes[c].term)
      || (pc.Announcing? && s.pcs[c].Announcing? && pc.missed == s.pcs[c].missed
            && {} != pc.pending <= s.pcs[c].pending)
    ensures Core(SetPc(s, c, pc))
  {
    assert ThreadOk(s, c);
    var t := SetPc(s, c, pc);
    WinsKept(s, t);
    forall n | n in t.nodes ensures ThreadOk(t, n) {
      assert ThreadOk(s, n);
    }
  }

  /** A calm block on one node that stays up, or down. */
  lemma CalmOneKeepsCore(s: Cluster, p: Id, m: Node)
    requires Core(s) && At(s, p) && Calm(s.nodes[p], m) && m.crashed == s.nodes[p].crashed
    requires s.pcs[p].Announcing? ==> m.role == s.nodes[p].role && m.term == s.nodes[p].term
    ensures Core(s.(nodes := s.nodes[p := m]))
  {
    CalmKeepsCore(s, s.(nodes := s.nodes[p := m]));
  }

  lemma BeatMovesOn(s: Cluster, c: Id, p: Id)
    requires Core(s) && CanBeat(s, c, p)
    ensures Core(SetPc(s, c, BeatingPc(s.pcs[c].term, s.pcs[c].pending - {p})))
  {
    assert ThreadOk(s, c);
    SetPcKeepsCore(s, c, BeatingPc(s.pcs[c].term, s.pcs[c].pending - {p}));
  }

  lemma BeatKeepsCore(s: Cluster, c: Id, p: Id)
    requires Core(s) && CanBeat(s, c, p) && !s.pcs[p].Announcing?
    ensures Core(Beat(s, c, p))
  {
    var q := s.pcs[c];
    BeatMovesOn(s, c, p);
    BlocksAreCalm(s.nodes[p], q.term, c, Entry(0, ""));
    CalmOneKeepsCore(SetPc(s, c, BeatingPc(q.term, q.pending - {p})), p, HeartbeatBlock(s.nodes[p], q.term, c));
  }

  lemma CrashKeepsCore(s: Cluster, n: Id)
    requires Core(s) && At(s, n) && !s.pcs[n].Announcing?
    ensures Core(Crash(s, n))
  {
    CalmKeepsCore(s, Crash(s, n));
  }

  lemma RecoverKeepsCore(s: Cluster, n: Id)
    requires Core(s) && At(s, n) && !s.pcs[n].Announcing?
    ensures Core(Recover(s, n))
  {
    CalmKeepsCore(s, Recover(s, n));
  }
}

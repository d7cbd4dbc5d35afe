/**
 What the rounds of a cluster achieve: a heartbeat round brings every live node that is
 not ahead under the sender, and the end of a poll promotes exactly the candidate with a majority.
 */
module RaftRounds {
  import opened Common
  import opened RaftNodes
  import opened RaftCore
  import opened RaftFine
  import C = RaftCoarse

  /** One delivery: a node that is down or ahead stays as it is, any other one follows, with its vote and log. */
  lemma BeatTells(s: Cluster, c: Id, p: Id)
    requires CanBeat(s, c, p)
    ensures var t, term := Beat(s, c, p), s.pcs[c].term;
      && (s.nodes[p].crashed || s.nodes[p].term > term ==> t.nodes == s.nodes)
      && (!s.nodes[p].crashed && s.nodes[p].term <= term ==>
            t.nodes == s.nodes[p := s.nodes[p].(term := term, role := Follower, leaderId := Some(c))])
    ensures var t, rest := Beat(s, c, p), s.pcs[c].pending - {p};
      t == s.(nodes := t.nodes, pcs := s.pcs[c := if rest == {} then Idle else Beating(s.pcs[c].term, rest)])
  {
    assert s.nodes[p := s.nodes[p]] == s.nodes;
  }

  /** In both models a heartbeat delivery is that step. */
  lemma BeatsAlike(f: Fine, s: C.Coarse, c: Id, p: Id)
    requires f.c == s.c && CanBeat(s.c, c, p) && Free(s.c, p)
    ensures Enabled(f, BeatPeer(c, p)) && Apply(f, BeatPeer(c, p)).c == Beat(s.c, c, p)
    ensures C.Enabled(s, C.BeatPeer(c, p)) && C.Apply(s, C.BeatPeer(c, p)).c == Beat(s.c, c, p)
  {
  }

  /** The node after a heartbeat of `c` at this term. */
  ghost predicate Told(n: Node, m: Node, c: Id, term: nat) {
    if n.crashed || n.term > term then m == n
    else
      && m.role == Follower && m.leaderId == Some(c) && m.term == term
      && m.votedFor == n.votedFor && m.log == n.log && m.commitIndex == n.commitIndex && !m.crashed
  }

  ghost predicate Quiet(f: Fine, ids: set<Id>) {
    f.c.nodes.Keys == ids && f.c.pcs.Keys == ids && forall n :: n in ids ==> !f.c.pcs[n].Announcing?
  }

  /** The rest of a round, undisturbed. */
  lemma {:induction false} FinishRound(ids: set<Id>, f: Fine, c: Id) returns (g: Fine)
    requires Reachable(ids, f) && Quiet(f, ids) && c in ids
    requires f.c.pcs[c].Beating? && {} != f.c.pcs[c].pending <= ids - {c}
    ensures Reachable(ids, g) && g.c.nodes.Keys == ids && g.c.pcs == f.c.pcs[c := Idle]
    ensures forall n :: n in ids ==>
      if n in f.c.pcs[c].pending then Told(f.c.nodes[n], g.c.nodes[n], c, f.c.pcs[c].term)
      else g.c.nodes[n] == f.c.nodes[n]
    decreases |f.c.pcs[c].pending|
  {
    var p := Pick(f.c.pcs[c].pending);
    var h := Apply(f, BeatPeer(c, p));
    RunExtends(ids, f, BeatPeer(c, p));
    BeatTells(f.c, c, p);
    if f.c.pcs[c].pending == {p} {
      g := h;
    } else {
      g := FinishRound(ids, h, c);
      assert h.c.pcs[c := Idle] == f.c.pcs[c := Idle];
    }
  }

  /**
   A whole undisturbed heartbeat round: every other node that is up and at no higher term ends as a follower of the
   sender at the sender's term, with its vote and its log as before; every other one, and the sender, is unchanged.
   */
  lemma HeartbeatRound(ids: set<Id>, f: Fine, c: Id) returns (g: Fine)
    requires Reachable(ids, f) && Quiet(f, ids) && c in ids && f.c.pcs[c].Idle?
    ensures Reachable(ids, g) && g.c.nodes.Keys == ids && g.c.pcs == f.c.pcs
    ensures g.c.nodes[c] == f.c.nodes[c]
    ensures forall n :: n in ids && n != c ==> Told(f.c.nodes[n], g.c.nodes[n], c, f.c.nodes[c].term)
  {
    RunExtends(ids, f, SendHeartbeats(c));
    var h := Apply(f, SendHeartbeats(c));
    if ids == {c} {
      g := h;
      assert ids - {c} == {};
    } else {
      assert ids - {c} != {} by { assert ids == (ids - {c}) + {c}; }
      g := FinishRound(ids, h, c);
    }
    assert g.c.pcs == f.c.pcs[c := Idle] == f.c.pcs;
  }

  /** The end of a poll promotes the node exactly if it still stands and holds more than half of the votes. */
  lemma PromotedIff(f: Fine, c: Id)
    requires Enabled(f, FinishPolling(c)) && f.c.nodes[c].role != Leader
    ensures var t := Apply(f, FinishPolling(c)).c;
      var won := f.c.nodes[c].role == Candidate && 2 * f.c.pcs[c].votes > |f.c.nodes|;
      && (t.nodes[c].role == Leader <==> won)
      && t.elected == (if won then f.c.elected + [Win(f.c.nodes[c].term, c)] else f.c.elected)
      && (won ==> t.nodes == f.c.nodes[c := f.c.nodes[c].(role := Leader, leaderId := Some(c))])
      && (!won ==> t.nodes == f.c.nodes && t.pcs == f.c.pcs[c := Idle])
  {
  }

  /** At coarse granularity the promotion also brings every live node that is not ahead under the winner. */
  lemma PromotionTells(s: C.Coarse, c: Id, n: Id)
    requires C.Enabled(s, C.FinishPolling(c)) && s.c.nodes[c].role == Candidate && 2 * s.c.pcs[c].votes > |s.c.nodes|
    requires n in s.c.nodes && n != c
    ensures var t := C.Apply(s, C.FinishPolling(c)).c;
      t.nodes[c].role == Leader && Told(s.c.nodes[n], t.nodes[n], c, s.c.nodes[c].term)
  {
  }
}

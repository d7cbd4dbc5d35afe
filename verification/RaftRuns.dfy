/**
 Building runs for any cluster: whole loops of crashes, recoveries and vote requests, for
 every set of states that is closed under the steps both granularities share.
 */
module RaftRuns {
  import opened Common
  import opened RaftNodes
  import opened RaftCore

  /** Nobody is inside a promotion loop. */
  ghost predicate Unlocked(s: Cluster, ids: set<Id>) {
    s.nodes.Keys == ids && s.pcs.Keys == ids && forall n :: n in ids ==> !s.pcs[n].Announcing?
  }

  /** The steps that both granularities share, as far as the runs below need them. */
  datatype Move = Stand(c: Id) | Ask(c: Id, p: Id) | Lose(c: Id) | Down(n: Id) | Up(n: Id)

  predicate Can(s: Cluster, m: Move) {
    match m
    case Stand(c) => At(s, c) && s.pcs[c].Idle? && !s.nodes[c].crashed && s.nodes[c].role != Leader
    case Ask(c, p) => CanPoll(s, c, p) && !s.pcs[p].Announcing?
    case Lose(c) => DonePolling(s, c) && !Winning(s, c)
    case Down(n) => At(s, n) && !s.pcs[n].Announcing?
    case Up(n) => At(s, n) && !s.pcs[n].Announcing?
  }

  function After(s: Cluster, m: Move): Cluster
    requires Can(s, m)
  {
    match m
    case Stand(c) => Start(s, c)
    case Ask(c, p) => Poll(s, c, p)
    case Lose(c) => SetPc(s, c, Idle)
    case Down(n) => Crash(s, n)
    case Up(n) => Recover(s, n)
  }

  ghost predicate Closed(ok: iset<Cluster>) {
    forall s, m :: s in ok && Can(s, m) ==> After(s, m) in ok
  }

  lemma {:induction false} CrashAll(ok: iset<Cluster>, ids: set<Id>, s: Cluster, some: set<Id>) returns (t: Cluster)
    requires Closed(ok) && s in ok && Unlocked(s, ids) && some <= ids
    ensures t in ok && t.pcs == s.pcs && t.elected == s.elected && Unlocked(t, ids)
    ensures forall n :: n in ids ==> t.nodes[n] == if n in some then CrashBlock(s.nodes[n]) else s.nodes[n]
    decreases |some|
  {
    if some == {} {
      t := s;
    } else {
      var p := Pick(some);
      t := CrashAll(ok, ids, After(s, Down(p)), some - {p});
    }
  }

  lemma {:induction false} RecoverAll(ok: iset<Cluster>, ids: set<Id>, s: Cluster, some: set<Id>) returns (t: Cluster)
    requires Closed(ok) && s in ok && Unlocked(s, ids) && some <= ids
    ensures t in ok && t.pcs == s.pcs && t.elected == s.elected && Unlocked(t, ids)
    ensures forall n :: n in ids ==> t.nodes[n] == if n in some then RecoverBlock(s.nodes[n]) else s.nodes[n]
    decreases |some|
  {
    if some == {} {
      t := s;
    } else {
      var p := Pick(some);
      t := RecoverAll(ok, ids, After(s, Up(p)), some - {p});
    }
  }

  /** What a peer answers to the candidate. */
  function Answer(s: Cluster, c: Id, p: Id): (Node, bool)
    requires At(s, c) && s.pcs[c].Polling? && p in s.nodes
  {
    VoteBlock(s.nodes[p], s.pcs[c].term, c, s.pcs[c].logLen)
  }

  ghost predicate Standing(s: Cluster, ids: set<Id>, c: Id) { Unlocked(s, ids) && c in ids && s.pcs[c].Polling? }

  /** Some peers of a candidate, all giving the same answer. */
  ghost predicate AllAnswer(s: Cluster, ids: set<Id>, c: Id, some: set<Id>, yes: bool)
    requires Standing(s, ids, c)
  {
    c !in some && some <= ids && some <= s.pcs[c].pending && forall p :: p in some ==> Answer(s, c, p).1 == yes
  }

  /** The state after polling these peers. */
  ghost predicate Polled(s: Cluster, ids: set<Id>, c: Id, some: set<Id>, yes: bool, t: Cluster)
    requires Standing(s, ids, c) && some <= ids
  {
    && Standing(t, ids, c) && t.elected == s.elected
    && (forall n :: n in ids ==> t.nodes[n] == if n in some then Answer(s, c, n).0 else s.nodes[n])
    && (forall n :: n in ids && n != c ==> t.pcs[n] == s.pcs[n])
    && t.pcs[c].term == s.pcs[c].term && t.pcs[c].logLen == s.pcs[c].logLen
    && t.pcs[c].pending == s.pcs[c].pending - some
    && t.pcs[c].votes == s.pcs[c].votes + if yes then |some| else 0
  }

  lemma PolledOne(s: Cluster, ids: set<Id>, c: Id, p: Id, yes: bool)
    requires Standing(s, ids, c) && AllAnswer(s, ids, c, {p}, yes)
    ensures CanPoll(s, c, p) && Polled(s, ids, c, {p}, yes, Poll(s, c, p))
  {
  }

  lemma StillAnswer(s: Cluster, ids: set<Id>, c: Id, p: Id, some: set<Id>, yes: bool, t: Cluster)
    requires Standing(s, ids, c) && p in some && AllAnswer(s, ids, c, some, yes) && Polled(s, ids, c, {p}, yes, t)
    ensures AllAnswer(t, ids, c, some - {p}, yes)
  {
  }

  lemma PolledMore(s: Cluster, ids: set<Id>, c: Id, p: Id, some: set<Id>, yes: bool, t: Cluster, u: Cluster)
    requires Standing(s, ids, c) && p in some && some <= ids && c !in some
    requires Polled(s, ids, c, {p}, yes, t) && Polled(t, ids, c, some - {p}, yes, u)
    ensures Polled(s, ids, c, some, yes, u)
  {
    assert |some| == |some - {p}| + 1;
  }

  lemma {:induction false} PollAll(ok: iset<Cluster>, ids: set<Id>, s: Cluster, c: Id, some: set<Id>, yes: bool)
    returns (t: Cluster)
    requires Closed(ok) && s in ok && Standing(s, ids, c) && AllAnswer(s, ids, c, some, yes)
    ensures t in ok && Polled(s, ids, c, some, yes, t)
    decreases |some|
  {
    if some == {} {
      t := s;
    } else {
      var p := Pick(some);
      PolledOne(s, ids, c, p, yes);
      var asked := After(s, Ask(c, p));
      StillAnswer(s, ids, c, p, some, yes, asked);
      t := PollAll(ok, ids, asked, c, some - {p}, yes);
      PolledMore(s, ids, c, p, some, yes, asked, t);
    }
  }

  /** An up candidate with an empty log, and how far its poll is. */
  ghost predicate Stands(s: Cluster, ids: set<Id>, b: Id, term: nat, votes: nat, pending: set<Id>) {
    && Standing(s, ids, b) && s.nodes[b].term == s.pcs[b].term == term && s.nodes[b].role == Candidate
    && !s.nodes[b].crashed && s.nodes[b].log == [] && s.pcs[b].logLen == 0
    && s.pcs[b].votes == votes && s.pcs[b].pending == pending
  }

  /** These nodes grant a vote to every request of this term. */
  ghost predicate Willing(s: Cluster, some: set<Id>, term: nat) {
    forall n :: n in some ==> n in s.nodes && s.nodes[n].term < term && s.nodes[n].log == [] && !s.nodes[n].crashed
  }

  /** They did grant it. */
  ghost predicate Voted(s: Cluster, some: set<Id>, term: nat) {
    forall n :: n in some ==> n in s.nodes && s.nodes[n].term == term && s.nodes[n].log == [] && !s.nodes[n].crashed
  }

  lemma WillingSayYes(ok: iset<Cluster>, ids: set<Id>, s: Cluster, c: Id, some: set<Id>) returns (t: Cluster)
    requires Closed(ok) && s in ok && Standing(s, ids, c) && Stands(s, ids, c, s.pcs[c].term, 1, s.pcs[c].pending)
    requires some <= s.pcs[c].pending && some <= ids - {c} && Willing(s, some, s.pcs[c].term)
    ensures t in ok && Stands(t, ids, c, s.pcs[c].term, 1 + |some|, s.pcs[c].pending - some)
    ensures Voted(t, some, s.pcs[c].term)
    ensures forall n :: n in ids && n != c ==> t.pcs[n] == s.pcs[n]
    ensures forall n :: n in ids && n !in some && n != c ==> t.nodes[n] == s.nodes[n]
  {
    t := PollAll(ok, ids, s, c, some, true);
  }
}

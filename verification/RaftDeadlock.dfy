/**
 The nested locks of two promotions: once each waits for the other they wait forever, and such
 a state is reachable exactly in clusters of three or more nodes.
 */
module RaftDeadlock {
  import opened Common
  import opened RaftNodes
  import opened RaftCore
  import opened RaftFine
  import opened RaftRuns

  /** Each promotion waits for the other's lock. */
  ghost predicate Deadlocked(s: Cluster, a: Id, b: Id) { WaitsFor(s, a, b) && WaitsFor(s, b, a) }

  /** No step of any node ends the wait. */
  lemma DeadlockIsForever(s: Fine, a: Id, b: Id, step: Step)
    requires Deadlocked(s.c, a, b) && Enabled(s, step)
    ensures Deadlocked(Apply(s, step).c, a, b)
    ensures step != Announce(a, b) && step != Announce(b, a)
  {
    WaitLasts(s, a, b, step);
    WaitLasts(s, b, a, step);
  }

  lemma WaitLasts(s: Fine, a: Id, b: Id, step: Step)
    requires WaitsFor(s.c, a, b) && Enabled(s, step)
    ensures step != Announce(a, b)
    ensures Locked(Apply(s, step).c, a) && b in Apply(s, step).c.pcs[a].pending
  {
    if step.Announce? && step.c == a {
      assert b in s.c.pcs[a].pending - {step.p};
    }
  }

  /** Two nodes can be through with polling at the same time only in a cluster of three or more. */
  lemma TwoFinishedNeedThree(ids: set<Id>, s: Fine, a: Id, b: Id)
    requires Reachable(ids, s) && a != b && Finished(s.c, a) && Finished(s.c, b)
    ensures |ids| >= 3
  {
    if s.c.nodes[a].term <= s.c.nodes[b].term {
      LowerWasMissed(ids, s, a, b);
    } else {
      LowerWasMissed(ids, s, b, a);
    }
  }

  lemma MostOfTwo(ids: set<Id>, missed: set<Id>, a: Id, b: Id)
    requires Most(ids, missed) && a in ids && b in ids && a != b && a in missed
    ensures |ids| >= 3
  {
    SubsetSize({a, b}, ids);
    if |ids| == 2 { SubsetSize(ids - missed, {b}); }
  }

  lemma FinisherMissedFew(s: Cluster, b: Id)
    requires Core(s) && Finished(s, b)
    ensures Most(s.nodes.Keys, Missed(s, b))
  {
    assert ThreadOk(s, b);
    if Winning(s, b) { WinnerMissedFew(s, b); }
  }

  /** The one with the higher term missed the other one, and still had more than half of the cluster. */
  lemma LowerWasMissed(ids: set<Id>, s: Fine, a: Id, b: Id)
    requires Reachable(ids, s) && a != b && Finished(s.c, a) && Finished(s.c, b)
    requires s.c.nodes[a].term <= s.c.nodes[b].term
    ensures |ids| >= 3
  {
    FinishedTogether(ids, s, a, b);
    var steps :| Run(ids, steps, s);
    RunKeepsCore(ids, steps, s);
    FinisherMissedFew(s.c, b);
    MostOfTwo(ids, Missed(s.c, b), a, b);
  }

  // -------------------------------------------------------- reaching it

  ghost function Rest(ids: set<Id>, a: Id, b: Id): set<Id> { ids - {a, b} }

  /** Everybody but `b` is down, and `b` is a candidate for the given term. */
  ghost predicate Alone(s: Cluster, ids: set<Id>, b: Id) {
    && Unlocked(s, ids) && b in ids && s.nodes[b].role == Candidate && !s.nodes[b].crashed && s.nodes[b].log == []
    && (forall n :: n in ids && n != b ==> s.pcs[n] == Idle && s.nodes[n] == CrashBlock(FRESH))
  }

  lemma StandFirst(ok: iset<Cluster>, ids: set<Id>, b: Id) returns (s: Cluster)
    requires Closed(ok) && Init(ids) in ok && b in ids
    ensures s in ok && Alone(s, ids, b) && Stands(s, ids, b, 1, 1, ids - {b})
  {
    var down := CrashAll(ok, ids, Init(ids), ids - {b});
    s := After(down, Stand(b));
  }

  lemma DownSayNo(s: Cluster, ids: set<Id>, b: Id, some: set<Id>)
    requires Alone(s, ids, b) && Standing(s, ids, b) && some <= s.pcs[b].pending && some <= ids - {b}
    ensures AllAnswer(s, ids, b, some, false)
    ensures forall t :: Polled(s, ids, b, some, false, t) ==> Alone(t, ids, b)
  {
  }

  /** The later winner stands alone while all others are crashed, and loses. */
  lemma LoseAlone(ok: iset<Cluster>, ids: set<Id>, b: Id) returns (s: Cluster)
    requires Closed(ok) && Init(ids) in ok && b in ids && |ids| >= 3
    ensures s in ok && Alone(s, ids, b) && s.pcs[b] == Idle && s.nodes[b].term == 1
  {
    var up := StandFirst(ok, ids, b);
    DownSayNo(up, ids, b, ids - {b});
    var t := PollAll(ok, ids, up, b, ids - {b}, false);
    assert t.pcs[b].pending == {} && |t.nodes.Keys| == |t.nodes|;
    s := After(t, Lose(b));
  }

  /** It stands again and finds `a` still crashed. */
  lemma MissOne(ok: iset<Cluster>, ids: set<Id>, a: Id, b: Id) returns (s: Cluster)
    requires Closed(ok) && Init(ids) in ok && a in ids && b in ids && a != b && |ids| >= 3
    ensures s in ok && Alone(s, ids, b) && Stands(s, ids, b, 2, 1, Rest(ids, a, b))
  {
    var alone := LoseAlone(ok, ids, b);
    var again := After(alone, Stand(b));
    DownSayNo(again, ids, b, {a});
    s := PollAll(ok, ids, again, b, {a}, false);
    assert again.pcs[b].pending - {a} == Rest(ids, a, b);
  }

  ghost predicate Fresh(s: Cluster, some: set<Id>) {
    forall n :: n in some ==> n in s.nodes && n in s.pcs && s.nodes[n] == FRESH && s.pcs[n] == Idle
  }

  /** Then everybody recovers, and `a` stands at term 1. */
  lemma StandSecond(ok: iset<Cluster>, ids: set<Id>, a: Id, b: Id) returns (s: Cluster)
    requires Closed(ok) && Init(ids) in ok && a in ids && b in ids && a != b && |ids| >= 3
    ensures s in ok && Stands(s, ids, b, 2, 1, Rest(ids, a, b)) && Stands(s, ids, a, 1, 1, ids - {a})
    ensures Fresh(s, Rest(ids, a, b))
  {
    var missed := MissOne(ok, ids, a, b);
    var t := RecoverAll(ok, ids, missed, ids - {b});
    assert Stands(t, ids, b, 2, 1, Rest(ids, a, b)) && Fresh(t, ids - {b});
    s := After(t, Stand(a));
  }

  /** All but `b` grant `a` their votes at term 1. */
  lemma FirstWinner(ok: iset<Cluster>, ids: set<Id>, a: Id, b: Id) returns (s: Cluster)
    requires Closed(ok) && Init(ids) in ok && a in ids && b in ids && a != b && |ids| >= 3
    ensures s in ok && Stands(s, ids, b, 2, 1, Rest(ids, a, b)) && Stands(s, ids, a, 1, 1 + |Rest(ids, a, b)|, {})
    ensures Voted(s, Rest(ids, a, b), 1)
  {
    var rest := Rest(ids, a, b);
    var t := StandSecond(ok, ids, a, b);
    var u := WillingSayYes(ok, ids, t, a, rest);
    assert ids - {a} - rest == {b};
    s := PollAll(ok, ids, u, a, {b}, false);
  }

  /** And `b` is granted their votes at term 2: both hold winning counts. */
  lemma SecondWinner(ok: iset<Cluster>, ids: set<Id>, a: Id, b: Id) returns (s: Cluster)
    requires Closed(ok) && Init(ids) in ok && a in ids && b in ids && a != b && |ids| >= 3
    ensures s in ok && Unlocked(s, ids) && Winning(s, a) && Winning(s, b)
  {
    var rest := Rest(ids, a, b);
    var t := FirstWinner(ok, ids, a, b);
    s := WillingSayYes(ok, ids, t, b, rest);
    assert ids == rest + {a, b} && |s.nodes.Keys| == |s.nodes|;
    assert Stands(s, ids, a, 1, 1 + |rest|, {}) && Stands(s, ids, b, 2, 1 + |rest|, {});
  }

  /** The clusters of all fine states. */
  ghost predicate FineAt(ids: set<Id>, s: Cluster) { exists calls :: Reachable(ids, Fine(s, calls)) }

  function StepOf(m: Move): Step {
    match m
    case Stand(c) => StartElection(c)
    case Ask(c, p) => PollPeer(c, p)
    case Lose(c) => FinishPolling(c)
    case Down(n) => CrashNode(n)
    case Up(n) => RecoverNode(n)
  }

  lemma MoveIsStep(s: Cluster, calls: multiset<Delivery>, m: Move)
    requires Can(s, m)
    ensures Enabled(Fine(s, calls), StepOf(m)) && Apply(Fine(s, calls), StepOf(m)) == Fine(After(s, m), calls)
  {
  }

  lemma FineIsClosed(ids: set<Id>)
    ensures Closed(iset s | FineAt(ids, s)) && FineAt(ids, Init(ids))
  {
    assert Run(ids, [], InitFine(ids));
    assert Reachable(ids, Fine(Init(ids), multiset{}));
    forall s, m | FineAt(ids, s) && Can(s, m) ensures FineAt(ids, After(s, m)) {
      var calls :| Reachable(ids, Fine(s, calls));
      MoveIsStep(s, calls, m);
      RunExtends(ids, Fine(s, calls), StepOf(m));
    }
  }

  lemma TellOne(s: Fine, c: Id, q: Id, p: Id)
    requires s.c.nodes.Keys == s.c.pcs.Keys && Locked(s.c, c) && q in s.c.pcs[c].pending
    requires p in s.c.pcs[c].pending && p != q && Free(s.c, p)
    ensures Enabled(s, Announce(c, p))
    ensures var t := Apply(s, Announce(c, p));
      && t.c.nodes.Keys == s.c.nodes.Keys && Locked(t.c, c)
      && t.c.pcs == s.c.pcs[c := Announcing(s.c.pcs[c].pending - {p}, s.c.pcs[c].missed)]
  {
    assert q in s.c.pcs[c].pending - {p};
  }

  /** The promotion loop of `c` makes its calls to some peers, not to the one peer `q`. */
  lemma {:induction false} TellAll(ids: set<Id>, s: Fine, c: Id, q: Id, some: set<Id>) returns (t: Fine)
    requires Reachable(ids, s) && s.c.nodes.Keys == s.c.pcs.Keys == ids
    requires Locked(s.c, c) && q in s.c.pcs[c].pending && some <= s.c.pcs[c].pending - {q}
    requires forall p :: p in some ==> Free(s.c, p)
    ensures Reachable(ids, t) && t.c.nodes.Keys == t.c.pcs.Keys == ids
    ensures Locked(t.c, c) && t.c.pcs[c].pending == s.c.pcs[c].pending - some
    ensures forall n :: n in ids && n != c ==> t.c.pcs[n] == s.c.pcs[n]
    decreases |some|
  {
    if some == {} {
      t := s;
    } else {
      var p := Pick(some);
      TellOne(s, c, q, p);
      RunExtends(ids, s, Announce(c, p));
      t := TellAll(ids, Apply(s, Announce(c, p)), c, q, some - {p});
      assert s.c.pcs[c].pending - {p} - (some - {p}) == s.c.pcs[c].pending - some;
    }
  }

  /** Both winners are promoted. */
  lemma BothPromoted(ids: set<Id>, s: Fine, a: Id, b: Id) returns (t: Fine)
    requires Reachable(ids, s) && Unlocked(s.c, ids) && a != b && Winning(s.c, a) && Winning(s.c, b)
    ensures Reachable(ids, t) && t.c.nodes.Keys == t.c.pcs.Keys == ids && a in ids && b in ids
    ensures Locked(t.c, a) && Locked(t.c, b) && t.c.pcs[a].pending == ids - {a} && t.c.pcs[b].pending == ids - {b}
    ensures forall n :: n in Rest(ids, a, b) ==> Free(t.c, n)
  {
    assert a in ids - {b} && b in ids - {a};
    RunExtends(ids, s, FinishPolling(a));
    var u := Apply(s, FinishPolling(a));
    assert Winning(u.c, b) by { assert |u.c.nodes.Keys| == |u.c.nodes| && |s.c.nodes.Keys| == |s.c.nodes|; }
    RunExtends(ids, u, FinishPolling(b));
    t := Apply(u, FinishPolling(b));
  }

  /** Neither promotion can make any of its next calls. */
  ghost predicate Stuck(s: Fine, a: Id, b: Id) {
    Deadlocked(s.c, a, b) && forall p :: !Enabled(s, Announce(a, p)) && !Enabled(s, Announce(b, p))
  }

  lemma WaitingIsStuck(ids: set<Id>, s: Fine, a: Id, b: Id)
    requires Locked(s.c, a) && Locked(s.c, b) && s.c.pcs[a].pending == {b} && s.c.pcs[b].pending == {a}
    ensures Stuck(s, a, b)
  {
  }

  /** The other nodes are told by both, and only the two calls to each other are left. */
  lemma LastCallsWait(ids: set<Id>, s: Fine, a: Id, b: Id) returns (t: Fine)
    requires Reachable(ids, s) && s.c.nodes.Keys == s.c.pcs.Keys == ids && a in ids && b in ids && a != b
    requires Locked(s.c, a) && Locked(s.c, b) && s.c.pcs[a].pending == ids - {a} && s.c.pcs[b].pending == ids - {b}
    requires forall n :: n in Rest(ids, a, b) ==> Free(s.c, n)
    ensures Reachable(ids, t) && Stuck(t, a, b)
  {
    var rest := Rest(ids, a, b);
    var u := TellAll(ids, s, a, b, rest);
    t := TellAll(ids, u, b, a, rest);
    assert ids - {a} - rest == {b} && ids - {b} - rest == {a};
    WaitingIsStuck(ids, t, a, b);
  }

  lemma DeadlockReached(ids: set<Id>, a: Id, b: Id) returns (s: Fine)
    requires a in ids && b in ids && a != b && |ids| >= 3
    ensures Reachable(ids, s) && Stuck(s, a, b)
  {
    FineIsClosed(ids);
    var won := SecondWinner((iset c | FineAt(ids, c)), ids, a, b);
    var calls :| Reachable(ids, Fine(won, calls));
    var t := BothPromoted(ids, Fine(won, calls), a, b);
    s := LastCallsWait(ids, t, a, b);
  }

  /** Two given promotions can deadlock exactly if the cluster has three or more nodes. */
  lemma DeadlockIff(ids: set<Id>, a: Id, b: Id)
    requires a in ids && b in ids && a != b
    ensures (exists s :: Reachable(ids, s) && Deadlocked(s.c, a, b)) <==> |ids| >= 3
    ensures (exists s :: Reachable(ids, s) && Stuck(s, a, b)) <==> |ids| >= 3
  {
    if |ids| >= 3 {
      var s := DeadlockReached(ids, a, b);
    }
    if s :| Reachable(ids, s) && Deadlocked(s.c, a, b) {
      TwoFinishedNeedThree(ids, s, a, b);
    }
  }
}

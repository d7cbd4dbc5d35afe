/**
 What the coarse cluster guarantees under any crashes and recoveries: one leader at a
 time, with rising terms; logs that are subsequences of the accepted history; and
 exactly when a new leader holds the whole history.
 */
module RaftSafety {
  import opened Common
  import opened RaftNodes
  import opened RaftCore
  import opened RaftCoarse
  import opened Subsequences

  // -------------------------------------------------------- one leader

  /** A candidate whose election can still succeed. */
  ghost predicate Running(s: Cluster, c: Id) {
    At(s, c) && s.pcs[c].Polling? && s.nodes[c].role == Candidate
  }

  ghost function Last(s: Cluster): Win
    requires s.elected != []
  {
    s.elected[|s.elected| - 1]
  }

  /** No running candidate at or below the last elected term has a vote from the majority that elected it. */
  ghost predicate OldTermsShut(s: Cluster) {
    s.elected != [] ==>
      forall c, v :: Running(s, c) && s.pcs[c].term <= Last(s).term && v in s.pcs[c].voters
        ==> !Backs(s, v, Last(s).term, Last(s).id)
  }

  ghost predicate CrashedFollow(s: Cluster) {
    forall n :: n in s.nodes && s.nodes[n].crashed ==> s.nodes[n].role == Follower
  }

  ghost predicate OnlyLastLeads(s: Cluster) {
    forall n :: n in s.nodes && s.nodes[n].role == Leader ==> s.elected != [] && Last(s) == Win(s.nodes[n].term, n)
  }

  ghost predicate TermsRise(s: Cluster) {
    forall i, j :: 0 <= i < j < |s.elected| ==> s.elected[i].term < s.elected[j].term
  }

  ghost predicate LeaderInv(s: Cluster) {
    CrashedFollow(s) && OnlyLastLeads(s) && TermsRise(s) && OldTermsShut(s)
  }

  /** A step that only quietens nodes, and touches neither votes nor polling. */
  ghost predicate Quietens(s: Cluster, t: Cluster) {
    && t.nodes.Keys == s.nodes.Keys && t.pcs.Keys == s.pcs.Keys
    && t.ballots == s.ballots && t.elected == s.elected && s.faulty <= t.faulty
    && (forall n :: n in s.nodes ==> Calm(s.nodes[n], t.nodes[n]))
    && (forall n :: n in s.nodes && t.nodes[n].crashed ==> s.nodes[n].crashed || t.nodes[n].role == Follower)
    && (forall n :: n in s.pcs && t.pcs[n].Polling? ==> t.pcs[n] == s.pcs[n])
  }

  ghost predicate KeepsLogs(s: Cluster, t: Cluster)
    requires t.nodes.Keys == s.nodes.Keys
  {
    forall n :: n in s.nodes ==> t.nodes[n].log == s.nodes[n].log && t.nodes[n].commitIndex == s.nodes[n].commitIndex
  }

  predicate IsQuiet(a: Step) { a.SendHeartbeats? || a.BeatPeer? || a.CrashNode? || a.RecoverNode? }

  lemma QuietSteps(s: Coarse, a: Step)
    requires Enabled(s, a) && IsQuiet(a)
    ensures Quietens(s.c, Apply(s, a).c) && KeepsLogs(s.c, Apply(s, a).c) && Apply(s, a).history == s.history
  {
  }

  lemma AppendQuietens(s: Coarse, n: Id, command: string)
    requires LeadsAlive(s.c, n)
    ensures Quietens(s.c, Append(s, n, command).c)
  {
  }

  lemma FailedFinishQuietens(s: Cluster, c: Id)
    requires DonePolling(s, c) && !Winning(s, c)
    ensures Quietens(s, Finish(s, c))
  {
  }

  lemma QuietKeepsLeaderInv(s: Cluster, t: Cluster)
    requires LeaderInv(s) && Quietens(s, t)
    ensures LeaderInv(t)
  {
    if t.elected != [] {
      forall c, v | Running(t, c) && t.pcs[c].term <= Last(t).term && v in t.pcs[c].voters
        ensures !Backs(t, v, Last(t).term, Last(t).id)
      {
        assert Running(s, c) && v in s.pcs[c].voters && Last(s) == Last(t);
        assert !Backs(s, v, Last(s).term, Last(s).id);
      }
    }
  }

  /** A candidate's vote for itself is no vote for an elected node in its term. */
  lemma StartBackedBefore(s: Cluster, c: Id, w: Win, v: Id)
    requires At(s, c) && w.id in s.nodes && w.term <= s.nodes[w.id].term && Backs(Start(s, c), v, w.term, w.id)
    ensures Backs(s, v, w.term, w.id)
  {
  }

  lemma StartedIsNewer(s: Cluster, c: Id, d: Id, v: Id)
    requires Core(s) && OldTermsShut(s) && At(s, c) && s.elected != []
    requires var t := Start(s, c); Running(t, d) && t.pcs[d].term <= Last(s).term && v in t.pcs[d].voters
    ensures !Backs(s, v, Last(s).term, Last(s).id)
  {
    var w := Last(s);
    assert w in s.elected;
    if d == c {
      assert v == c && s.nodes[c].term < w.term;
      assert BallotsOk(s);
    } else {
      assert Running(s, d);
    }
  }

  lemma StartKeepsShut(s: Cluster, c: Id)
    requires Core(s) && OldTermsShut(s) && At(s, c)
    ensures OldTermsShut(Start(s, c))
  {
    var t := Start(s, c);
    if s.elected != [] {
      var w := Last(s);
      assert w in s.elected;
      forall d, v | Running(t, d) && t.pcs[d].term <= w.term && v in t.pcs[d].voters
        ensures !Backs(t, v, w.term, w.id)
      {
        StartedIsNewer(s, c, d, v);
        if Backs(t, v, w.term, w.id) { StartBackedBefore(s, c, w, v); }
      }
    }
  }

  lemma StartKeepsLeaderInv(s: Cluster, c: Id)
    requires Core(s) && LeaderInv(s) && At(s, c) && s.pcs[c].Idle? && !s.nodes[c].crashed
    ensures LeaderInv(Start(s, c))
  {
    StartKeepsShut(s, c);
  }

  /** A node of the last majority refuses every other candidate at or below its term. */
  lemma MajorityRefuses(s: Cluster, c: Id, p: Id)
    requires Core(s) && CanPoll(s, c, p) && s.elected != [] && s.pcs[c].term <= Last(s).term
    requires Backs(s, p, Last(s).term, Last(s).id)
    ensures Poll(s, c, p).pcs[c].voters == s.pcs[c].voters
  {
    assert ThreadOk(s, c) && PollingOk(s, c);
    assert Last(s) in s.elected;
  }

  /** A vote given now is no vote for an elected node in its term. */
  lemma BackedBefore(s: Cluster, c: Id, p: Id, w: Win, v: Id)
    requires CanPoll(s, c, p) && PollingOk(s, c) && w in s.elected && Backs(Poll(s, c, p), v, w.term, w.id)
    ensures Backs(s, v, w.term, w.id)
  {
  }

  /** The candidate that polls gets no vote from the last majority for an older term. */
  lemma PollerStaysShut(s: Cluster, c: Id, p: Id, v: Id)
    requires Core(s) && OldTermsShut(s) && CanPoll(s, c, p) && s.elected != []
    requires var t := Poll(s, c, p); Running(t, c) && t.pcs[c].term <= Last(s).term && v in t.pcs[c].voters
    ensures !Backs(s, v, Last(s).term, Last(s).id)
  {
    assert Running(s, c);
    if v !in s.pcs[c].voters && Backs(s, v, Last(s).term, Last(s).id) { MajorityRefuses(s, c, p); }
  }

  lemma OtherRunning(s: Cluster, c: Id, p: Id, d: Id)
    requires CanPoll(s, c, p) && Running(Poll(s, c, p), d)
    ensures Running(s, d) && (d != c ==> Poll(s, c, p).pcs[d] == s.pcs[d])
  {
  }

  lemma PollKeepsShut(s: Cluster, c: Id, p: Id)
    requires Core(s) && OldTermsShut(s) && CanPoll(s, c, p)
    ensures OldTermsShut(Poll(s, c, p))
  {
    var t := Poll(s, c, p);
    assert ThreadOk(s, c);
    if s.elected != [] {
      var w := Last(s);
      forall d, v | Running(t, d) && t.pcs[d].term <= w.term && v in t.pcs[d].voters
        ensures !Backs(t, v, w.term, w.id)
      {
        OtherRunning(s, c, p, d);
        if Backs(t, v, w.term, w.id) {
          BackedBefore(s, c, p, w, v);
          if d == c { PollerStaysShut(s, c, p, v); }
        }
      }
    }
  }

  lemma PollKeepsLeaderInv(s: Cluster, c: Id, p: Id)
    requires Core(s) && LeaderInv(s) && CanPoll(s, c, p)
    ensures LeaderInv(Poll(s, c, p))
  {
    PollKeepsShut(s, c, p);
    assert ThreadOk(s, c);
  }

  /** The heart of the argument: a winner's majority meets the last one, so its term is newer. */
  lemma WinnerIsNewer(s: Cluster, c: Id)
    requires Core(s) && LeaderInv(s) && Winning(s, c) && s.elected != []
    ensures Last(s).term < s.nodes[c].term
  {
    assert ThreadOk(s, c) && PollingOk(s, c);
    var w := Last(s);
    assert w in s.elected;
    assert |s.nodes.Keys| == |s.nodes|;
    MajoritiesMeet(s.pcs[c].voters, Backers(s, w.term, w.id), s.nodes.Keys);
  }

  /** The calls of a promotion leave no other leader and no candidate at or below the new term. */
  lemma PromotionQuietens(s: Cluster, c: Id, d: Id)
    requires Core(s) && LeaderInv(s) && Winning(s, c) && d in s.nodes && d != c
    requires s.elected != [] ==> Last(s).term < s.nodes[c].term
    ensures var t := Finish(s, c);
      t.nodes[d].role != Leader && (Running(t, d) ==> t.pcs[d].term > s.nodes[c].term)
  {
    assert ThreadOk(s, d);
  }

  lemma PromotionIsLast(s: Cluster, c: Id)
    requires Winning(s, c)
    ensures var t := Finish(s, c);
      && t.elected == s.elected + [Win(s.nodes[c].term, c)] && Last(t) == Win(s.nodes[c].term, c)
      && t.nodes.Keys == s.nodes.Keys && t.nodes[c] == PromoteBlock(s.nodes[c], c) && t.ballots == s.ballots
      && t.pcs == s.pcs[c := Idle]
      && forall n :: n in t.nodes && t.nodes[n].crashed ==> s.nodes[n].crashed || n == c
  {
  }

  lemma PromotionKeepsTerms(s: Cluster, c: Id)
    requires TermsRise(s) && Winning(s, c) && (s.elected != [] ==> Last(s).term < s.nodes[c].term)
    ensures TermsRise(Finish(s, c))
  {
    PromotionIsLast(s, c);
  }

  lemma PromotionKeepsCrashed(s: Cluster, c: Id)
    requires CrashedFollow(s) && Winning(s, c)
    ensures CrashedFollow(Finish(s, c))
  {
  }

  lemma PromotionKeepsLeaderInv(s: Cluster, c: Id)
    requires Core(s) && LeaderInv(s) && Winning(s, c)
    ensures LeaderInv(Finish(s, c))
  {
    var t := Finish(s, c);
    if s.elected != [] { WinnerIsNewer(s, c); }
    PromotionIsLast(s, c);
    PromotionKeepsTerms(s, c);
    PromotionKeepsCrashed(s, c);
    forall d | d in t.nodes && d != c
      ensures t.nodes[d].role != Leader && (Running(t, d) ==> t.pcs[d].term > Last(t).term)
    {
      PromotionQuietens(s, c, d);
    }
  }

  lemma FinishKeepsLeaderInv(s: Cluster, c: Id)
    requires Core(s) && LeaderInv(s) && DonePolling(s, c)
    ensures LeaderInv(Finish(s, c))
  {
    if Winning(s, c) {
      PromotionKeepsLeaderInv(s, c);
    } else {
      FailedFinishQuietens(s, c);
      QuietKeepsLeaderInv(s, Finish(s, c));
    }
  }

  lemma StepKeepsLeaderInv(s: Coarse, a: Step)
    requires Core(s.c) && LeaderInv(s.c) && Enabled(s, a)
    ensures LeaderInv(Apply(s, a).c)
  {
    if IsQuiet(a) {
      QuietSteps(s, a);
      QuietKeepsLeaderInv(s.c, Apply(s, a).c);
    } else {
      match a
      case StartElection(c) => StartKeepsLeaderInv(s.c, c);
      case PollPeer(c, p) => PollKeepsLeaderInv(s.c, c, p);
      case FinishPolling(c) => FinishKeepsLeaderInv(s.c, c);
      case AppendLog(n, command) =>
        AppendQuietens(s, n, command);
        QuietKeepsLeaderInv(s.c, Append(s, n, command).c);
      case _ => assert false;
    }
  }

  lemma {:induction false} RunKeepsLeaderInv(ids: set<Id>, steps: seq<Step>, s: Coarse)
    requires Run(ids, steps, s)
    ensures LeaderInv(s.c)
    decreases |steps|
  {
    if steps != [] {
      var k := |steps| - 1;
      var r :| Run(ids, steps[..k], r) && Enabled(r, steps[k]) && s == Apply(r, steps[k]);
      RunKeepsLeaderInv(ids, steps[..k], r);
      CoreOfRun(ids, steps[..k], r);
      StepKeepsLeaderInv(r, steps[k]);
    }
  }

  /** At every moment at most one node of the whole cluster leads, and promotions have rising terms. */
  lemma AtMostOneLeader(ids: set<Id>, s: Coarse, a: Id, b: Id)
    requires Reachable(ids, s)
    ensures TermsRise(s.c)
    ensures a in s.c.nodes && b in s.c.nodes && s.c.nodes[a].role == Leader && s.c.nodes[b].role == Leader ==> a == b
  {
    var steps :| Run(ids, steps, s);
    RunKeepsLeaderInv(ids, steps, s);
  }

  // -------------------------------------------------------- logs and the accepted history

  ghost predicate HistoryOk(s: Coarse) {
    && (forall i, j :: 0 <= i < j < |s.history| ==> s.history[i].term <= s.history[j].term)
    && (forall i :: 0 <= i < |s.history| ==> s.c.elected != [] && s.history[i].term <= Last(s.c).term)
  }

  ghost predicate LogOk(s: Coarse, n: Id)
    requires n in s.c.nodes
  {
    && Subsequence(s.c.nodes[n].log, s.history)
    && s.c.nodes[n].commitIndex == |s.c.nodes[n].log| - 1
    && (n !in s.c.faulty ==> s.c.nodes[n].log == s.history)
  }

  /** The node has missed no accepted entry. */
  ghost predicate Complete(s: Coarse, n: Id) { n in s.c.nodes && s.c.nodes[n].log == s.history }

  /** If any voter of a running candidate has missed nothing, neither has the candidate. */
  ghost predicate VotersKnowNoMore(s: Coarse) {
    forall c, v :: Running(s.c, c) && v in s.c.pcs[c].voters && Complete(s, v) ==> Complete(s, c)
  }

  ghost predicate LogInv(s: Coarse) {
    HistoryOk(s) && (forall n :: n in s.c.nodes ==> LogOk(s, n)) && VotersKnowNoMore(s)
  }

  /** Steps that touch no log, and count no vote, keep the log invariant. */
  lemma QuietKeepsLogInv(s: Coarse, t: Coarse)
    requires LogInv(s) && t.history == s.history && s.c.elected <= t.c.elected && TermsRise(t.c)
    requires t.c.nodes.Keys == s.c.nodes.Keys && s.c.faulty <= t.c.faulty && KeepsLogs(s.c, t.c)
    requires forall c :: Running(t.c, c) ==>
      t.c.pcs[c].voters == {c} || (Running(s.c, c) && t.c.pcs[c].voters == s.c.pcs[c].voters)
    ensures LogInv(t)
  {
    if s.c.elected != [] {
      var i := |s.c.elected| - 1;
      assert t.c.elected[i] == Last(s.c);
      assert Last(s.c).term <= Last(t.c).term;
    }
    forall n | n in t.c.nodes ensures LogOk(t, n) { assert LogOk(s, n); }
    forall c, v | Running(t.c, c) && v in t.c.pcs[c].voters && Complete(t, v) ensures Complete(t, c) {
      assert Complete(s, v);
    }
  }

  lemma PollKeepsLogs(s: Cluster, c: Id, p: Id)
    requires CanPoll(s, c, p)
    ensures Poll(s, c, p).nodes.Keys == s.nodes.Keys && KeepsLogs(s, Poll(s, c, p))
  {
  }

  /** A voter that had missed nothing granted its vote to no candidate that had. */
  lemma NewVoterKnowsNoMore(s: Coarse, c: Id, p: Id)
    requires CanPoll(s.c, c, p) && PollingOk(s.c, c) && LogOk(s, c) && Complete(s, p)
    requires p in Poll(s.c, c, p).pcs[c].voters && p !in s.c.pcs[c].voters
    ensures Complete(s, c)
  {
    SubsequenceLength(s.c.nodes[c].log, s.history);
  }

  lemma PollKeepsVoters(s: Coarse, c: Id, p: Id, d: Id, v: Id)
    requires CanPoll(s.c, c, p) && PollingOk(s.c, c) && LogOk(s, c) && VotersKnowNoMore(s)
    requires var t := Poll(s.c, c, p); Running(t, d) && v in t.pcs[d].voters && Complete(s, v)
    ensures Complete(s, d)
  {
    OtherRunning(s.c, c, p, d);
    if v !in s.c.pcs[d].voters {
      assert d == c && v == p;
      NewVoterKnowsNoMore(s, c, p);
    }
  }

  lemma PollKeepsLogInv(s: Coarse, c: Id, p: Id)
    requires Core(s.c) && LogInv(s) && CanPoll(s.c, c, p)
    ensures LogInv(s.(c := Poll(s.c, c, p)))
  {
    var t := s.(c := Poll(s.c, c, p));
    assert ThreadOk(s.c, c);
    PollKeepsLogs(s.c, c, p);
    forall n | n in t.c.nodes ensures LogOk(t, n) { assert LogOk(s, n); }
    forall d, v | Running(t.c, d) && v in t.c.pcs[d].voters && Complete(t, v) ensures Complete(t, d) {
      assert Complete(s, v);
      PollKeepsVoters(s, c, p, d, v);
    }
  }

  lemma AppendLogs(s: Coarse, n: Id, command: string, m: Id)
    requires At(s.c, n) && m in s.c.nodes && !s.c.nodes[n].crashed
    ensures var t, e := Append(s, n, command), Entry(s.c.nodes[n].term, command);
      && t.c.nodes.Keys == s.c.nodes.Keys
      && t.c.nodes[m].role == s.c.nodes[m].role && t.c.nodes[m].term == s.c.nodes[m].term
      && t.c.nodes[m].crashed == s.c.nodes[m].crashed
      && (if s.c.nodes[m].crashed then t.c.nodes[m] == s.c.nodes[m]
          else t.c.nodes[m].log == s.c.nodes[m].log + [e] && t.c.nodes[m].commitIndex == |s.c.nodes[m].log|)
  {
  }

  lemma AppendKeepsLog(s: Coarse, n: Id, command: string, m: Id)
    requires Core(s.c) && LogInv(s) && LeadsAlive(s.c, n) && m in s.c.nodes
    ensures var t := Append(s, n, command);
      LogOk(t, m) && (Complete(t, m) <==> Complete(s, m) && !s.c.nodes[m].crashed)
  {
    var t, e := Append(s, n, command), Entry(s.c.nodes[n].term, command);
    AppendLogs(s, n, command, m);
    assert LogOk(s, m);
    SubsequenceLength(s.c.nodes[m].log, s.history);
    SubsequenceGrows(s.c.nodes[m].log, s.history, e);
    if !s.c.nodes[m].crashed && Complete(t, m) {
      assert t.c.nodes[m].log[..|s.history|] == s.history;
    }
  }

  lemma AppendKeepsHistory(s: Coarse, n: Id, command: string)
    requires HistoryOk(s) && OnlyLastLeads(s.c) && LeadsAlive(s.c, n)
    ensures HistoryOk(Append(s, n, command))
  {
  }

  lemma AppendKeepsVoters(s: Coarse, n: Id, command: string, c: Id, v: Id)
    requires Core(s.c) && LogInv(s) && CrashedFollow(s.c) && LeadsAlive(s.c, n)
    requires var t := Append(s, n, command); Running(t.c, c) && v in t.c.pcs[c].voters && Complete(t, v)
    ensures Complete(Append(s, n, command), c)
  {
    AppendLogs(s, n, command, c);
    assert ThreadOk(s.c, c);
    AppendKeepsLog(s, n, command, v);
    AppendKeepsLog(s, n, command, c);
    assert Running(s.c, c);
  }

  lemma AppendKeepsLogInv(s: Coarse, n: Id, command: string)
    requires Core(s.c) && LeaderInv(s.c) && LogInv(s) && LeadsAlive(s.c, n)
    ensures LogInv(Append(s, n, command))
  {
    var t := Append(s, n, command);
    AppendKeepsHistory(s, n, command);
    forall m | m in t.c.nodes ensures LogOk(t, m) { AppendKeepsLog(s, n, command, m); }
    forall c, v | Running(t.c, c) && v in t.c.pcs[c].voters && Complete(t, v) ensures Complete(t, c) {
      AppendKeepsVoters(s, n, command, c, v);
    }
  }

  lemma FinishKeepsLogInv(s: Coarse, c: Id)
    requires LogInv(s) && DonePolling(s.c, c) && s.c.nodes.Keys == s.c.pcs.Keys && TermsRise(Finish(s.c, c))
    ensures LogInv(s.(c := Finish(s.c, c)))
  {
    QuietKeepsLogInv(s, s.(c := Finish(s.c, c)));
  }

  lemma QuietStepKeepsLogInv(s: Coarse, a: Step)
    requires LogInv(s) && Enabled(s, a) && IsQuiet(a) && TermsRise(Apply(s, a).c)
    ensures LogInv(Apply(s, a))
  {
    QuietSteps(s, a);
    QuietKeepsLogInv(s, Apply(s, a));
  }

  lemma StartKeepsLogInv(s: Coarse, c: Id)
    requires LogInv(s) && At(s.c, c) && TermsRise(s.c)
    ensures LogInv(s.(c := Start(s.c, c)))
  {
    QuietKeepsLogInv(s, s.(c := Start(s.c, c)));
  }

  lemma StepKeepsLogInv(s: Coarse, a: Step)
    requires Core(s.c) && LeaderInv(s.c) && LogInv(s) && Enabled(s, a) && TermsRise(Apply(s, a).c)
    ensures LogInv(Apply(s, a))
  {
    if IsQuiet(a) {
      QuietStepKeepsLogInv(s, a);
    } else {
      match a
      case PollPeer(c, p) => PollKeepsLogInv(s, c, p);
      case AppendLog(n, command) => AppendKeepsLogInv(s, n, command);
      case FinishPolling(c) => FinishKeepsLogInv(s, c);
      case StartElection(c) => StartKeepsLogInv(s, c);
      case _ => assert false;
    }
  }

  lemma {:induction false} RunKeepsLogInv(ids: set<Id>, steps: seq<Step>, s: Coarse)
    requires Run(ids, steps, s)
    ensures LogInv(s)
    decreases |steps|
  {
    if steps != [] {
      var k := |steps| - 1;
      var r :| Run(ids, steps[..k], r) && Enabled(r, steps[k]) && s == Apply(r, steps[k]);
      RunKeepsLogInv(ids, steps[..k], r);
      CoreOfRun(ids, steps[..k], r);
      RunKeepsLeaderInv(ids, steps[..k], r);
      StepKeepsLeaderInv(r, steps[k]);
      StepKeepsLogInv(r, steps[k]);
    }
  }

  /**
   Every log is a subsequence of the one accepted history, with non-decreasing terms;
   a node that has never crashed holds exactly the history.
   */
  lemma LogsFollowHistory(ids: set<Id>, s: Coarse, n: Id)
    requires Reachable(ids, s) && n in ids
    ensures n in s.c.nodes && LogOk(s, n)
    ensures forall i, j :: 0 <= i < j < |s.c.nodes[n].log| ==> s.c.nodes[n].log[i].term <= s.c.nodes[n].log[j].term
  {
    var steps :| Run(ids, steps, s);
    CoreOfRun(ids, steps, s);
    RunKeepsLogInv(ids, steps, s);
    var log := s.c.nodes[n].log;
    forall i, j | 0 <= i < j < |log| ensures log[i].term <= log[j].term {
      var p, q := SubsequencePositions(log, s.history, i, j);
    }
  }

  // -------------------------------------------------------- leader completeness

  /**
   Leader Completeness, exactly: a winning candidate becomes the leader, and its log is
   the whole accepted history if and only if one of its voters has missed nothing.
   */
  lemma LeaderCompleteIff(ids: set<Id>, s: Coarse, c: Id)
    requires Reachable(ids, s) && Winning(s.c, c)
    ensures var t := Apply(s, FinishPolling(c));
      && t.c.nodes[c].role == Leader && t.history == s.history
      && (Complete(t, c) <==> exists v :: v in s.c.pcs[c].voters && Complete(s, v))
  {
    var steps :| Run(ids, steps, s);
    CoreOfRun(ids, steps, s);
    RunKeepsLogInv(ids, steps, s);
    assert ThreadOk(s.c, c) && PollingOk(s.c, c);
    assert Running(s.c, c);
    if Complete(s, c) { assert c in s.c.pcs[c].voters; }
  }

  /** While a strict majority has missed no accepted entry, a new leader holds all of them. */
  lemma LeaderCompleteness(ids: set<Id>, s: Coarse, c: Id)
    requires Reachable(ids, s) && Winning(s.c, c)
    requires 2 * |set n | n in s.c.nodes && Complete(s, n)| > |ids|
    ensures var t := Apply(s, FinishPolling(c)); t.c.nodes[c].role == Leader && t.c.nodes[c].log == t.history
  {
    var steps :| Run(ids, steps, s);
    CoreOfRun(ids, steps, s);
    assert ThreadOk(s.c, c) && PollingOk(s.c, c);
    assert |s.c.nodes.Keys| == |s.c.nodes|;
    var complete := set n | n in s.c.nodes && Complete(s, n);
    MajoritiesMeet(s.c.pcs[c].voters, complete, s.c.nodes.Keys);
    var v :| v in s.c.pcs[c].voters && v in complete;
    LeaderCompleteIff(ids, s, c);
  }
}

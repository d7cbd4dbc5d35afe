/**
 How far leader completeness goes on its own: a leader without an accepted entry can be
 elected exactly in clusters of three or more nodes. RaftSafety has the condition state by state.
 */
module RaftIncomplete {
  import opened Common
  import opened RaftNodes
  import opened RaftCore
  import opened RaftCoarse
  import opened RaftSafety
  import opened RaftRuns

  /** The winner `c` is about to lead without some accepted entry. */
  ghost predicate WinsIncomplete(s: Coarse, c: Id) {
    Winning(s.c, c) && !Complete(Apply(s, FinishPolling(c)), c)
  }

  // -------------------------------------------------------- one or two nodes

  ghost predicate LeadersComplete(s: Coarse) {
    forall n :: n in s.c.nodes && s.c.nodes[n].role == Leader ==> Complete(s, n)
  }

  ghost predicate SomeComplete(s: Coarse) { exists n :: Complete(s, n) }

  /** In a cluster of one or two nodes a winner has everybody's vote. */
  lemma SmallWinner(s: Cluster, c: Id)
    requires Core(s) && Winning(s, c) && |s.nodes.Keys| <= 2
    ensures s.pcs[c].voters == s.nodes.Keys
  {
    assert ThreadOk(s, c) && PollingOk(s, c);
    assert |s.nodes.Keys| == |s.nodes|;
    SubsetSize({c}, s.nodes.Keys);
    SubsetSize(s.pcs[c].voters, s.nodes.Keys);
  }

  lemma SmallWinnerComplete(ids: set<Id>, s: Coarse, c: Id)
    requires Reachable(ids, s) && |ids| <= 2 && SomeComplete(s) && Winning(s.c, c)
    ensures Complete(Apply(s, FinishPolling(c)), c)
  {
    var steps :| Run(ids, steps, s);
    CoreOfRun(ids, steps, s);
    SmallWinner(s.c, c);
    LeaderCompleteIff(ids, s, c);
  }

  lemma FinishKeepsLogs(s: Coarse, c: Id)
    requires DonePolling(s.c, c)
    ensures var t := Apply(s, FinishPolling(c));
      && t.history == s.history && t.c.nodes.Keys == s.c.nodes.Keys && KeepsLogs(s.c, t.c)
      && forall n :: n in t.c.nodes && n != c && t.c.nodes[n].role == Leader ==> s.c.nodes[n].role == Leader
  {
  }

  lemma SmallFinish(ids: set<Id>, s: Coarse, c: Id)
    requires Reachable(ids, s) && |ids| <= 2 && DonePolling(s.c, c) && LeadersComplete(s) && SomeComplete(s)
    ensures LeadersComplete(Apply(s, FinishPolling(c))) && SomeComplete(Apply(s, FinishPolling(c)))
  {
    var t := Apply(s, FinishPolling(c));
    FinishKeepsLogs(s, c);
    var n :| Complete(s, n);
    assert Complete(t, n);
    if Winning(s.c, c) { SmallWinnerComplete(ids, s, c); }
    forall m | m in t.c.nodes && t.c.nodes[m].role == Leader ensures Complete(t, m) {
      if m != c { assert Complete(s, m); }
    }
  }

  lemma SmallAppend(s: Coarse, n: Id, command: string)
    requires Core(s.c) && LeaderInv(s.c) && LogInv(s) && LeadsAlive(s.c, n) && LeadersComplete(s)
    ensures LeadersComplete(Append(s, n, command)) && SomeComplete(Append(s, n, command))
  {
    var t := Append(s, n, command);
    AppendKeepsLog(s, n, command, n);
    assert Complete(s, n) && Complete(t, n);
    forall m | m in t.c.nodes && t.c.nodes[m].role == Leader ensures Complete(t, m) {
      AppendLogs(s, n, command, m);
      AppendKeepsLog(s, n, command, m);
      assert Complete(s, m);
    }
  }

  /** Steps that leave logs and history alone and make nobody leader. */
  lemma SmallQuiet(s: Coarse, t: Coarse)
    requires LeadersComplete(s) && SomeComplete(s) && t.history == s.history
    requires t.c.nodes.Keys == s.c.nodes.Keys && KeepsLogs(s.c, t.c)
    requires forall n :: n in t.c.nodes && t.c.nodes[n].role == Leader ==> s.c.nodes[n].role == Leader
    ensures LeadersComplete(t) && SomeComplete(t)
  {
    var n :| Complete(s, n);
    assert Complete(t, n);
    forall m | m in t.c.nodes && t.c.nodes[m].role == Leader ensures Complete(t, m) { assert Complete(s, m); }
  }

  lemma StandAndPollAreQuiet(s: Coarse, a: Step)
    requires Enabled(s, a) && (a.StartElection? || a.PollPeer?)
    ensures var t := Apply(s, a);
      && t.history == s.history && t.c.nodes.Keys == s.c.nodes.Keys && KeepsLogs(s.c, t.c)
      && forall n :: n in t.c.nodes && t.c.nodes[n].role == Leader ==> s.c.nodes[n].role == Leader
  {
  }

  lemma SmallStep(ids: set<Id>, steps: seq<Step>, s: Coarse, a: Step)
    requires Run(ids, steps, s) && |ids| <= 2 && Enabled(s, a) && LeadersComplete(s) && SomeComplete(s)
    ensures LeadersComplete(Apply(s, a)) && SomeComplete(Apply(s, a))
  {
    if IsQuiet(a) {
      QuietSteps(s, a);
      SmallQuiet(s, Apply(s, a));
    } else if a.FinishPolling? {
      SmallFinish(ids, s, a.c);
    } else if a.AppendLog? {
      CoreOfRun(ids, steps, s);
      RunKeepsLeaderInv(ids, steps, s);
      RunKeepsLogInv(ids, steps, s);
      SmallAppend(s, a.n, a.command);
    } else {
      StandAndPollAreQuiet(s, a);
      SmallQuiet(s, Apply(s, a));
    }
  }

  lemma {:induction false} SmallRun(ids: set<Id>, steps: seq<Step>, s: Coarse)
    requires Run(ids, steps, s) && 0 < |ids| <= 2
    ensures LeadersComplete(s) && SomeComplete(s)
    decreases |steps|
  {
    if steps == [] {
      var n := Pick(ids);
      assert Complete(s, n);
    } else {
      var k := |steps| - 1;
      var r :| Run(ids, steps[..k], r) && Enabled(r, steps[k]) && s == Apply(r, steps[k]);
      SmallRun(ids, steps[..k], r);
      SmallStep(ids, steps[..k], r, steps[k]);
    }
  }

  // -------------------------------------------------------- three or more nodes

  ghost predicate CoarseAt(ids: set<Id>, history: seq<Entry>, s: Cluster) { Reachable(ids, Coarse(s, history)) }

  function StepOf(m: Move): Step {
    match m
    case Stand(c) => StartElection(c)
    case Ask(c, p) => PollPeer(c, p)
    case Lose(c) => FinishPolling(c)
    case Down(n) => CrashNode(n)
    case Up(n) => RecoverNode(n)
  }

  lemma MoveIsStep(s: Coarse, m: Move)
    requires Can(s.c, m)
    ensures Enabled(s, StepOf(m)) && Apply(s, StepOf(m)) == Coarse(After(s.c, m), s.history)
  {
  }

  lemma CoarseIsClosed(ids: set<Id>, history: seq<Entry>)
    ensures Closed(iset s | CoarseAt(ids, history, s))
  {
    forall s, m | CoarseAt(ids, history, s) && Can(s, m) ensures CoarseAt(ids, history, After(s, m)) {
      MoveIsStep(Coarse(s, history), m);
      RunExtends(ids, Coarse(s, history), StepOf(m));
    }
  }

  /** `a` leads, the others follow it at term 1, nobody has an entry, and nobody is busy. */
  ghost predicate Elected(s: Cluster, ids: set<Id>, a: Id) {
    && Unlocked(s, ids) && a in ids && s.nodes[a].role == Leader
    && (forall n :: n in ids ==> s.pcs[n].Idle?)
    && Voted(s, ids, 1)
    && (forall n :: n in ids && n != a ==> s.nodes[n].role == Follower)
  }

  lemma StandAtFirst(ids: set<Id>, a: Id) returns (s: Cluster)
    requires a in ids
    ensures CoarseAt(ids, [], s) && Stands(s, ids, a, 1, 1, ids - {a}) && Willing(s, ids - {a}, 1)
    ensures forall n :: n in ids && n != a ==> s.pcs[n].Idle?
  {
    CoarseIsClosed(ids, []);
    assert Run(ids, [], Coarse(Init(ids), []));
    assert CoarseAt(ids, [], Init(ids));
    s := After(Init(ids), Stand(a));
  }

  lemma WinByAll(ids: set<Id>, t: Cluster, a: Id) returns (s: Cluster)
    requires CoarseAt(ids, [], t) && Stands(t, ids, a, 1, |ids|, {}) && Voted(t, ids - {a}, 1)
    requires forall n :: n in ids && n != a ==> t.pcs[n].Idle?
    ensures CoarseAt(ids, [], s) && Elected(s, ids, a)
  {
    assert |t.nodes.Keys| == |t.nodes|;
    assert Winning(t, a);
    RunExtends(ids, Coarse(t, []), FinishPolling(a));
    s := Finish(t, a);
  }

  /** One node collects everybody's vote, and is elected. */
  lemma ElectByAll(ids: set<Id>, a: Id) returns (s: Cluster)
    requires a in ids
    ensures CoarseAt(ids, [], s) && Elected(s, ids, a)
  {
    CoarseIsClosed(ids, []);
    var up := StandAtFirst(ids, a);
    var t := WillingSayYes((iset c | CoarseAt(ids, [], c)), ids, up, a, ids - {a});
    assert ids - {a} - (ids - {a}) == {};
    s := WinByAll(ids, t, a);
  }

  const JOB := Entry(1, "job")

  /** It appends an entry while all others are crashed: only `a` has it. */
  ghost predicate OnlyOneHas(s: Cluster, ids: set<Id>, a: Id) {
    && Unlocked(s, ids) && a in ids && s.nodes[a].log == [JOB]
    && (forall n :: n in ids ==> s.pcs[n].Idle? && s.nodes[n].term == 1)
    && (forall n :: n in ids && n != a ==> s.nodes[n].role == Follower && s.nodes[n].log == [])
  }

  lemma AppendAlone(ids: set<Id>, a: Id) returns (s: Cluster)
    requires a in ids
    ensures CoarseAt(ids, [JOB], s) && OnlyOneHas(s, ids, a)
  {
    CoarseIsClosed(ids, []);
    var led := ElectByAll(ids, a);
    var t := CrashAll((iset c | CoarseAt(ids, [], c)), ids, led, ids - {a});
    RunExtends(ids, Coarse(t, []), AppendLog(a, "job"));
    var u := Append(Coarse(t, []), a, "job");
    assert [] + [JOB] == [JOB];
    s := u.c;
  }

  /** Then it crashes and the others recover. */
  lemma LoseTheHolder(ids: set<Id>, a: Id) returns (s: Cluster)
    requires a in ids
    ensures CoarseAt(ids, [JOB], s) && OnlyOneHas(s, ids, a)
    ensures s.nodes[a].crashed && forall n :: n in ids && n != a ==> !s.nodes[n].crashed
  {
    CoarseIsClosed(ids, [JOB]);
    var ok := (iset c | CoarseAt(ids, [JOB], c));
    var t := AppendAlone(ids, a);
    var u := CrashAll(ok, ids, t, {a});
    s := RecoverAll(ok, ids, u, ids - {a});
  }

  /** Another node stands and finds it crashed. */
  lemma MissTheHolder(ids: set<Id>, a: Id, b: Id) returns (s: Cluster)
    requires a in ids && b in ids && a != b
    ensures CoarseAt(ids, [JOB], s) && Stands(s, ids, b, 2, 1, ids - {a, b}) && Willing(s, ids - {a, b}, 2)
  {
    CoarseIsClosed(ids, [JOB]);
    var t := LoseTheHolder(ids, a);
    var up := After(t, Stand(b));
    assert Stands(up, ids, b, 2, 1, ids - {b}) && Willing(up, ids - {a, b}, 2);
    s := PollAll((iset c | CoarseAt(ids, [JOB], c)), ids, up, b, {a}, false);
    assert ids - {b} - {a} == ids - {a, b};
  }

  /** It is granted the votes of all the rest. */
  lemma WinWithout(ids: set<Id>, a: Id, b: Id) returns (s: Cluster)
    requires a in ids && b in ids && a != b && |ids| >= 3
    ensures CoarseAt(ids, [JOB], s) && Winning(s, b) && s.nodes[b].log == []
  {
    CoarseIsClosed(ids, [JOB]);
    var rest := ids - {a, b};
    var missed := MissTheHolder(ids, a, b);
    s := WillingSayYes((iset c | CoarseAt(ids, [JOB], c)), ids, missed, b, rest);
    assert ids == rest + {a, b} && |s.nodes.Keys| == |s.nodes|;
  }

  /** A cluster can elect a leader that lacks an accepted entry exactly if it has three or more nodes. */
  lemma IncompleteLeaderIff(ids: set<Id>)
    ensures (exists s, c :: Reachable(ids, s) && WinsIncomplete(s, c)) <==> |ids| >= 3
  {
    if |ids| >= 3 {
      var a := Pick(ids);
      assert |ids - {a}| == |ids| - 1;
      var b := Pick(ids - {a});
      var t := WinWithout(ids, a, b);
      assert WinsIncomplete(Coarse(t, [JOB]), b);
    } else {
      forall s, c | Reachable(ids, s) && Winning(s.c, c) ensures !WinsIncomplete(s, c) {
        SmallNeverIncomplete(ids, s, c);
      }
    }
  }

  lemma SmallNeverIncomplete(ids: set<Id>, s: Coarse, c: Id)
    requires Reachable(ids, s) && Winning(s.c, c) && |ids| <= 2
    ensures !WinsIncomplete(s, c)
  {
    var steps :| Run(ids, steps, s);
    CoreOfRun(ids, steps, s);
    assert c in ids;
    SmallRun(ids, steps, s);
    SmallWinnerComplete(ids, s, c);
  }
}

/** What one worker does by a sequence of its actions, the other workers standing still. */
module FleetTraces {
  import opened Common
  import opened Urls
  import opened Fleet

  /** The actions, made one after the other by one worker, lead from `l` to `m`. */
  ghost predicate Traced(setup: Setup, l: Local, actions: seq<Action>, m: Local)
    decreases |actions|
  {
    if actions == [] then l == m
    else
      Well(setup, l) && Enabled(setup, l, actions[0])
      && Traced(setup, Act(setup, l, actions[0]), actions[1..], m)
  }

  /** Some sequence of the worker's actions leads from `l` to `m`. */
  ghost predicate Reaches(setup: Setup, l: Local, m: Local) {
    exists actions :: Traced(setup, l, actions, m)
  }

  lemma ReachesByOne(setup: Setup, l: Local, a: Action)
    requires Well(setup, l) && Enabled(setup, l, a)
    ensures Reaches(setup, l, Act(setup, l, a))
  {
    assert [a][1..] == [];
    assert Traced(setup, l, [a], Act(setup, l, a));
  }

  lemma ReachesOn(setup: Setup, l: Local, m: Local, n: Local)
    requires Reaches(setup, l, m) && Reaches(setup, m, n)
    ensures Reaches(setup, l, n)
  {
    var s :| Traced(setup, l, s, m);
    var t :| Traced(setup, m, t, n);
    TracedJoins(setup, l, s, m, t, n);
  }

  lemma {:induction false} TracedJoins(setup: Setup, l: Local, s: seq<Action>, m: Local, t: seq<Action>, n: Local)
    requires Traced(setup, l, s, m) && Traced(setup, m, t, n)
    ensures Traced(setup, l, s + t, n)
    decreases |s|
  {
    if s == [] {
      assert [] + t == t;
    } else {
      assert (s + t)[1..] == s[1..] + t && (s + t)[0] == s[0];
      TracedJoins(setup, Act(setup, l, s[0]), s[1..], m, t, n);
    }
  }

  /** Whatever a worker does alone, no URL is created, copied or dropped. */
  lemma ReachesConserves(setup: Setup, l: Local, m: Local)
    requires Well(setup, l) && NoRepeats(setup.categories) && Reaches(setup, l, m)
    ensures Well(setup, m) && Owned(setup, m) == Owned(setup, l)
  {
    var actions :| Traced(setup, l, actions, m);
    TracedConserves(setup, l, actions, m);
  }

  lemma {:induction false} TracedConserves(setup: Setup, l: Local, actions: seq<Action>, m: Local)
    requires Well(setup, l) && NoRepeats(setup.categories) && Traced(setup, l, actions, m)
    ensures Well(setup, m) && Owned(setup, m) == Owned(setup, l)
    decreases |actions|
  {
    if actions != [] {
      ActConserves(setup, l, actions[0]);
      TracedConserves(setup, Act(setup, l, actions[0]), actions[1..], m);
    }
  }

  lemma ReachesByTwo(setup: Setup, l: Local, a: Action, b: Action)
    requires Well(setup, l) && Enabled(setup, l, a)
    requires Well(setup, Act(setup, l, a)) && Enabled(setup, Act(setup, l, a), b)
    ensures Reaches(setup, l, Act(setup, Act(setup, l, a), b))
  {
    ReachesByOne(setup, l, a);
    ReachesByOne(setup, Act(setup, l, a), b);
    ReachesOn(setup, l, Act(setup, l, a), Act(setup, Act(setup, l, a), b));
  }

  lemma StealReaches(setup: Setup, l: Local, victim: Category)
    requires Well(setup, l) && l.worker.pc.Ready? && l.shards[l.worker.shard] == []
    requires victim in l.shards && victim != l.worker.shard && l.shards[victim] != []
    ensures Reaches(setup, l, StealLast(Go(l, Stealing(victim)), victim))
  {
    var m := Go(l, Stealing(victim));
    ReachesByTwo(setup, l, OwnEmpty, ChooseVictim(victim));
    ReachesByOne(setup, m, Steal);
    ReachesOn(setup, l, m, StealLast(m, victim));
  }

  // -------------------------------------------------------- what a worker does with its flags

  /** A rate-limited URL is the next one its worker takes, and taking it restores everything. */
  lemma RequeueThenTake(setup: Setup, l: Local)
    requires Well(setup, l) && l.worker.pc.Holding? && l.worker.running && !l.worker.killed
    ensures var back := Act(setup, l, RateLimited);
      && Enabled(setup, back, Enter) && Enabled(setup, Act(setup, back, Enter), TakeOwn)
      && Act(setup, Act(setup, back, Enter), TakeOwn) == l
  {
    var own := l.shards[l.worker.shard];
    assert ([l.worker.pc.url] + own)[1..] == own;
    assert l.shards[l.worker.shard := own] == l.shards;
  }

  /** Where a worker can still report a URL without passing the loop's test again. */
  function Underway(w: Worker): nat {
    if w.pc.NotStarted? || w.pc.AtHead? || w.pc.Exited? then 0 else 1
  }

  lemma KilledWindsDown(setup: Setup, l: Local, a: Action)
    requires Well(setup, l) && Enabled(setup, l, a) && l.worker.killed
    ensures var m := Act(setup, l, a);
      && m.worker.killed && |m.results| + Underway(m.worker) <= |l.results| + Underway(l.worker)
      && (Underway(l.worker) == 0 ==> m.shards == l.shards && m.results == l.results && Underway(m.worker) == 0)
  {
  }

  /** A killed worker reports at most the URL it is at; once back at the loop's test it touches nothing any more. */
  lemma {:induction false} KilledReportsAtMostOne(setup: Setup, l: Local, actions: seq<Action>, m: Local)
    requires Well(setup, l) && NoRepeats(setup.categories) && Traced(setup, l, actions, m) && l.worker.killed
    ensures m.worker.killed && |m.results| <= |l.results| + Underway(l.worker)
    ensures Underway(l.worker) == 0 ==> m.shards == l.shards && m.results == l.results
    decreases |actions|
  {
    if actions != [] {
      ActConserves(setup, l, actions[0]);
      KilledWindsDown(setup, l, actions[0]);
      KilledReportsAtMostOne(setup, Act(setup, l, actions[0]), actions[1..], m);
    }
  }

  /** A worker that has left its loop never acts again. */
  lemma ExitedIsSilent(setup: Setup, l: Local, a: Action)
    requires Well(setup, l) && Enabled(setup, l, a) && l.worker.pc.Exited?
    ensures Act(setup, l, a).shards == l.shards && Act(setup, l, a).results == l.results
    ensures Act(setup, l, a).worker.pc.Exited?
  {
  }
}

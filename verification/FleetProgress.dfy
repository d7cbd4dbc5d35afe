/** As long as one worker lives, the fleet can still complete the pool, whatever has happened before. */
module FleetProgress {
  import opened Common
  import opened Groups
  import opened Gathering
  import opened Urls
  import opened Fleet
  import opened FleetRuns
  import opened FleetTraces

  /** The steps lead from `f` to `g`. */
  ghost predicate Path(setup: Setup, f: State, steps: seq<Step>, g: State)
    decreases |steps|
  {
    if steps == [] then f == g
    else Formed(setup, f) && Can(setup, f, steps[0]) && Path(setup, Next(setup, f, steps[0]), steps[1..], g)
  }

  ghost predicate Leads(setup: Setup, f: State, g: State) {
    exists steps :: Path(setup, f, steps, g)
  }

  lemma {:induction false} PathJoins(setup: Setup, f: State, s: seq<Step>, g: State, t: seq<Step>, h: State)
    requires Path(setup, f, s, g) && Path(setup, g, t, h)
    ensures Path(setup, f, s + t, h)
    decreases |s|
  {
    if s == [] {
      assert [] + t == t;
    } else {
      assert (s + t)[1..] == s[1..] + t && (s + t)[0] == s[0];
      PathJoins(setup, Next(setup, f, s[0]), s[1..], g, t, h);
    }
  }

  lemma LeadsOn(setup: Setup, f: State, g: State, h: State)
    requires Leads(setup, f, g) && Leads(setup, g, h)
    ensures Leads(setup, f, h)
  {
    var s :| Path(setup, f, s, g);
    var t :| Path(setup, g, t, h);
    PathJoins(setup, f, s, g, t, h);
  }

  lemma {:induction false} RunContinues(setup: Setup, pool: seq<Url>, s: seq<Step>, f: State, t: seq<Step>, g: State)
    requires Run(setup, pool, s, f) && Path(setup, f, t, g)
    ensures Run(setup, pool, s + t, g)
    decreases |t|
  {
    if t == [] {
      assert s + t == s;
    } else {
      assert (s + [t[0]])[..|s|] == s && s + t == (s + [t[0]]) + t[1..];
      RunContinues(setup, pool, s + [t[0]], Next(setup, f, t[0]), t[1..], g);
    }
  }

  /** What a worker can do alone, the fleet can do. */
  lemma {:induction false} TraceIsPath(setup: Setup, f: State, i: nat, actions: seq<Action>, m: Local)
    requires Formed(setup, f) && i < |f.workers| && Traced(setup, LocalOf(f, i), actions, m)
    ensures Leads(setup, f, WithLocal(f, i, m)) && Formed(setup, WithLocal(f, i, m))
    decreases |actions|
  {
    if actions == [] {
      assert WithLocal(f, i, m) == f;
      assert Path(setup, f, [], f);
    } else {
      var step := Do(i, actions[0]);
      var g := Next(setup, f, step);
      DoKeepsForm(setup, f, i, actions[0]);
      TraceIsPath(setup, g, i, actions[1..], m);
      assert WithLocal(g, i, m) == WithLocal(f, i, m);
      assert [step][1..] == [];
      assert Path(setup, f, [step], g);
      LeadsOn(setup, f, g, WithLocal(f, i, m));
    }
  }

  lemma ReachIsPath(setup: Setup, f: State, i: nat, m: Local)
    requires Formed(setup, f) && i < |f.workers| && Reaches(setup, LocalOf(f, i), m)
    ensures Leads(setup, f, WithLocal(f, i, m)) && Formed(setup, WithLocal(f, i, m))
  {
    var actions :| Traced(setup, LocalOf(f, i), actions, m);
    TraceIsPath(setup, f, i, actions, m);
  }

  // -------------------------------------------------------- one worker

  /** Started, and neither stopped nor killed. */
  predicate Live(w: Worker) {
    w.running && !w.killed && !w.pc.NotStarted? && !w.pc.Exited?
  }

  predicate HandFree(w: Worker) {
    !w.pc.Holding? && !w.pc.Scraping? && !w.pc.Blocked? && !w.pc.Scraped?
  }

  predicate SameFlags(w: Worker, x: Worker) { w.running == x.running && w.killed == x.killed }

  lemma ReportReaches(setup: Setup, l: Local) returns (m: Local)
    requires Well(setup, l) && l.worker.pc.Scraping?
    ensures Reaches(setup, l, m) && m.worker.pc.AtHead? && SameFlags(l.worker, m.worker)
    ensures |m.results| == |l.results| + 1
  {
    ReachesByTwo(setup, l, Succeed, Report);
    m := Act(setup, Act(setup, l, Succeed), Report);
  }

  /** A URL taken is scraped and reported. */
  lemma DeliverReaches(setup: Setup, l: Local) returns (m: Local)
    requires Well(setup, l) && l.worker.pc.Holding?
    ensures Reaches(setup, l, m) && m.worker.pc.AtHead? && SameFlags(l.worker, m.worker)
    ensures |m.results| == |l.results| + 1
  {
    var k := Act(setup, l, Admitted);
    ReachesByOne(setup, l, Admitted);
    m := ReportReaches(setup, k);
    ReachesOn(setup, l, k, m);
  }

  /** Whatever a worker has in hand, stopped or killed, it can still bring to an end. */
  lemma HandCanBeEmptied(setup: Setup, l: Local) returns (m: Local)
    requires Well(setup, l) && !HandFree(l.worker)
    ensures Reaches(setup, l, m) && m.worker.pc.AtHead? && SameFlags(l.worker, m.worker)
  {
    match l.worker.pc
    case Holding(_) => m := DeliverReaches(setup, l);
    case Scraping(_) => m := ReportReaches(setup, l);
    case Blocked(_) =>
      ReachesByOne(setup, l, PutBack);
      m := Act(setup, l, PutBack);
    case Scraped(_) =>
      ReachesByOne(setup, l, Report);
      m := Act(setup, l, Report);
  }

  ghost predicate SomeQueued(l: Local) { exists c :: c in l.shards && l.shards[c] != [] }

  lemma ReadyCanGrab(setup: Setup, l: Local) returns (m: Local)
    requires Well(setup, l) && l.worker.pc.Ready? && SomeQueued(l)
    ensures Reaches(setup, l, m) && m.worker.pc.Holding? && SameFlags(l.worker, m.worker) && m.results == l.results
    ensures Well(setup, m)
  {
    if l.shards[l.worker.shard] != [] {
      ReachesByOne(setup, l, TakeOwn);
      m := Act(setup, l, TakeOwn);
    } else {
      var victim :| victim in l.shards && l.shards[victim] != [];
      StealReaches(setup, l, victim);
      m := StealLast(Go(l, Stealing(victim)), victim);
    }
  }

  /** A live worker without a URL can get one if any shard has one. */
  lemma HeadCanGrab(setup: Setup, l: Local) returns (m: Local)
    requires Well(setup, l) && l.worker.pc.AtHead? && Live(l.worker) && SomeQueued(l)
    ensures Reaches(setup, l, m) && m.worker.pc.Holding? && SameFlags(l.worker, m.worker) && m.results == l.results
    ensures Well(setup, m)
  {
    var k := Act(setup, l, Enter);
    ReachesByOne(setup, l, Enter);
    m := ReadyCanGrab(setup, k);
    ReachesOn(setup, l, k, m);
  }

  lemma BackToHead(setup: Setup, l: Local) returns (m: Local)
    requires Well(setup, l) && Live(l.worker) && HandFree(l.worker)
    requires !(l.worker.pc.Stealing? && l.shards[l.worker.pc.victim] != [])
    ensures Reaches(setup, l, m) && m == Go(l, AtHead)
  {
    m := Go(l, AtHead);
    match l.worker.pc
    case AtHead => assert Traced(setup, l, [], m);
    case Ready => ReachesByOne(setup, l, CoolDown);
    case Choosing => ReachesByOne(setup, l, NothingToSteal);
    case Stealing(_) => ReachesByOne(setup, l, StealFails);
  }

  lemma LiveCanGrab(setup: Setup, l: Local) returns (m: Local)
    requires Well(setup, l) && Live(l.worker) && HandFree(l.worker) && SomeQueued(l)
    ensures Reaches(setup, l, m) && m.worker.pc.Holding? && SameFlags(l.worker, m.worker) && m.results == l.results
    ensures Well(setup, m)
  {
    if l.worker.pc.Stealing? && l.shards[l.worker.pc.victim] != [] {
      ReachesByOne(setup, l, Steal);
      m := Act(setup, l, Steal);
    } else {
      var k := BackToHead(setup, l);
      m := HeadCanGrab(setup, k);
      ReachesOn(setup, l, k, m);
    }
  }

  // -------------------------------------------------------- the fleet

  ghost predicate Sound(setup: Setup, pool: seq<Url>, f: State, i: nat) {
    Formed(setup, f) && Conserved(setup, pool, f) && i < |f.workers| && Live(f.workers[i])
  }

  lemma LocalKeepsSound(setup: Setup, pool: seq<Url>, f: State, i: nat, j: nat, m: Local)
    requires Sound(setup, pool, f, i) && j < |f.workers| && Reaches(setup, LocalOf(f, j), m)
    requires m.worker.pc.AtHead? && SameFlags(f.workers[j], m.worker)
    ensures Sound(setup, pool, WithLocal(f, j, m), i) && Leads(setup, f, WithLocal(f, j, m))
    ensures |Hands(WithLocal(f, j, m).workers)| == |Hands(f.workers)| - |Hand(f.workers[j])|
  {
    ReachIsPath(setup, f, j, m);
    ReachesConserves(setup, LocalOf(f, j), m);
    LocalConserves(setup, pool, f, j, m);
    var others := GatheredAround(Hand, f.workers, j, m.worker);
    assert |Hands(f.workers)| == |others| + |Hand(f.workers[j])|;
  }

  /** First every URL in some worker's hand is brought to an end. */
  lemma {:induction false} HandsCanBeEmptied(setup: Setup, pool: seq<Url>, f: State, i: nat) returns (g: State)
    requires Sound(setup, pool, f, i)
    ensures Sound(setup, pool, g, i) && Leads(setup, f, g) && Hands(g.workers) == multiset{}
    decreases |Hands(f.workers)|
  {
    EmptyHandsIff(f.workers);
    if Hands(f.workers) == multiset{} {
      g := f;
      assert Path(setup, f, [], f);
    } else {
      var j :| 0 <= j < |f.workers| && Hand(f.workers[j]) != multiset{};
      assert Well(setup, LocalOf(f, j));
      var m := HandCanBeEmptied(setup, LocalOf(f, j));
      LocalKeepsSound(setup, pool, f, i, j, m);
      g := HandsCanBeEmptied(setup, pool, WithLocal(f, j, m), i);
      LeadsOn(setup, f, WithLocal(f, j, m), g);
    }
  }

  lemma ResultsWithinPool(setup: Setup, pool: seq<Url>, f: State)
    requires Formed(setup, f) && Conserved(setup, pool, f)
    ensures |f.results| <= |pool|
    ensures Hands(f.workers) == multiset{} && (forall c :: c in f.shards ==> f.shards[c] == [])
      ==> multiset(Reported(f.results)) == multiset(pool)
  {
    NothingHeldIff(setup.categories, f.shards);
    var queued, inHand, done := Held(setup.categories, f.shards), Hands(f.workers), multiset(Reported(f.results));
    assert |queued + inHand + done| == |queued| + |inHand| + |done| && |multiset(pool)| == |pool|;
    assert |done| == |f.results|;
  }

  /** Then the live worker takes, or steals, and scrapes one URL after the other. */
  lemma {:induction false} QueuesCanBeEmptied(setup: Setup, pool: seq<Url>, f: State, i: nat) returns (g: State)
    requires Sound(setup, pool, f, i) && Hands(f.workers) == multiset{}
    ensures Leads(setup, f, g) && multiset(Reported(g.results)) == multiset(pool)
    decreases |pool| - |f.results|
  {
    ResultsWithinPool(setup, pool, f);
    if forall c :: c in f.shards ==> f.shards[c] == [] {
      g := f;
      assert Path(setup, f, [], f);
    } else {
      var m := OneMoreResult(setup, pool, f, i);
      var h := WithLocal(f, i, m);
      LocalKeepsSound(setup, pool, f, i, i, m);
      ResultsWithinPool(setup, pool, h);
      g := QueuesCanBeEmptied(setup, pool, h, i);
      LeadsOn(setup, f, h, g);
    }
  }

  lemma OneMoreResult(setup: Setup, pool: seq<Url>, f: State, i: nat) returns (m: Local)
    requires Sound(setup, pool, f, i) && Hands(f.workers) == multiset{} && SomeQueued(LocalOf(f, i))
    ensures Reaches(setup, LocalOf(f, i), m) && m.worker.pc.AtHead? && SameFlags(f.workers[i], m.worker)
    ensures |m.results| == |f.results| + 1
  {
    EmptyHandsIff(f.workers);
    var l := LocalOf(f, i);
    assert Hand(f.workers[i]) == multiset{};
    var k := LiveCanGrab(setup, l);
    m := DeliverReaches(setup, k);
    ReachesOn(setup, l, k, m);
  }

  lemma ReachableOn(setup: Setup, pool: seq<Url>, f: State, g: State)
    requires Reachable(setup, pool, f) && Leads(setup, f, g)
    ensures Reachable(setup, pool, g)
  {
    var steps :| Run(setup, pool, steps, f);
    var more :| Path(setup, f, more, g);
    RunContinues(setup, pool, steps, f, more, g);
  }

  ghost predicate Completes(setup: Setup, pool: seq<Url>, f: State, g: State) {
    Leads(setup, f, g) && Reachable(setup, pool, g) && multiset(Reported(g.results)) == multiset(pool)
  }

  /** From every reachable state with a live worker some continuation reports the whole pool. */
  lemma CompletionStaysPossible(setup: Setup, pool: seq<Url>, f: State, i: nat)
    requires Reachable(setup, pool, f) && i < |f.workers| && Live(f.workers[i])
    ensures exists g :: Completes(setup, pool, f, g)
  {
    NothingLost(setup, pool, f);
    var h := HandsCanBeEmptied(setup, pool, f, i);
    var g := QueuesCanBeEmptied(setup, pool, h, i);
    LeadsOn(setup, f, h, g);
    ReachableOn(setup, pool, f, g);
    assert Completes(setup, pool, f, g);
  }

  lemma OneStep(setup: Setup, pool: seq<Url>, f: State, step: Step, g: State)
    requires Reachable(setup, pool, f) && Formed(setup, f) && Can(setup, f, step) && g == Next(setup, f, step)
    ensures Reachable(setup, pool, g) && Leads(setup, f, g)
  {
    assert [step][1..] == [];
    assert Path(setup, f, [step], g);
    ReachableOn(setup, pool, f, g);
  }

  /** A new worker, spawned and started. */
  lemma SpawnAndStart(setup: Setup, pool: seq<Url>, f: State) returns (h: State)
    requires Reachable(setup, pool, f) && Formed(setup, f) && setup.categories != []
    ensures Reachable(setup, pool, h) && Leads(setup, f, h)
    ensures |h.workers| == |f.workers| + 1 && Live(h.workers[|f.workers|])
  {
    var shard, n := setup.categories[0], |f.workers|;
    var g := Next(setup, f, Spawn(shard));
    OneStep(setup, pool, f, Spawn(shard), g);
    NothingLost(setup, pool, g);
    h := Next(setup, g, Do(n, Start));
    OneStep(setup, pool, g, Do(n, Start), h);
    LeadsOn(setup, f, g, h);
  }

  lemma {:induction false} SomeShard(setup: Setup, pool: seq<Url>, steps: seq<Step>, f: State)
    requires Run(setup, pool, steps, f)
    ensures setup.categories != []
    decreases |steps|
  {
    if steps != [] {
      var k := |steps| - 1;
      var g :| Run(setup, pool, steps[..k], g) && Formed(setup, g) && Can(setup, g, steps[k])
        && f == Next(setup, g, steps[k]);
      SomeShard(setup, pool, steps[..k], g);
    }
  }

  /** And from every reachable state at all, every worker killed or gone, as a new one can be spawned. */
  lemma CompletionIsNeverLost(setup: Setup, pool: seq<Url>, f: State)
    requires Reachable(setup, pool, f)
    ensures exists g :: Completes(setup, pool, f, g)
  {
    var steps :| Run(setup, pool, steps, f);
    SomeShard(setup, pool, steps, f);
    NothingLost(setup, pool, f);
    var h := SpawnAndStart(setup, pool, f);
    CompletionStaysPossible(setup, pool, h, |f.workers|);
    var g :| Completes(setup, pool, h, g);
    LeadsOn(setup, f, h, g);
    assert Completes(setup, pool, f, g);
  }
}

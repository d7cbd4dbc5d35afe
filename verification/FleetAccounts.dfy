/** The counters of the fleet: successes, blocks and results agree in every reachable state. */
module FleetAccounts {
  import opened Common
  import opened Groups
  import opened Gathering
  import opened Urls
  import opened Fleet
  import opened FleetRuns

  function NodeOf(r: Result): nat { r.nodeId }

  function ScrapedOf(w: Worker): nat { w.urlsScraped }

  function BlocksOf(w: Worker): nat { w.blocks }

  function StolenOf(w: Worker): nat { w.tasksStolen }

  /** A success is counted before its result is stored. */
  function Pending(w: Worker): nat { if w.pc.Scraped? then 1 else 0 }

  /** Each block used up the requests since the last one; each success has its result, stored or about to be. */
  ghost predicate Balanced(w: Worker, results: seq<Result>) {
    && w.blocks + |w.domainReq| <= w.urlsScraped
    && w.urlsScraped == |Group(NodeOf, w.id, results)| + Pending(w)
  }

  ghost predicate Labelled(setup: Setup, workers: nat, results: seq<Result>) {
    forall r :: r in results ==> r.nodeId < workers && r.category == setup.category(r.url)
  }

  ghost predicate Accounts(setup: Setup, f: State) {
    && (forall i :: 0 <= i < |f.workers| ==> f.workers[i].id == i && Balanced(f.workers[i], f.results))
    && Labelled(setup, |f.workers|, f.results)
    && Total(ScrapedOf, f.workers) == |f.results| + Total(Pending, f.workers)
  }

  lemma ActBalances(setup: Setup, l: Local, a: Action)
    requires Well(setup, l) && Enabled(setup, l, a) && Balanced(l.worker, l.results)
    ensures var m := Act(setup, l, a);
      && Balanced(m.worker, m.results) && m.worker.id == l.worker.id
      && m.worker.urlsScraped - l.worker.urlsScraped
         == (|m.results| - |l.results|) + (Pending(m.worker) - Pending(l.worker))
      && (m.results == l.results
          || exists url :: m.results == l.results + [Result(url, setup.category(url), l.worker.id)])
  {
    match a
    case Report =>
      GroupGrows(NodeOf, l.worker.id, l.results,
                 Result(l.worker.pc.url, setup.category(l.worker.pc.url), l.worker.id));
    case Block =>
      BlockBalances(l.worker, setup.domain(l.worker.pc.url));
    case _ =>
  }

  /** A block is counted only when the counter it resets was above 0. */
  lemma BlockBalances(w: Worker, domain: Domain)
    requires w.pc.Scraping? && w.domainReq[domain] > 0
    ensures var x := CountBlock(w, w.pc.url, domain); x.blocks + |x.domainReq| <= w.blocks + |w.domainReq|
  {
  }

  lemma OthersStayBalanced(setup: Setup, w: Worker, results: seq<Result>, r: Result)
    requires Balanced(w, results) && r.nodeId != w.id
    ensures Balanced(w, results + [r])
  {
    GroupGrows(NodeOf, w.id, results, r);
  }

  lemma DoKeepsTotals(setup: Setup, f: State, i: nat, a: Action)
    requires Formed(setup, f) && Can(setup, f, Do(i, a)) && Balanced(f.workers[i], f.results)
    requires Total(ScrapedOf, f.workers) == |f.results| + Total(Pending, f.workers)
    ensures var g := Next(setup, f, Do(i, a));
      Total(ScrapedOf, g.workers) == |g.results| + Total(Pending, g.workers)
  {
    var l, g := LocalOf(f, i), Next(setup, f, Do(i, a));
    ActBalances(setup, l, a);
    TotalAround(ScrapedOf, f.workers, i, g.workers[i]);
    TotalAround(Pending, f.workers, i, g.workers[i]);
  }

  lemma DoKeepsAccounts(setup: Setup, f: State, i: nat, a: Action)
    requires Formed(setup, f) && Can(setup, f, Do(i, a)) && Accounts(setup, f)
    ensures Accounts(setup, Next(setup, f, Do(i, a)))
  {
    var l, g := LocalOf(f, i), Next(setup, f, Do(i, a));
    ActBalances(setup, l, a);
    DoKeepsTotals(setup, f, i, a);
    forall j | 0 <= j < |g.workers| ensures g.workers[j].id == j && Balanced(g.workers[j], g.results) {
      if j != i { BystanderBalances(setup, f.workers[j], f.results, g.results, i); }
    }
  }

  /** A result of one worker does not touch the account of another. */
  lemma BystanderBalances(setup: Setup, w: Worker, results: seq<Result>, more: seq<Result>, i: nat)
    requires Balanced(w, results) && w.id != i
    requires more == results || exists url :: more == results + [Result(url, setup.category(url), i)]
    ensures Balanced(w, more)
  {
    if more != results {
      var url :| more == results + [Result(url, setup.category(url), i)];
      OthersStayBalanced(setup, w, results, Result(url, setup.category(url), i));
    }
  }

  lemma {:induction false} NoResultsYet(results: seq<Result>, n: nat)
    requires forall r :: r in results ==> r.nodeId < n
    ensures Group(NodeOf, n, results) == []
    decreases |results|
  {
    if results != [] { NoResultsYet(results[..|results| - 1], n); }
  }

  lemma SpawnKeepsAccounts(setup: Setup, f: State, shard: Category)
    requires Formed(setup, f) && Can(setup, f, Spawn(shard)) && Accounts(setup, f)
    ensures Accounts(setup, Next(setup, f, Spawn(shard)))
  {
    var w := NewWorker(|f.workers|, shard);
    TotalOneMore(ScrapedOf, f.workers, w);
    TotalOneMore(Pending, f.workers, w);
    NoResultsYet(f.results, |f.workers|);
    assert Balanced(w, f.results);
  }

  lemma {:induction false} RunKeepsAccounts(setup: Setup, pool: seq<Url>, steps: seq<Step>, f: State)
    requires Run(setup, pool, steps, f)
    ensures Accounts(setup, f)
    decreases |steps|
  {
    if steps != [] {
      var k := |steps| - 1;
      var g :| Run(setup, pool, steps[..k], g) && Formed(setup, g) && Can(setup, g, steps[k])
        && f == Next(setup, g, steps[k]);
      RunKeepsAccounts(setup, pool, steps[..k], g);
      match steps[k]
      case Spawn(shard) => SpawnKeepsAccounts(setup, g, shard);
      case Do(i, a) => DoKeepsAccounts(setup, g, i, a);
    }
  }

  lemma AccountsAlways(setup: Setup, pool: seq<Url>, f: State)
    requires Reachable(setup, pool, f)
    ensures Accounts(setup, f)
  {
    var steps :| Run(setup, pool, steps, f);
    RunKeepsAccounts(setup, pool, steps, f);
  }

  /**
   In every reachable state the fleet has counted no more blocks than successes, and its
   successes are the stored results and the ones about to be stored, no more than the pool has URLs.
   */
  lemma BlocksNeverExceedSuccesses(setup: Setup, pool: seq<Url>, f: State)
    requires Reachable(setup, pool, f)
    ensures forall i :: 0 <= i < |f.workers| ==>
      f.workers[i].blocks + |f.workers[i].domainReq| <= f.workers[i].urlsScraped
    ensures Total(BlocksOf, f.workers) <= Total(ScrapedOf, f.workers) <= |pool|
    ensures Total(ScrapedOf, f.workers) == |f.results| + Total(Pending, f.workers)
  {
    AccountsAlways(setup, pool, f);
    TotalsCompare(BlocksOf, ScrapedOf, f.workers);
    NothingLost(setup, pool, f);
    PendingIsInHand(f.workers);
    PartSize(Held(setup.categories, f.shards), Hands(f.workers), Reported(f.results), pool);
  }

  lemma PartSize<T>(queued: multiset<T>, inHand: multiset<T>, done: seq<T>, pool: seq<T>)
    requires queued + inHand + multiset(done) == multiset(pool)
    ensures |inHand| + |done| <= |pool|
  {
    assert |queued + inHand + multiset(done)| == |queued| + |inHand| + |multiset(done)|;
    assert |multiset(pool)| == |pool| && |multiset(done)| == |done|;
  }

  lemma {:induction false} PendingIsInHand(workers: seq<Worker>)
    ensures Total(Pending, workers) <= |Hands(workers)|
    decreases |workers|
  {
    if workers != [] {
      var m := |workers| - 1;
      PendingIsInHand(workers[..m]);
      assert workers == workers[..m] + [workers[m]];
      GatheredOneMore(Hand, workers[..m], workers[m]);
      assert |Hands(workers)| == |Hands(workers[..m])| + |Hand(workers[m])|;
    }
  }

  /** Each worker's successes are its own results, and every result names its category. */
  lemma ResultsAreAccounted(setup: Setup, pool: seq<Url>, f: State, i: nat)
    requires Reachable(setup, pool, f) && i < |f.workers| && !f.workers[i].pc.Scraped?
    ensures f.workers[i].urlsScraped == |Group(NodeOf, i, f.results)|
    ensures forall r :: r in f.results ==> r.nodeId < |f.workers| && r.category == setup.category(r.url)
  {
    AccountsAlways(setup, pool, f);
  }

  /** The totals that a snapshot of the fleet shows. */
  method FleetTotals(workers: seq<Worker>) returns (scraped: nat, blocks: nat, stolen: nat)
    ensures scraped == Total(ScrapedOf, workers)
    ensures blocks == Total(BlocksOf, workers)
    ensures stolen == Total(StolenOf, workers)
  {
    scraped, blocks, stolen := 0, 0, 0;
    for i := 0 to |workers|
      invariant scraped == Total(ScrapedOf, workers[..i])
      invariant blocks == Total(BlocksOf, workers[..i])
      invariant stolen == Total(StolenOf, workers[..i])
    {
      assert workers[..i + 1][..i] == workers[..i];
      scraped := scraped + workers[i].urlsScraped;
      blocks := blocks + workers[i].blocks;
      stolen := stolen + workers[i].tasksStolen;
    }
    assert workers[..|workers|] == workers;
  }
}

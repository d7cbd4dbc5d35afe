/**
 The fleet as the objects the program runs. A worker's fields, the shards and the result
 store are updated in place; every method is proved to make the actions of Fleet, here
 uninterrupted by other workers. FleetRuns has the interleavings.
 */
module FleetObjects {
  import opened Common
  import opened Groups
  import opened Subsequences
  import opened Urls
  import opened Fleet
  import opened FleetRuns
  import opened FleetTraces

  /** The pool split over the shards; a URL of no shard's category goes to the first shard. */
  method Distribute(categories: seq<Category>, category: Url -> Category, pool: seq<Url>) returns (shards: Shards)
    requires categories != []
    ensures forall c :: c in categories <==> c in shards
    ensures forall c :: c in shards ==> shards[c] == Group(ShardIn(categories, category), c, pool)
    ensures forall c :: c in shards && c != categories[0] ==> shards[c] == Group(category, c, pool)
    ensures Subsequence(shards[categories[0]], pool)
    ensures forall url :: category(url) == categories[0] || category(url) !in categories ==>
      multiset(shards[categories[0]])[url] == multiset(pool)[url]
    ensures forall url :: category(url) != categories[0] && category(url) in categories ==>
      url !in shards[categories[0]]
  {
    shards := map c | c in categories :: [];
    ghost var shardOf := ShardIn(categories, category);
    for i := 0 to |pool|
      invariant forall c :: c in categories <==> c in shards
      invariant forall c :: c in shards ==> shards[c] == Group(shardOf, c, pool[..i])
    {
      var c := category(pool[i]);
      if c !in shards { c := categories[0]; }
      assert c == shardOf(pool[i]);
      ghost var before := shards;
      shards := shards[c := shards[c] + [pool[i]]];
      forall other | other in shards ensures shards[other] == Group(shardOf, other, pool[..i + 1]) {
        assert before[other] == Group(shardOf, other, pool[..i]);
        GroupStep(shardOf, other, pool, i);
      }
    }
    assert pool[..|pool|] == pool;
    FirstShard(categories, category, pool);
    forall c | c in shards && c != categories[0] ensures shards[c] == Group(category, c, pool) {
      OwnShard(categories, category, c, pool);
    }
  }

  ghost predicate FirstLongest(categories: seq<Category>, shards: Shards, own: Category, best: Category)
    requires best in shards && forall c :: c in categories <==> c in shards
  {
    exists i :: 0 <= i < |categories| && categories[i] == best
      && (forall j :: 0 <= j < i && categories[j] != own ==> |shards[categories[j]]| < |shards[best]|)
  }

  /** The longest of the other shards, the first of them in the dictionary's order; none if all are empty. */
  method Busiest(categories: seq<Category>, shards: Shards, own: Category) returns (best: Option<Category>)
    requires forall c :: c in categories <==> c in shards
    ensures best.None? <==> forall c :: c in shards && c != own ==> shards[c] == []
    ensures best.Some? ==> best.value in shards && best.value != own && shards[best.value] != []
    ensures best.Some? ==> forall c :: c in shards && c != own ==> |shards[c]| <= |shards[best.value]|
    ensures best.Some? ==> FirstLongest(categories, shards, own, best.value)
  {
    best := None;
    var bestLen := 0;
    ghost var at := 0;
    for i := 0 to |categories|
      invariant forall j :: 0 <= j < i && categories[j] != own ==> |shards[categories[j]]| <= bestLen
      invariant best.None? ==> bestLen == 0
      invariant best.Some? ==> best.value in shards && best.value != own && bestLen == |shards[best.value]| > 0
      invariant at <= i && (best.Some? ==> at < i && categories[at] == best.value)
      invariant forall j :: 0 <= j < at && categories[j] != own ==> |shards[categories[j]]| < bestLen
    {
      var name := categories[i];
      if name != own && |shards[name]| > bestLen {
        best, bestLen := Some(name), |shards[name]|;
        at := i;
      }
    }
    forall c | c in shards && c != own ensures |shards[c]| <= bestLen {
      var i :| 0 <= i < |categories| && categories[i] == c;
    }
  }

  // -------------------------------------------------------- what one turn does

  /** The first of the longest other shards, one that is not empty. */
  ghost predicate IsVictim(setup: Setup, l: Local, victim: Category)
    requires Well(setup, l)
  {
    && victim in l.shards && victim != l.worker.shard && l.shards[victim] != []
    && (forall c :: c in l.shards && c != l.worker.shard ==> |l.shards[c]| <= |l.shards[victim]|)
    && FirstLongest(setup.categories, l.shards, l.worker.shard, victim)
  }

  ghost predicate OthersEmpty(l: Local) { forall c :: c in l.shards && c != l.worker.shard ==> l.shards[c] == [] }

  /** The worker obtains the head of its own shard, else the back of the busiest other one, else nothing. */
  ghost predicate Obtains(setup: Setup, l: Local, url: Option<Url>, m: Local)
    requires Well(setup, l)
  {
    if l.shards[l.worker.shard] != [] then url == Some(l.shards[l.worker.shard][0]) && m == TakeFirst(l)
    else if OthersEmpty(l) then url == None && m == Go(l, AtHead)
    else exists victim :: IsVictim(setup, l, victim) && Steals(l, victim, url, m)
  }

  ghost predicate Steals(l: Local, victim: Category, url: Option<Url>, m: Local)
    requires victim in l.shards && l.shards[victim] != []
  {
    url == Some(l.shards[victim][|l.shards[victim]| - 1]) && m == StealLast(l, victim)
  }

  /** The state after the page was fetched, or the block hit. */
  function Fetched(setup: Setup, l: Local, url: Url, blocked: bool): Local
    requires l.worker.shard in l.shards
  {
    var w, domain := l.worker, setup.domain(url);
    if blocked then
      Local(l.shards[w.shard := [url] + l.shards[w.shard]], l.results,
            w.(pc := AtHead, blocks := w.blocks + 1, domainReq := w.domainReq[domain := 0]))
    else
      Local(l.shards, l.results + [Result(url, setup.category(url), w.id)],
            w.(pc := AtHead, urlsScraped := w.urlsScraped + 1,
               domainReq := w.domainReq[domain := w.domainReq[domain] + 1]))
  }

  /** A refused URL is back at the front of the own shard; an admitted one is blocked or scraped. */
  ghost predicate Handled(setup: Setup, l: Local, url: Url, admitted: bool, blocked: bool, m: Local)
    requires l.worker.shard in l.shards
  {
    && (blocked ==> admitted && l.worker.domainReq[setup.domain(url)] > 0)
    && m == if admitted then Fetched(setup, l, url, blocked) else Requeue(l, url)
  }

  /** One turn: nothing behind a closed gate; else a URL is obtained, if there is one, and handled. */
  ghost predicate TurnDone(
      setup: Setup, l: Local, gateOpen: bool, admitted: bool, url: Option<Url>, blocked: bool, n: Local)
    requires Well(setup, l)
  {
    if !gateOpen then n == l && url == None else WorkDone(setup, Go(l, Ready), admitted, url, blocked, n)
  }

  ghost predicate WorkDone(setup: Setup, l: Local, admitted: bool, url: Option<Url>, blocked: bool, n: Local)
    requires Well(setup, l)
  {
    exists m :: Obtains(setup, l, url, m) && Disposes(setup, m, url, admitted, blocked, n)
  }

  ghost predicate Disposes(setup: Setup, m: Local, url: Option<Url>, admitted: bool, blocked: bool, n: Local) {
    && m.worker.shard in m.shards
    && if url == None then n == m && !blocked else Handled(setup, m, url.value, admitted, blocked, n)
  }

  /** What the workers share. */
  class Store {
    var shards: Shards
    var results: seq<Result>

    constructor (shards: Shards)
      ensures this.shards == shards && results == []
    {
      this.shards := shards;
      results := [];
    }
  }

  class DistributedWorker {
    const id: nat
    const shard: Category
    const setup: Setup
    const store: Store
    var running: bool
    var killed: bool
    var domainReq: multiset<Domain>
    var urlsScraped: nat
    var blocks: nat
    var tasksStolen: nat
    /** Where the worker is in its loop. */
    ghost var pc: Pc

    ghost function View(): Local
      reads this, store
    {
      Local(store.shards, store.results,
            Worker(id, shard, pc, running, killed, domainReq, urlsScraped, blocks, tasksStolen))
    }

    ghost predicate Valid()
      reads this, store
    {
      Well(setup, View())
    }

    constructor (id: nat, shard: Category, setup: Setup, store: Store)
      requires forall c :: c in setup.categories <==> c in store.shards
      requires shard in store.shards
      ensures Valid() && this.store == store && this.setup == setup
      ensures View() == Local(store.shards, store.results, NewWorker(id, shard))
      ensures this.id == id && this.shard == shard && pc == NotStarted && !running && !killed
      ensures domainReq == multiset{} && urlsScraped == blocks == tasksStolen == 0
    {
      this.id, this.shard, this.setup, this.store := id, shard, setup, store;
      running, killed, domainReq, urlsScraped, blocks, tasksStolen := false, false, multiset{}, 0, 0, 0;
      pc := NotStarted;
    }

    method StartLoop()
      requires Valid() && pc == NotStarted
      modifies this
      ensures Valid() && View() == Act(setup, old(View()), Start)
      ensures running && pc == AtHead && killed == old(killed)
    {
      running := true;
      pc := AtHead;
    }

    method StopLoop()
      requires Valid()
      modifies this
      ensures Valid() && View() == Act(setup, old(View()), Stop)
      ensures !running && killed == old(killed) && pc == old(pc)
    {
      running := false;
    }

    method KillWorker()
      requires Valid()
      modifies this
      ensures Valid() && View() == Act(setup, old(View()), Kill)
      ensures !running && killed && pc == old(pc)
    {
      killed := true;
      running := false;
    }

    /** The back of the busiest other shard; nothing exactly if the other shards are all empty. */
    method StealUrl() returns (url: Option<Url>, ghost victim: Category)
      requires Valid() && pc == Choosing
      modifies this, store
      ensures Valid() && (url.None? <==> OthersEmpty(old(View())))
      ensures url.None? ==> View() == Act(setup, old(View()), NothingToSteal)
      ensures url.Some? ==> IsVictim(setup, old(View()), victim) && Steals(old(View()), victim, url, View())
      ensures url.Some? ==> forall c :: c in old(store.shards) && c != shard ==>
        |old(store.shards)[c]| <= |old(store.shards)[victim]|
      ensures url.Some? ==> old(store.shards)[victim] == store.shards[victim] + [url.value] && pc == Holding(url.value)
      ensures url.Some? ==> tasksStolen == old(tasksStolen) + 1 && store.results == old(store.results)
      ensures url.Some? ==> store.shards == old(store.shards)[victim := store.shards[victim]]
    {
      var best := Busiest(setup.categories, store.shards, shard);
      if best.None? {
        pc := AtHead;
        return None, shard;
      }
      victim := best.value;
      var q := store.shards[best.value];
      store.shards := store.shards[best.value := q[..|q| - 1]];
      tasksStolen := tasksStolen + 1;
      url := Some(q[|q| - 1]);
      pc := Holding(q[|q| - 1]);
    }

    method TakeUrl() returns (url: Url)
      requires Valid() && pc == Ready && store.shards[shard] != []
      modifies this, store
      ensures Valid() && View() == Act(setup, old(View()), TakeOwn) && pc == Holding(url)
      ensures old(store.shards[shard]) == [url] + store.shards[shard] && store.results == old(store.results)
      ensures store.shards == old(store.shards)[shard := store.shards[shard]]
    {
      url := store.shards[shard][0];
      store.shards := store.shards[shard := store.shards[shard][1..]];
      pc := Holding(url);
    }

    method RequeueUrl(url: Url)
      requires Valid()
      modifies this, store
      ensures Valid() && View() == Requeue(old(View()), url)
      ensures store.shards == old(store.shards)[shard := [url] + old(store.shards[shard])]
      ensures pc == AtHead && store.results == old(store.results)
    {
      store.shards := store.shards[shard := [url] + store.shards[shard]];
      pc := AtHead;
    }

    method RecordBlock(url: Url, domain: Domain)
      requires Valid() && pc == Scraping(url) && domain == setup.domain(url) && domainReq[domain] > 0
      modifies this
      ensures Valid() && View() == Act(setup, old(View()), Block)
      ensures blocks == old(blocks) + 1 && domainReq == old(domainReq)[domain := 0] && pc == Blocked(url)
      ensures urlsScraped == old(urlsScraped) && tasksStolen == old(tasksStolen)
    {
      blocks := blocks + 1;
      domainReq := domainReq[domain := 0];
      pc := Blocked(url);
    }

    method RecordSuccess(url: Url, domain: Domain)
      requires Valid() && pc == Scraping(url) && domain == setup.domain(url)
      modifies this
      ensures Valid() && View() == Act(setup, old(View()), Succeed)
      ensures urlsScraped == old(urlsScraped) + 1 && pc == Scraped(url)
      ensures domainReq == old(domainReq)[domain := old(domainReq[domain]) + 1]
      ensures blocks == old(blocks) && tasksStolen == old(tasksStolen)
    {
      domainReq := domainReq[domain := domainReq[domain] + 1];
      urlsScraped := urlsScraped + 1;
      pc := Scraped(url);
    }

    method ReportResult(url: Url)
      requires Valid() && pc == Scraped(url)
      modifies this, store
      ensures Valid() && View() == Act(setup, old(View()), Report)
      ensures store.results == old(store.results) + [Result(url, setup.category(url), id)]
      ensures store.shards == old(store.shards) && pc == AtHead
    {
      store.results := store.results + [Result(url, setup.category(url), id)];
      pc := AtHead;
    }

    /** One URL, from the own shard or stolen; none exactly if all shards are empty. */
    method NextUrl() returns (url: Option<Url>)
      requires Valid() && pc == Ready
      modifies this, store
      ensures Valid() && Reaches(setup, old(View()), View())
      ensures Obtains(setup, old(View()), url, View()) && (url.Some? ==> pc == Holding(url.value))
      ensures url.None? <==> forall c :: c in old(store.shards) ==> old(store.shards)[c] == []
      ensures old(store.shards)[shard] != [] ==> url == Some(old(store.shards)[shard][0])
    {
      ghost var before := View();
      if store.shards[shard] != [] {
        ghost var l := View();
        var own := TakeUrl();
        ReachesByOne(setup, l, TakeOwn);
        return Some(own);
      }
      url := FallBackToStealing();
      NoneIfEmpty(setup, before, url, View());
    }

    method FallBackToStealing() returns (url: Option<Url>)
      requires Valid() && pc == Ready && store.shards[shard] == []
      modifies this, store
      ensures Valid() && Reaches(setup, old(View()), View())
      ensures Obtains(setup, old(View()), url, View()) && (url.Some? ==> pc == Holding(url.value))
    {
      ghost var l := View();
      pc := Choosing;
      ghost var victim;
      url, victim := StealUrl();
      if url.None? {
        ReachesByTwo(setup, l, OwnEmpty, NothingToSteal);
      } else {
        StealsAnyway(setup, l, victim, url, View());
      }
    }

    /** The page is fetched: a block puts the URL back, a success stores its result. */
    method Scrape(url: Url) returns (blocked: bool)
      requires Valid() && pc == Scraping(url)
      modifies this, store
      ensures Valid() && Reaches(setup, old(View()), View())
      ensures blocked ==> old(domainReq[setup.domain(url)]) > 0
      ensures View() == Fetched(setup, old(View()), url, blocked)
      ensures var domain := setup.domain(url);
        if blocked then blocks == old(blocks) + 1 && domainReq == old(domainReq)[domain := 0]
        else urlsScraped == old(urlsScraped) + 1 && domainReq == old(domainReq)[domain := old(domainReq[domain]) + 1]
    {
      var domain := setup.domain(url);
      blocked := IpBlockFires(domainReq[domain]);
      if blocked {
        HitBlock(url, domain);
      } else {
        Complete(url, domain);
      }
    }

    /** The blocked way through Scrape. */
    method HitBlock(url: Url, domain: Domain)
      requires Valid() && pc == Scraping(url) && domain == setup.domain(url) && domainReq[domain] > 0
      modifies this, store
      ensures Valid() && Reaches(setup, old(View()), View()) && View() == Fetched(setup, old(View()), url, true)
    {
      ghost var l := View();
      RecordBlock(url, domain);
      RequeueUrl(url);
      ReachesByTwo(setup, l, Block, PutBack);
    }

    /** The successful way. */
    method Complete(url: Url, domain: Domain)
      requires Valid() && pc == Scraping(url) && domain == setup.domain(url)
      modifies this, store
      ensures Valid() && Reaches(setup, old(View()), View()) && View() == Fetched(setup, old(View()), url, false)
    {
      ghost var l := View();
      RecordSuccess(url, domain);
      ReportResult(url);
      ReachesByTwo(setup, l, Succeed, Report);
    }

    /** An admitted URL is fetched. */
    method Admit(url: Url) returns (blocked: bool)
      requires Valid() && pc == Holding(url)
      modifies this, store
      ensures Valid() && Reaches(setup, old(View()), View())
      ensures blocked ==> old(domainReq[setup.domain(url)]) > 0
      ensures View() == Fetched(setup, old(View()), url, blocked)
    {
      ghost var l := View();
      pc := Scraping(url);
      ghost var m := View();
      blocked := Scrape(url);
      AdmitsThen(setup, l, m, url, blocked, View());
    }

    /** A URL in hand goes back to the own shard when the bucket refuses it, and is scraped otherwise. */
    method Handle(url: Url, admitted: bool) returns (blocked: bool)
      requires Valid() && pc == Holding(url)
      modifies this, store
      ensures Valid() && Reaches(setup, old(View()), View())
      ensures Handled(setup, old(View()), url, admitted, blocked, View())
    {
      if admitted {
        blocked := Admit(url);
      } else {
        ghost var l := View();
        RequeueUrl(url);
        ReachesByOne(setup, l, RateLimited);
        blocked := false;
      }
    }

    /** One turn of the loop, behind its test: what it does, and that it is made of the actions. */
    method Turn(gateOpen: bool, admitted: bool) returns (url: Option<Url>, blocked: bool)
      requires Valid() && pc == AtHead && running && !killed
      modifies this, store
      ensures Valid() && pc == AtHead && Reaches(setup, old(View()), View())
      ensures TurnDone(setup, old(View()), gateOpen, admitted, url, blocked, View())
      ensures !gateOpen ==> url.None? && !blocked && View() == old(View())
      ensures gateOpen ==> (url.None? <==> forall c :: c in old(store.shards) ==> old(store.shards)[c] == [])
      ensures gateOpen && old(store.shards)[shard] != [] ==> url == Some(old(store.shards)[shard][0])
      ensures blocked ==> url.Some? && admitted
      ensures blocks == old(blocks) + if blocked then 1 else 0
      ensures var done := url.Some? && admitted && !blocked;
        && urlsScraped == old(urlsScraped) + (if done then 1 else 0)
        && Reported(store.results) == Reported(old(store.results)) + (if done then [url.value] else [])
    {
      ghost var l := View();
      pc := Ready;
      url, blocked := None, false;
      if !gateOpen {
        pc := AtHead;
        ReachesByTwo(setup, l, Enter, CoolDown);
        return;
      }
      ReachesByOne(setup, l, Enter);
      url, blocked := Work(admitted);
      WorkCounts(setup, Go(l, Ready), admitted, url, blocked, View());
      ReachesOn(setup, l, Go(l, Ready), View());
    }

    method Work(admitted: bool) returns (url: Option<Url>, blocked: bool)
      requires Valid() && pc == Ready
      modifies this, store
      ensures Valid() && pc == AtHead && Reaches(setup, old(View()), View())
      ensures WorkDone(setup, old(View()), admitted, url, blocked, View())
    {
      ghost var l := View();
      blocked := false;
      url := NextUrl();
      ghost var m := View();
      if url.Some? {
        blocked := Handle(url.value, admitted);
        ReachesOn(setup, l, m, View());
      }
      assert Disposes(setup, m, url, admitted, blocked, View());
    }
  }

  /** What a turn counts and stores: a block, or a success and its result, or nothing. */
  ghost predicate Counted(l: Local, admitted: bool, url: Option<Url>, blocked: bool, n: Local) {
    var done := url.Some? && admitted && !blocked;
    && (blocked ==> url.Some? && admitted)
    && n.worker.blocks == l.worker.blocks + (if blocked then 1 else 0)
    && n.worker.urlsScraped == l.worker.urlsScraped + (if done then 1 else 0)
    && Reported(n.results) == Reported(l.results) + (if done then [url.value] else [])
  }

  lemma ObtainsQuietly(setup: Setup, l: Local, url: Option<Url>, m: Local)
    requires Well(setup, l) && Obtains(setup, l, url, m)
    ensures m.results == l.results && m.worker.blocks == l.worker.blocks
    ensures m.worker.urlsScraped == l.worker.urlsScraped
  {
  }

  lemma NoneIfEmpty(setup: Setup, l: Local, url: Option<Url>, m: Local)
    requires Well(setup, l) && Obtains(setup, l, url, m)
    ensures url.None? <==> forall c :: c in l.shards ==> l.shards[c] == []
    ensures l.shards[l.worker.shard] != [] ==> url == Some(l.shards[l.worker.shard][0])
  {
  }

  lemma HandledIsCounted(setup: Setup, l: Local, url: Url, admitted: bool, blocked: bool, n: Local)
    requires l.worker.shard in l.shards && Handled(setup, l, url, admitted, blocked, n)
    ensures Counted(l, admitted, Some(url), blocked, n)
  {
    var r := Result(url, setup.category(url), l.worker.id);
    assert Reported(l.results + [r]) == Reported(l.results) + [url];
  }

  lemma WorkCounts(setup: Setup, l: Local, admitted: bool, url: Option<Url>, blocked: bool, n: Local)
    requires Well(setup, l) && WorkDone(setup, l, admitted, url, blocked, n)
    ensures Counted(l, admitted, url, blocked, n)
    ensures url.None? <==> forall c :: c in l.shards ==> l.shards[c] == []
    ensures l.shards[l.worker.shard] != [] ==> url == Some(l.shards[l.worker.shard][0])
  {
    var m :| Obtains(setup, l, url, m) && Disposes(setup, m, url, admitted, blocked, n);
    ObtainsQuietly(setup, l, url, m);
    NoneIfEmpty(setup, l, url, m);
    if url.Some? { HandledIsCounted(setup, m, url.value, admitted, blocked, n); }
  }

  lemma AdmitsThen(setup: Setup, l: Local, m: Local, url: Url, blocked: bool, n: Local)
    requires Well(setup, l) && l.worker.pc == Holding(url) && m == Go(l, Scraping(url))
    requires Reaches(setup, m, n) && n == Fetched(setup, m, url, blocked)
    ensures Reaches(setup, l, n) && n == Fetched(setup, l, url, blocked)
  {
    ReachesByOne(setup, l, Admitted);
    ReachesOn(setup, l, m, n);
  }

  lemma StealsAnyway(setup: Setup, l: Local, victim: Category, url: Option<Url>, m: Local)
    requires Well(setup, l) && l.worker.pc.Ready? && l.shards[l.worker.shard] == []
    requires IsVictim(setup, Go(l, Choosing), victim) && Steals(Go(l, Choosing), victim, url, m)
    ensures Reaches(setup, l, m) && Obtains(setup, l, url, m)
  {
    StealReaches(setup, l, victim);
    assert IsVictim(setup, l, victim) && Steals(l, victim, url, m);
  }
}

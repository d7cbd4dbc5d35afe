/** All runs of a fleet: any number of workers, spawned at any time, in any interleaving. */
module FleetRuns {
  import opened Common
  import opened Groups
  import opened Subsequences
  import opened Urls
  import opened Gathering
  import opened Fleet

  datatype State = State(shards: Shards, workers: seq<Worker>, results: seq<Result>)

  datatype Step = Spawn(shard: Category) | Do(worker: nat, action: Action)

  function LocalOf(f: State, i: nat): Local
    requires i < |f.workers|
  {
    Local(f.shards, f.results, f.workers[i])
  }

  function WithLocal(f: State, i: nat, l: Local): State
    requires i < |f.workers|
  {
    State(l.shards, f.workers[i := l.worker], l.results)
  }

  function NewWorker(id: nat, shard: Category): Worker {
    Worker(id, shard, NotStarted, false, false, multiset{}, 0, 0, 0)
  }

  ghost predicate Formed(setup: Setup, f: State) {
    && NoRepeats(setup.categories) && (forall c :: c in setup.categories <==> c in f.shards)
    && forall i :: 0 <= i < |f.workers| ==> Well(setup, LocalOf(f, i)) && f.workers[i].id == i
  }

  ghost predicate Can(setup: Setup, f: State, step: Step)
    requires Formed(setup, f)
  {
    match step
    case Spawn(shard) => shard in f.shards
    case Do(i, action) => i < |f.workers| && Enabled(setup, LocalOf(f, i), action)
  }

  ghost function Next(setup: Setup, f: State, step: Step): State
    requires Formed(setup, f) && Can(setup, f, step)
  {
    match step
    case Spawn(shard) => f.(workers := f.workers + [NewWorker(|f.workers|, shard)])
    case Do(i, action) => WithLocal(f, i, Act(setup, LocalOf(f, i), action))
  }

  /** A URL's shard: its category's, or the first one when the category has none. */
  function ShardIn(categories: seq<Category>, category: Url -> Category): Url -> Category
    requires categories != []
  {
    (url: Url) => if category(url) in categories then category(url) else categories[0]
  }

  /** Every shard but the first has the URLs of its category and no others, in the pool's order ... */
  lemma {:induction false} OwnShard(categories: seq<Category>, category: Url -> Category, c: Category, pool: seq<Url>)
    requires c in categories && c != categories[0]
    ensures Group(ShardIn(categories, category), c, pool) == Group(category, c, pool)
    decreases |pool|
  {
    if pool != [] { OwnShard(categories, category, c, pool[..|pool| - 1]); }
  }

  /** ... and the first one has those of its category and of every category without a shard, in the pool's order. */
  lemma FirstShard(categories: seq<Category>, category: Url -> Category, pool: seq<Url>)
    requires categories != []
    ensures var shard := Group(ShardIn(categories, category), categories[0], pool);
      && Subsequence(shard, pool)
      && (forall url :: category(url) == categories[0] || category(url) !in categories ==>
            multiset(shard)[url] == multiset(pool)[url])
      && (forall url :: category(url) != categories[0] && category(url) in categories ==> url !in shard)
  {
    var key, first := ShardIn(categories, category), categories[0];
    GroupInOrder(key, first, pool);
    forall url ensures multiset(Group(key, first, pool))[url] == if key(url) == first then multiset(pool)[url] else 0 {
      GroupCounts(key, first, pool, url);
    }
  }

  ghost predicate Initial(setup: Setup, pool: seq<Url>, f: State) {
    && setup.categories != [] && NoRepeats(setup.categories)
    && (forall c :: c in setup.categories <==> c in f.shards)
    && (forall c :: c in f.shards ==> f.shards[c] == Group(ShardIn(setup.categories, setup.category), c, pool))
    && f.workers == [] && f.results == []
  }

  /** `f` is the state after these steps, from the pool split over the shards and no workers. */
  ghost predicate Run(setup: Setup, pool: seq<Url>, steps: seq<Step>, f: State)
    decreases |steps|
  {
    if steps == [] then Initial(setup, pool, f)
    else
      var k := |steps| - 1;
      exists g :: Run(setup, pool, steps[..k], g) && Formed(setup, g) && Can(setup, g, steps[k])
        && f == Next(setup, g, steps[k])
  }

  /** `f` is a state of some run over this pool. */
  ghost predicate Reachable(setup: Setup, pool: seq<Url>, f: State) {
    exists steps :: Run(setup, pool, steps, f)
  }

  // -------------------------------------------------------- conservation

  /** The URLs in the hands of all workers. */
  ghost function Hands(workers: seq<Worker>): multiset<Url> { Gathered(Hand, workers) }

  /** Queued, in hand and reported, everything together is the pool. */
  ghost predicate Conserved(setup: Setup, pool: seq<Url>, f: State)
    requires forall c :: c in setup.categories ==> c in f.shards
  {
    Held(setup.categories, f.shards) + Hands(f.workers) + multiset(Reported(f.results)) == multiset(pool)
  }

  lemma DoKeepsForm(setup: Setup, f: State, i: nat, action: Action)
    requires Formed(setup, f) && Can(setup, f, Do(i, action))
    ensures Formed(setup, Next(setup, f, Do(i, action)))
  {
    var l, g := LocalOf(f, i), Next(setup, f, Do(i, action));
    ActConserves(setup, l, action);
    ActKeepsIdentity(setup, l, action);
    forall j | 0 <= j < |g.workers| ensures Well(setup, LocalOf(g, j)) && g.workers[j].id == j {
      if j != i { assert Well(setup, LocalOf(f, j)); }
    }
  }

  lemma DoConserves(setup: Setup, pool: seq<Url>, f: State, i: nat, action: Action)
    requires Formed(setup, f) && Can(setup, f, Do(i, action)) && Conserved(setup, pool, f)
    ensures var g := Next(setup, f, Do(i, action));
      Formed(setup, g) && Conserved(setup, pool, g)
  {
    DoKeepsForm(setup, f, i, action);
    var l := LocalOf(f, i);
    ActConserves(setup, l, action);
    LocalConserves(setup, pool, f, i, Act(setup, l, action));
  }

  lemma LocalConserves(setup: Setup, pool: seq<Url>, f: State, i: nat, m: Local)
    requires i < |f.workers| && Well(setup, LocalOf(f, i)) && Well(setup, m) && Conserved(setup, pool, f)
    requires Owned(setup, m) == Owned(setup, LocalOf(f, i))
    ensures Conserved(setup, pool, WithLocal(f, i, m))
  {
    var others := GatheredAround(Hand, f.workers, i, m.worker);
    Rebalance(Held(setup.categories, f.shards), Hand(f.workers[i]), multiset(Reported(f.results)),
              Held(setup.categories, m.shards), Hand(m.worker), multiset(Reported(m.results)), others, multiset(pool));
  }

  lemma Rebalance<T>(
      queued: multiset<T>, hand: multiset<T>, done: multiset<T>,
      queuedNow: multiset<T>, handNow: multiset<T>, doneNow: multiset<T>, others: multiset<T>, all: multiset<T>)
    requires queued + (others + hand) + done == all
    requires queuedNow + handNow + doneNow == queued + hand + done
    ensures queuedNow + (others + handNow) + doneNow == all
  {
    assert queued + (others + hand) + done == (queued + hand + done) + others;
    assert queuedNow + (others + handNow) + doneNow == (queuedNow + handNow + doneNow) + others;
  }

  lemma ActKeepsIdentity(setup: Setup, l: Local, action: Action)
    requires Well(setup, l) && Enabled(setup, l, action)
    ensures var w := Act(setup, l, action).worker; w.id == l.worker.id && w.shard == l.worker.shard
  {
  }

  lemma NextConserves(setup: Setup, pool: seq<Url>, f: State, step: Step)
    requires Formed(setup, f) && Can(setup, f, step) && Conserved(setup, pool, f)
    ensures Formed(setup, Next(setup, f, step)) && Conserved(setup, pool, Next(setup, f, step))
  {
    match step
    case Spawn(shard) =>
      var w := NewWorker(|f.workers|, shard);
      GatheredOneMore(Hand, f.workers, w);
      var g := Next(setup, f, step);
      forall j | 0 <= j < |g.workers| ensures Well(setup, LocalOf(g, j)) && g.workers[j].id == j {
        if j < |f.workers| { assert Well(setup, LocalOf(f, j)); }
      }
    case Do(i, action) => DoConserves(setup, pool, f, i, action);
  }

  lemma InitialConserves(setup: Setup, pool: seq<Url>, f: State)
    requires Initial(setup, pool, f)
    ensures Formed(setup, f) && Conserved(setup, pool, f)
  {
    GroupsHoldAll(ShardIn(setup.categories, setup.category), setup.categories, pool, f.shards);
  }

  lemma {:induction false} RunConserves(setup: Setup, pool: seq<Url>, steps: seq<Step>, f: State)
    requires Run(setup, pool, steps, f)
    ensures Formed(setup, f) && Conserved(setup, pool, f)
    decreases |steps|
  {
    if steps == [] {
      InitialConserves(setup, pool, f);
    } else {
      var k := |steps| - 1;
      var g :| Run(setup, pool, steps[..k], g) && Formed(setup, g) && Can(setup, g, steps[k])
        && f == Next(setup, g, steps[k]);
      RunConserves(setup, pool, steps[..k], g);
      NextConserves(setup, pool, g, steps[k]);
    }
  }

  /** In every reachable state each URL of the pool is queued, in hand or reported, as often as the pool has it. */
  lemma NothingLost(setup: Setup, pool: seq<Url>, f: State)
    requires Reachable(setup, pool, f)
    ensures Formed(setup, f) && Conserved(setup, pool, f)
  {
    var steps :| Run(setup, pool, steps, f);
    RunConserves(setup, pool, steps, f);
  }

  /** From a pool without repeats no URL is reported twice, nor reported while it is queued or in hand. */
  lemma ExactlyOnce(setup: Setup, pool: seq<Url>, f: State)
    requires Reachable(setup, pool, f) && NoRepeats(pool)
    ensures Formed(setup, f) && NoRepeats(Reported(f.results))
    ensures forall url :: url in Reported(f.results) ==>
      url in pool && url !in Held(setup.categories, f.shards) && url !in Hands(f.workers)
  {
    NothingLost(setup, pool, f);
    PartsOfSingles(Held(setup.categories, f.shards), Hands(f.workers), Reported(f.results), pool);
  }

  lemma PartsOfSingles<T>(queued: multiset<T>, inHand: multiset<T>, done: seq<T>, pool: seq<T>)
    requires queued + inHand + multiset(done) == multiset(pool) && NoRepeats(pool)
    ensures NoRepeats(done) && forall x :: x in done ==> x in pool && x !in queued && x !in inHand
  {
    forall x ensures queued[x] + inHand[x] + multiset(done)[x] <= 1 {
      OneOfEach(pool, x);
      assert multiset(pool)[x] == queued[x] + inHand[x] + multiset(done)[x];
    }
    SinglesDoNotRepeat(done);
    forall x | x in done ensures x in pool && x !in queued && x !in inHand {
      assert multiset(done)[x] == 1;
      assert x in multiset(pool);
    }
  }

  lemma {:induction false} OneOfEach<T>(items: seq<T>, x: T)
    requires NoRepeats(items)
    ensures multiset(items)[x] <= 1
    decreases |items|
  {
    if items != [] {
      var m := |items| - 1;
      OneOfEach(items[..m], x);
      assert items == items[..m] + [items[m]];
      assert items[m] !in items[..m];
    }
  }

  lemma SinglesDoNotRepeat<T>(items: seq<T>)
    requires forall x :: multiset(items)[x] <= 1
    ensures NoRepeats(items)
  {
    forall i, j | 0 <= i < j < |items| ensures items[i] != items[j] {
      assert items == items[..j] + items[j..];
      assert items[i] == items[..j][i] && items[j] == items[j..][0];
      assert multiset(items)[items[j]] == multiset(items[..j])[items[j]] + multiset(items[j..])[items[j]];
    }
  }

  /** The results are the pool, as a permutation, exactly when the shards are empty and no worker has a URL in hand. */
  lemma CompleteIff(setup: Setup, pool: seq<Url>, f: State)
    requires Reachable(setup, pool, f)
    ensures Formed(setup, f)
    ensures multiset(Reported(f.results)) == multiset(pool)
      <==> (forall c :: c in f.shards ==> f.shards[c] == [])
           && forall i :: 0 <= i < |f.workers| ==> Hand(f.workers[i]) == multiset{}
  {
    NothingLost(setup, pool, f);
    NothingHeldIff(setup.categories, f.shards);
    EmptyHandsIff(f.workers);
    var queued, inHand, done := Held(setup.categories, f.shards), Hands(f.workers), multiset(Reported(f.results));
    if done == multiset(pool) {
      assert |queued| + |inHand| + |done| == |multiset(pool)|;
    }
  }

  /** No worker leaves with a URL: once all have exited, what is not reported is queued. */
  lemma ExitedHoldNothing(setup: Setup, pool: seq<Url>, f: State)
    requires Reachable(setup, pool, f)
    requires forall i :: 0 <= i < |f.workers| ==> f.workers[i].pc.Exited? || f.workers[i].pc.NotStarted?
    ensures Formed(setup, f)
    ensures Held(setup.categories, f.shards) + multiset(Reported(f.results)) == multiset(pool)
  {
    NothingLost(setup, pool, f);
    NothingGathered(Hand, f.workers);
  }

  lemma EmptyHandsIff(workers: seq<Worker>)
    ensures Hands(workers) == multiset{} <==> forall i :: 0 <= i < |workers| ==> Hand(workers[i]) == multiset{}
  {
    if i :| 0 <= i < |workers| && Hand(workers[i]) != multiset{} {
      PartOfGathered(Hand, workers, i);
      assert forall url :: Hand(workers[i])[url] <= Hands(workers)[url];
    } else {
      NothingGathered(Hand, workers);
    }
  }
}

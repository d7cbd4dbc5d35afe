/**
 The counters of the fleet against its history: what each worker has counted is what
 happened to it in the run, event by event.
 */
module FleetEvents {
  import opened Common
  import opened Gathering
  import opened Urls
  import opened Fleet
  import opened FleetRuns
  import opened FleetAccounts

  /** What can happen to a worker that it counts. */
  datatype Event =
    | BlockedAt(worker: nat, domain: Domain)
    | ScrapedAt(worker: nat, domain: Domain)
    | StoleFrom(worker: nat, victim: Category)

  /** The events of one step: read off the action and the URL in hand, not off the counters. */
  ghost function EventsOf(setup: Setup, f: State, step: Step): seq<Event>
    requires Formed(setup, f) && Can(setup, f, step)
  {
    if !step.Do? then []
    else
      var pc := f.workers[step.worker].pc;
      match step.action
      case Block => [BlockedAt(step.worker, setup.domain(pc.url))]
      case Succeed => [ScrapedAt(step.worker, setup.domain(pc.url))]
      case Steal => [StoleFrom(step.worker, pc.victim)]
      case _ => []
  }

  /** A run together with all its events, in order. */
  ghost predicate History(setup: Setup, pool: seq<Url>, steps: seq<Step>, f: State, events: seq<Event>)
    decreases |steps|
  {
    if steps == [] then Initial(setup, pool, f) && events == []
    else
      var k := |steps| - 1;
      exists g, before :: History(setup, pool, steps[..k], g, before) && Formed(setup, g) && Can(setup, g, steps[k])
        && f == Next(setup, g, steps[k]) && events == before + EventsOf(setup, g, steps[k])
  }

  /** Every run has its history. */
  lemma {:induction false} RunHasHistory(setup: Setup, pool: seq<Url>, steps: seq<Step>, f: State)
    returns (events: seq<Event>)
    requires Run(setup, pool, steps, f)
    ensures History(setup, pool, steps, f, events)
    decreases |steps|
  {
    if steps == [] {
      events := [];
    } else {
      var k := |steps| - 1;
      var g :| Run(setup, pool, steps[..k], g) && Formed(setup, g) && Can(setup, g, steps[k])
        && f == Next(setup, g, steps[k]);
      var before := RunHasHistory(setup, pool, steps[..k], g);
      events := before + EventsOf(setup, g, steps[k]);
    }
  }

  // -------------------------------------------------------- counting events

  function IsBlock(e: Event, i: nat): bool { e.BlockedAt? && e.worker == i }

  function IsSuccess(e: Event, i: nat): bool { e.ScrapedAt? && e.worker == i }

  function IsTheft(e: Event, i: nat): bool { e.StoleFrom? && e.worker == i }

  /** How many of the events are of a kind and of worker i. */
  function CountOf(kind: (Event, nat) -> bool, events: seq<Event>, i: nat): nat
    decreases |events|
  {
    if events == [] then 0
    else CountOf(kind, events[..|events| - 1], i) + if kind(events[|events| - 1], i) then 1 else 0
  }

  /** The successes of worker i at a domain since its last block there. */
  function SinceBlock(events: seq<Event>, i: nat, domain: Domain): nat
    decreases |events|
  {
    if events == [] then 0
    else
      var before, last := SinceBlock(events[..|events| - 1], i, domain), events[|events| - 1];
      if last == BlockedAt(i, domain) then 0 else if last == ScrapedAt(i, domain) then before + 1 else before
  }

  lemma CountOfMore(kind: (Event, nat) -> bool, events: seq<Event>, e: Event, i: nat)
    ensures CountOf(kind, events + [e], i) == CountOf(kind, events, i) + if kind(e, i) then 1 else 0
  {
    assert (events + [e])[..|events|] == events;
  }

  lemma SinceBlockMore(events: seq<Event>, e: Event, i: nat, domain: Domain)
    ensures SinceBlock(events + [e], i, domain)
      == if e == BlockedAt(i, domain) then 0
         else if e == ScrapedAt(i, domain) then SinceBlock(events, i, domain) + 1 else SinceBlock(events, i, domain)
  {
    assert (events + [e])[..|events|] == events;
  }

  // -------------------------------------------------------- the counters follow the events

  /** The worker's counters are the counts of its events. */
  ghost predicate Told(w: Worker, i: nat, events: seq<Event>) {
    && w.blocks == CountOf(IsBlock, events, i)
    && w.urlsScraped == CountOf(IsSuccess, events, i)
    && w.tasksStolen == CountOf(IsTheft, events, i)
    && forall d :: w.domainReq[d] == SinceBlock(events, i, d)
  }

  ghost predicate AllTold(f: State, events: seq<Event>) {
    && (forall i :: 0 <= i < |f.workers| ==> Told(f.workers[i], i, events))
    && (forall k :: 0 <= k < |events| ==> events[k].worker < |f.workers|)
  }

  lemma MoreTold(w: Worker, x: Worker, i: nat, events: seq<Event>, e: Event)
    requires Told(w, i, events)
    requires x.blocks == w.blocks + if IsBlock(e, i) then 1 else 0
    requires x.urlsScraped == w.urlsScraped + if IsSuccess(e, i) then 1 else 0
    requires x.tasksStolen == w.tasksStolen + if IsTheft(e, i) then 1 else 0
    requires forall d ::
      x.domainReq[d] == (
        if e == BlockedAt(i, d) then 0 else if e == ScrapedAt(i, d) then w.domainReq[d] + 1 else w.domainReq[d])
    ensures Told(x, i, events + [e])
  {
    CountOfMore(IsBlock, events, e, i);
    CountOfMore(IsSuccess, events, e, i);
    CountOfMore(IsTheft, events, e, i);
    forall d ensures x.domainReq[d] == SinceBlock(events + [e], i, d) { SinceBlockMore(events, e, i, d); }
  }

  /** The worker's own part of an action. */
  lemma ActIsTold(setup: Setup, l: Local, i: nat, a: Action, events: seq<Event>, e: seq<Event>)
    requires Well(setup, l) && Enabled(setup, l, a) && Told(l.worker, i, events)
    requires e == match a
      case Block => [BlockedAt(i, setup.domain(l.worker.pc.url))]
      case Succeed => [ScrapedAt(i, setup.domain(l.worker.pc.url))]
      case Steal => [StoleFrom(i, l.worker.pc.victim)]
      case _ => []
    ensures Told(Act(setup, l, a).worker, i, events + e)
  {
    var x := Act(setup, l, a).worker;
    if e == [] {
      assert events + e == events;
      SameCounters(setup, l, a);
    } else {
      MoreTold(l.worker, x, i, events, e[0]);
      assert e == [e[0]];
    }
  }

  lemma SameCounters(setup: Setup, l: Local, a: Action)
    requires Well(setup, l) && Enabled(setup, l, a) && !a.Block? && !a.Succeed? && !a.Steal?
    ensures var w, x := l.worker, Act(setup, l, a).worker;
      x.blocks == w.blocks && x.urlsScraped == w.urlsScraped && x.tasksStolen == w.tasksStolen
      && x.domainReq == w.domainReq
  {
  }

  /** An event of one worker tells nothing about another. */
  lemma OthersAreTold(w: Worker, j: nat, events: seq<Event>, e: seq<Event>)
    requires Told(w, j, events) && |e| <= 1 && (e != [] ==> e[0].worker != j)
    ensures Told(w, j, events + e)
  {
    if e == [] {
      assert events + e == events;
    } else {
      MoreTold(w, w, j, events, e[0]);
      assert e == [e[0]];
    }
  }

  lemma DoIsTold(setup: Setup, f: State, i: nat, a: Action, events: seq<Event>)
    requires Formed(setup, f) && Can(setup, f, Do(i, a)) && AllTold(f, events)
    ensures AllTold(Next(setup, f, Do(i, a)), events + EventsOf(setup, f, Do(i, a)))
  {
    var e, g := EventsOf(setup, f, Do(i, a)), Next(setup, f, Do(i, a));
    ActIsTold(setup, LocalOf(f, i), i, a, events, e);
    forall j | 0 <= j < |g.workers| ensures Told(g.workers[j], j, events + e) {
      if j != i { OthersAreTold(f.workers[j], j, events, e); }
    }
  }

  lemma {:induction false} NothingYet(events: seq<Event>, i: nat)
    requires forall k :: 0 <= k < |events| ==> events[k].worker < i
    ensures CountOf(IsBlock, events, i) == CountOf(IsSuccess, events, i) == CountOf(IsTheft, events, i) == 0
    ensures forall d :: SinceBlock(events, i, d) == 0
    decreases |events|
  {
    if events != [] { NothingYet(events[..|events| - 1], i); }
  }

  lemma SpawnIsTold(setup: Setup, f: State, shard: Category, events: seq<Event>)
    requires Formed(setup, f) && Can(setup, f, Spawn(shard)) && AllTold(f, events)
    ensures AllTold(Next(setup, f, Spawn(shard)), events)
  {
    NothingYet(events, |f.workers|);
  }

  // -------------------------------------------------------- the fleet's totals

  /** How many of the events are of a kind, whoever's they are. */
  function Occurrences(kind: (Event, nat) -> bool, events: seq<Event>): nat
    decreases |events|
  {
    if events == [] then 0
    else
      var last := events[|events| - 1];
      Occurrences(kind, events[..|events| - 1]) + if kind(last, last.worker) then 1 else 0
  }

  lemma OccurrencesMore(kind: (Event, nat) -> bool, events: seq<Event>, e: Event)
    ensures Occurrences(kind, events + [e]) == Occurrences(kind, events) + if kind(e, e.worker) then 1 else 0
  {
    assert (events + [e])[..|events|] == events;
  }

  ghost predicate TotalsTold(f: State, events: seq<Event>) {
    && Total(BlocksOf, f.workers) == Occurrences(IsBlock, events)
    && Total(ScrapedOf, f.workers) == Occurrences(IsSuccess, events)
    && Total(StolenOf, f.workers) == Occurrences(IsTheft, events)
  }

  lemma DoKeepsTotalsTold(setup: Setup, f: State, i: nat, a: Action, events: seq<Event>)
    requires Formed(setup, f) && Can(setup, f, Do(i, a)) && TotalsTold(f, events)
    ensures TotalsTold(Next(setup, f, Do(i, a)), events + EventsOf(setup, f, Do(i, a)))
  {
    var e, x := EventsOf(setup, f, Do(i, a)), Act(setup, LocalOf(f, i), a).worker;
    TotalAround(BlocksOf, f.workers, i, x);
    TotalAround(ScrapedOf, f.workers, i, x);
    TotalAround(StolenOf, f.workers, i, x);
    if e == [] {
      assert events + e == events;
      SameCounters(setup, LocalOf(f, i), a);
    } else {
      assert e == [e[0]] && e[0].worker == i;
      OccurrencesMore(IsBlock, events, e[0]);
      OccurrencesMore(IsSuccess, events, e[0]);
      OccurrencesMore(IsTheft, events, e[0]);
    }
  }

  lemma SpawnKeepsTotalsTold(setup: Setup, f: State, shard: Category, events: seq<Event>)
    requires Formed(setup, f) && Can(setup, f, Spawn(shard)) && TotalsTold(f, events)
    ensures TotalsTold(Next(setup, f, Spawn(shard)), events)
  {
    var w := NewWorker(|f.workers|, shard);
    TotalOneMore(BlocksOf, f.workers, w);
    TotalOneMore(ScrapedOf, f.workers, w);
    TotalOneMore(StolenOf, f.workers, w);
  }

  /** The totals of a snapshot are the numbers of blocks, successes and thefts in the whole history. */
  lemma {:induction false} TotalsFollowEvents(
      setup: Setup, pool: seq<Url>, steps: seq<Step>, f: State, events: seq<Event>)
    requires History(setup, pool, steps, f, events)
    ensures TotalsTold(f, events)
    decreases |steps|
  {
    if steps != [] {
      var k := |steps| - 1;
      var g, before :| History(setup, pool, steps[..k], g, before) && Formed(setup, g) && Can(setup, g, steps[k])
        && f == Next(setup, g, steps[k]) && events == before + EventsOf(setup, g, steps[k]);
      TotalsFollowEvents(setup, pool, steps[..k], g, before);
      match steps[k]
      case Spawn(shard) =>
        SpawnKeepsTotalsTold(setup, g, shard, before);
        assert events == before;
      case Do(i, a) => DoKeepsTotalsTold(setup, g, i, a, before);
    }
  }

  // -------------------------------------------------------- each worker's counters

  /**
   In every run a worker's blocks, successes and thefts are the numbers of those events of its own, and its
   counter of a domain is the number of its successes there since its last block there.
   */
  lemma {:induction false} CountersFollowEvents(
      setup: Setup, pool: seq<Url>, steps: seq<Step>, f: State, events: seq<Event>)
    requires History(setup, pool, steps, f, events)
    ensures AllTold(f, events)
    decreases |steps|
  {
    if steps != [] {
      var k := |steps| - 1;
      var g, before :| History(setup, pool, steps[..k], g, before) && Formed(setup, g) && Can(setup, g, steps[k])
        && f == Next(setup, g, steps[k]) && events == before + EventsOf(setup, g, steps[k]);
      CountersFollowEvents(setup, pool, steps[..k], g, before);
      match steps[k]
      case Spawn(shard) =>
        SpawnIsTold(setup, g, shard, before);
        assert events == before;
      case Do(i, a) => DoIsTold(setup, g, i, a, before);
    }
  }
}

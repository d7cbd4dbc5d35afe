/**
 The fleet: workers that take URLs from their own shard, steal from the back of others, put URLs
 back and store results. Every step is one block that the program runs under a lock
 or in one operation on a deque; the steps of different workers interleave freely, and
 a worker may be stopped or killed between any two of them.
 */
module Fleet {
  import opened Common
  import opened Groups
  import opened Urls

  type Shards = map<Category, seq<Url>>

  datatype Pc =
    | NotStarted
    | AtHead
    | Ready
    | Choosing
    | Stealing(victim: Category)
    | Holding(url: Url)
    | Scraping(url: Url)
    | Blocked(url: Url)
    | Scraped(url: Url)
    | Exited

  /** `domainReq` counts requests by domain since the last block; a missing key reads as 0. */
  datatype Worker = Worker(
    id: nat, shard: Category, pc: Pc, running: bool, killed: bool,
    domainReq: multiset<Domain>, urlsScraped: nat, blocks: nat, tasksStolen: nat)

  datatype Result = Result(url: Url, category: Category, nodeId: nat)

  datatype Setup = Setup(categories: seq<Category>, category: Url -> Category, domain: Url -> Domain)

  /** What one worker's step can read and write: the shards, the result store and the worker. */
  datatype Local = Local(shards: Shards, results: seq<Result>, worker: Worker)

  datatype Action =
    | Start
    | Stop
    | Kill
    | Enter
    | Exit
    | CoolDown
    | TakeOwn
    | OwnEmpty
    | ChooseVictim(victim: Category)
    | NothingToSteal
    | Steal
    | StealFails
    | RateLimited
    | Admitted
    | Block
    | Succeed
    | PutBack
    | Report

  ghost predicate Well(setup: Setup, l: Local) {
    && (forall c :: c in setup.categories <==> c in l.shards)
    && l.worker.shard in l.shards
    && (l.worker.pc.Stealing? ==> l.worker.pc.victim in l.shards)
  }

  predicate Enabled(setup: Setup, l: Local, a: Action)
    requires Well(setup, l)
  {
    var w := l.worker;
    match a
    case Start => w.pc.NotStarted?
    case Stop => true
    case Kill => true
    case Enter => w.pc.AtHead? && w.running && !w.killed
    case Exit => w.pc.AtHead? && !(w.running && !w.killed)
    case CoolDown => w.pc.Ready?
    case TakeOwn => w.pc.Ready? && l.shards[w.shard] != []
    case OwnEmpty => w.pc.Ready? && l.shards[w.shard] == []
    case ChooseVictim(victim) => w.pc.Choosing? && victim in l.shards && victim != w.shard
    case NothingToSteal => w.pc.Choosing?
    case Steal => w.pc.Stealing? && l.shards[w.pc.victim] != []
    case StealFails => w.pc.Stealing? && l.shards[w.pc.victim] == []
    case RateLimited => w.pc.Holding?
    case Admitted => w.pc.Holding?
    case Block => w.pc.Scraping? && w.domainReq[setup.domain(w.pc.url)] > 0
    case Succeed => w.pc.Scraping?
    case PutBack => w.pc.Blocked?
    case Report => w.pc.Scraped?
  }

  function Go(l: Local, pc: Pc): Local { l.(worker := l.worker.(pc := pc)) }

  /** The URL goes to the front of the worker's own shard, wherever it was taken from. */
  function Requeue(l: Local, url: Url): Local
    requires l.worker.shard in l.shards
  {
    Go(l.(shards := l.shards[l.worker.shard := [url] + l.shards[l.worker.shard]]), AtHead)
  }

  function CountBlock(w: Worker, url: Url, domain: Domain): Worker {
    w.(pc := Blocked(url), blocks := w.blocks + 1, domainReq := w.domainReq[domain := 0])
  }

  function CountSuccess(w: Worker, url: Url, domain: Domain): Worker {
    w.(pc := Scraped(url), urlsScraped := w.urlsScraped + 1, domainReq := w.domainReq + multiset{domain})
  }

  function TakeFirst(l: Local): Local
    requires l.worker.shard in l.shards && l.shards[l.worker.shard] != []
  {
    var own := l.shards[l.worker.shard];
    Go(l.(shards := l.shards[l.worker.shard := own[1..]]), Holding(own[0]))
  }

  function StealLast(l: Local, victim: Category): Local
    requires victim in l.shards && l.shards[victim] != []
  {
    var q := l.shards[victim];
    var m := |q| - 1;
    Local(l.shards[victim := q[..m]], l.results,
          l.worker.(pc := Holding(q[m]), tasksStolen := l.worker.tasksStolen + 1))
  }

  function Act(setup: Setup, l: Local, a: Action): Local
    requires Well(setup, l) && Enabled(setup, l, a)
  {
    var w := l.worker;
    match a
    case Start => l.(worker := w.(pc := AtHead, running := true))
    case Stop => l.(worker := w.(running := false))
    case Kill => l.(worker := w.(running := false, killed := true))
    case Enter => Go(l, Ready)
    case Exit => Go(l, Exited)
    case CoolDown => Go(l, AtHead)
    case TakeOwn => TakeFirst(l)
    case OwnEmpty => Go(l, Choosing)
    case ChooseVictim(victim) => Go(l, Stealing(victim))
    case NothingToSteal => Go(l, AtHead)
    case Steal => StealLast(l, w.pc.victim)
    case StealFails => Go(l, AtHead)
    case RateLimited => Requeue(l, w.pc.url)
    case Admitted => Go(l, Scraping(w.pc.url))
    case Block => l.(worker := CountBlock(w, w.pc.url, setup.domain(w.pc.url)))
    case Succeed => l.(worker := CountSuccess(w, w.pc.url, setup.domain(w.pc.url)))
    case PutBack => Requeue(l, w.pc.url)
    case Report => Go(l.(results := l.results + [Result(w.pc.url, setup.category(w.pc.url), w.id)]), AtHead)
  }

  // -------------------------------------------------------- what one action keeps

  /** The URL a worker has taken off a shard and neither returned nor reported. */
  ghost function Hand(w: Worker): multiset<Url> {
    if w.pc.Holding? || w.pc.Scraping? || w.pc.Blocked? || w.pc.Scraped? then multiset{w.pc.url} else multiset{}
  }

  ghost function Reported(results: seq<Result>): (urls: seq<Url>)
    ensures |urls| == |results|
  {
    seq(|results|, i requires 0 <= i < |results| => results[i].url)
  }

  ghost function Owned(setup: Setup, l: Local): multiset<Url>
    requires Well(setup, l)
  {
    Held(setup.categories, l.shards) + Hand(l.worker) + multiset(Reported(l.results))
  }

  lemma RequeueConserves(setup: Setup, l: Local, url: Url)
    requires Well(setup, l) && NoRepeats(setup.categories) && Hand(l.worker) == multiset{url}
    ensures Well(setup, Requeue(l, url)) && Owned(setup, Requeue(l, url)) == Owned(setup, l)
  {
    var c := l.worker.shard;
    var rest := HeldAround(setup.categories, l.shards, c, [url] + l.shards[c]);
  }

  lemma TakeConserves(setup: Setup, l: Local)
    requires Well(setup, l) && NoRepeats(setup.categories) && Hand(l.worker) == multiset{}
    requires l.shards[l.worker.shard] != []
    ensures Well(setup, TakeFirst(l)) && Owned(setup, TakeFirst(l)) == Owned(setup, l)
  {
    var c, q := l.worker.shard, l.shards[l.worker.shard];
    var rest := HeldAround(setup.categories, l.shards, c, q[1..]);
    assert q == [q[0]] + q[1..];
  }

  lemma StealConserves(setup: Setup, l: Local, victim: Category)
    requires Well(setup, l) && NoRepeats(setup.categories) && Hand(l.worker) == multiset{}
    requires victim in l.shards && l.shards[victim] != []
    ensures Well(setup, StealLast(l, victim)) && Owned(setup, StealLast(l, victim)) == Owned(setup, l)
  {
    var q := l.shards[victim];
    var m := |q| - 1;
    var rest := HeldAround(setup.categories, l.shards, victim, q[..m]);
    assert q == q[..m] + [q[m]];
  }

  lemma ReportConserves(setup: Setup, l: Local)
    requires Well(setup, l) && l.worker.pc.Scraped?
    ensures Well(setup, Act(setup, l, Report)) && Owned(setup, Act(setup, l, Report)) == Owned(setup, l)
  {
    var r := Result(l.worker.pc.url, setup.category(l.worker.pc.url), l.worker.id);
    assert Reported(l.results + [r]) == Reported(l.results) + [r.url];
  }

  /** The actions by which a worker takes, returns or reports a URL. */
  predicate Moves(a: Action) { a.TakeOwn? || a.Steal? || a.RateLimited? || a.PutBack? || a.Report? }

  /** The actions of a worker with a URL in hand that keep it there. */
  predicate Keeps(a: Action) { a.Admitted? || a.Block? || a.Succeed? }

  /** Nothing changes but the worker, who has the same URL in hand. */
  ghost predicate InPlace(setup: Setup, l: Local, m: Local) {
    Well(setup, m) && m.shards == l.shards && m.results == l.results && Hand(m.worker) == Hand(l.worker)
  }

  lemma KeepingIsInPlace(setup: Setup, l: Local, a: Action)
    requires Well(setup, l) && Enabled(setup, l, a) && Keeps(a)
    ensures InPlace(setup, l, Act(setup, l, a))
  {
  }

  lemma FlagsAreInPlace(setup: Setup, l: Local, a: Action)
    requires Well(setup, l) && Enabled(setup, l, a) && (a.Start? || a.Stop? || a.Kill?)
    ensures InPlace(setup, l, Act(setup, l, a))
  {
  }

  lemma GoIsInPlace(setup: Setup, l: Local, pc: Pc)
    requires Well(setup, l) && Hand(l.worker) == multiset{} && Hand(l.worker.(pc := pc)) == multiset{}
    requires pc.Stealing? ==> pc.victim in l.shards
    ensures InPlace(setup, l, Go(l, pc))
  {
  }

  /** The actions that only go on to another point of the loop, with empty hands. */
  predicate Steps(a: Action) { !Moves(a) && !Keeps(a) && !a.Start? && !a.Stop? && !a.Kill? }

  function Target(a: Action): Pc {
    match a
    case Enter => Ready
    case Exit => Exited
    case OwnEmpty => Choosing
    case ChooseVictim(victim) => Stealing(victim)
    case _ => AtHead
  }

  lemma SteppingGoes(setup: Setup, l: Local, a: Action)
    requires Well(setup, l) && Enabled(setup, l, a) && Steps(a)
    ensures Act(setup, l, a) == Go(l, Target(a))
  {
  }

  lemma SteppingHoldsNothing(setup: Setup, l: Local, a: Action)
    requires Well(setup, l) && Enabled(setup, l, a) && Steps(a)
    ensures Hand(l.worker) == multiset{} && Hand(l.worker.(pc := Target(a))) == multiset{}
    ensures Target(a).Stealing? ==> Target(a).victim in l.shards
  {
  }

  lemma SteppingIsInPlace(setup: Setup, l: Local, a: Action)
    requires Well(setup, l) && Enabled(setup, l, a) && Steps(a)
    ensures InPlace(setup, l, Act(setup, l, a))
  {
    SteppingGoes(setup, l, a);
    SteppingHoldsNothing(setup, l, a);
    GoIsInPlace(setup, l, Target(a));
  }

  /** No action of a worker creates, copies or drops a URL. */
  lemma ActConserves(setup: Setup, l: Local, a: Action)
    requires Well(setup, l) && NoRepeats(setup.categories) && Enabled(setup, l, a)
    ensures Well(setup, Act(setup, l, a)) && Owned(setup, Act(setup, l, a)) == Owned(setup, l)
  {
    if Moves(a) {
      MovingConserves(setup, l, a);
    } else if Keeps(a) {
      KeepingIsInPlace(setup, l, a);
    } else if a.Start? || a.Stop? || a.Kill? {
      FlagsAreInPlace(setup, l, a);
    } else {
      SteppingIsInPlace(setup, l, a);
    }
  }

  lemma MovingConserves(setup: Setup, l: Local, a: Action)
    requires Well(setup, l) && NoRepeats(setup.categories) && Enabled(setup, l, a) && Moves(a)
    ensures Well(setup, Act(setup, l, a)) && Owned(setup, Act(setup, l, a)) == Owned(setup, l)
  {
    match a
    case TakeOwn => TakeConserves(setup, l);
    case Steal => StealConserves(setup, l, l.worker.pc.victim);
    case RateLimited => RequeueConserves(setup, l, l.worker.pc.url);
    case PutBack => RequeueConserves(setup, l, l.worker.pc.url);
    case Report => ReportConserves(setup, l);
    case _ => assert false;
  }
}

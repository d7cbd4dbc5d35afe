/** The sequential scraper: category queues served round-robin, blocks that put a URL back. */
module SingleNode {
  import opened Common
  import opened Groups
  import opened RoundRobin
  import opened Urls

  /** What was scraped in a category, followed by what is queued there. */
  ghost function Account(category: Url -> Category, queues: Queues, scraped: seq<Url>, c: Category): seq<Url> {
    if c in queues then Group(category, c, scraped) + queues[c] else Group(category, c, scraped)
  }

  /** Category by category, what was scraped and then what is queued is what the pool had, in the pool's order. */
  ghost predicate Conserved(category: Url -> Category, queues: Queues, scraped: seq<Url>, pool: seq<Url>) {
    forall c :: Account(category, queues, scraped, c) == Group(category, c, pool)
  }

  /** Taking the head of a queue and scraping it conserves the pool. */
  lemma ScrapeConserves(category: Url -> Category, queues: Queues, scraped: seq<Url>, pool: seq<Url>, c: Category)
    requires Conserved(category, queues, scraped, pool) && c in queues && queues[c] != []
    ensures Conserved(category, queues[c := queues[c][1..]], scraped + [queues[c][0]], pool)
  {
    HeadIsOfCategory(category, queues, scraped, pool, c);
    forall other
      ensures Account(category, queues[c := queues[c][1..]], scraped + [queues[c][0]], other)
        == Group(category, other, pool)
    {
      AccountKept(category, queues, scraped, c, other);
    }
  }

  lemma HeadIsOfCategory(category: Url -> Category, queues: Queues, scraped: seq<Url>, pool: seq<Url>, c: Category)
    requires Conserved(category, queues, scraped, pool) && c in queues && queues[c] != []
    ensures category(queues[c][0]) == c
  {
    var account := Account(category, queues, scraped, c);
    assert account[|Group(category, c, scraped)|] == queues[c][0];
    assert queues[c][0] in Group(category, c, pool);
  }

  lemma AccountKept(category: Url -> Category, queues: Queues, scraped: seq<Url>, c: Category, other: Category)
    requires c in queues && queues[c] != [] && category(queues[c][0]) == c
    ensures Account(category, queues[c := queues[c][1..]], scraped + [queues[c][0]], other)
      == Account(category, queues, scraped, other)
  {
    GroupGrows(category, other, scraped, queues[c][0]);
    if other == c {
      assert queues[c] == [queues[c][0]] + queues[c][1..];
    }
  }

  /** No URL is scraped more often than the pool has it. */
  lemma ScrapedWithinPool(category: Url -> Category, queues: Queues, scraped: seq<Url>, pool: seq<Url>)
    requires Conserved(category, queues, scraped, pool)
    ensures multiset(scraped) <= multiset(pool) && |scraped| <= |pool|
  {
    forall url ensures multiset(scraped)[url] <= multiset(pool)[url] {
      var c := category(url);
      GroupCounts(category, c, scraped, url);
      GroupCounts(category, c, pool, url);
      assert Account(category, queues, scraped, c) == Group(category, c, pool);
    }
    assert multiset(pool) == multiset(scraped) + (multiset(pool) - multiset(scraped));
  }

  /** Empty queues mean that every URL was scraped, as often as the pool has it. */
  lemma EmptyMeansScraped(category: Url -> Category, queues: Queues, scraped: seq<Url>, pool: seq<Url>)
    requires Conserved(category, queues, scraped, pool) && forall c :: c in queues ==> queues[c] == []
    ensures multiset(scraped) == multiset(pool) && |scraped| == |pool|
  {
    forall c ensures multiset(Group(category, c, scraped)) == multiset(Group(category, c, pool)) {
      assert Account(category, queues, scraped, c) == Group(category, c, pool);
    }
    GroupsDecide(category, scraped, pool);
    assert |multiset(scraped)| == |scraped| && |multiset(pool)| == |pool|;
  }

  /** A block puts the URL back where it was taken from. */
  lemma PutBackRestores(queues: Queues, c: Category)
    requires c in queues && queues[c] != []
    ensures var rest := queues[c][1..]; queues[c := rest][c := [queues[c][0]] + rest] == queues
  {
    assert [queues[c][0]] + queues[c][1..] == queues[c];
  }

  /** One URL more in the pool, at the end of its category's queue. */
  lemma AppendConserves(category: Url -> Category, queues: Queues, pool: seq<Url>, url: Url)
    requires Conserved(category, queues, [], pool)
    ensures var c := category(url);
      Conserved(category, queues[c := if c in queues then queues[c] + [url] else [url]], [], pool + [url])
  {
    var c := category(url);
    var more := queues[c := if c in queues then queues[c] + [url] else [url]];
    forall other ensures Account(category, more, [], other) == Group(category, other, pool + [url]) {
      GroupGrows(category, other, pool, url);
      assert Account(category, queues, [], other) == Group(category, other, pool);
    }
  }

  /** A URL of this category lies before place q. */
  ghost predicate MentionedBefore(category: Url -> Category, c: Category, pool: seq<Url>, q: nat)
    requires q <= |pool|
  {
    exists p :: 0 <= p < q && category(pool[p]) == c
  }

  /** The categories that the pool mentions, in the order in which it first mentions them. */
  ghost predicate FirstMentions(category: Url -> Category, categories: seq<Category>, pool: seq<Url>) {
    && NoRepeats(categories)
    && (forall c :: c in categories <==> MentionedBefore(category, c, pool, |pool|))
    && (forall i, j, q | 0 <= i < j < |categories| && 0 <= q < |pool| && category(pool[q]) == categories[j] ::
          MentionedBefore(category, categories[i], pool, q))
  }

  lemma MentionedStays(category: Url -> Category, c: Category, pool: seq<Url>, url: Url, q: nat)
    requires q <= |pool|
    ensures MentionedBefore(category, c, pool + [url], q) <==> MentionedBefore(category, c, pool, q)
  {
    var longer := pool + [url];
    if p :| 0 <= p < q && category(pool[p]) == c { assert category(longer[p]) == c; }
    if p :| 0 <= p < q && category(longer[p]) == c { assert category(pool[p]) == c; }
  }

  lemma MentionedNext(category: Url -> Category, c: Category, pool: seq<Url>, url: Url)
    ensures MentionedBefore(category, c, pool + [url], |pool| + 1)
       <==> MentionedBefore(category, c, pool, |pool|) || category(url) == c
  {
    var longer := pool + [url];
    MentionedStays(category, c, pool, url, |pool|);
    assert longer[|pool|] == url;
    if p :| 0 <= p < |longer| && category(longer[p]) == c {
      if p < |pool| { assert MentionedBefore(category, c, longer, |pool|); }
    }
    if category(url) == c { assert category(longer[|pool|]) == c; }
  }

  function WithCategory(categories: seq<Category>, c: Category): seq<Category> {
    if c in categories then categories else categories + [c]
  }

  lemma MentionsGrow(category: Url -> Category, categories: seq<Category>, pool: seq<Url>, url: Url)
    requires FirstMentions(category, categories, pool)
    ensures FirstMentions(category, WithCategory(categories, category(url)), pool + [url])
  {
    var c := category(url);
    var more, longer := WithCategory(categories, c), pool + [url];
    forall d ensures d in more <==> MentionedBefore(category, d, longer, |longer|) {
      MentionedNext(category, d, pool, url);
    }
    forall i, j, q | 0 <= i < j < |more| && 0 <= q < |longer| && category(longer[q]) == more[j]
      ensures MentionedBefore(category, more[i], longer, q)
    {
      assert more[i] == categories[i] && categories[i] in categories;
      MentionedStays(category, more[i], pool, url, q);
      if q < |pool| { LaterMention(category, categories, pool, j, q, more[j]); }
    }
  }

  lemma LaterMention(category: Url -> Category, categories: seq<Category>, pool: seq<Url>, j: nat, q: nat, c: Category)
    requires FirstMentions(category, categories, pool) && q < |pool| && category(pool[q]) == c
    requires j <= |categories| && (if j < |categories| then c == categories[j] else c !in categories)
    ensures j < |categories|
  {
    assert MentionedBefore(category, c, pool, |pool|);
  }

  /** The queues and categories after some of the pool. */
  ghost predicate Split(category: Url -> Category, queues: Queues, categories: seq<Category>, pool: seq<Url>) {
    && (forall c :: c in categories <==> c in queues) && (forall c :: c in queues ==> queues[c] != [])
    && Conserved(category, queues, [], pool) && FirstMentions(category, categories, pool)
  }

  lemma SplitGrows(category: Url -> Category, queues: Queues, categories: seq<Category>, pool: seq<Url>, url: Url,
                   more: Queues, names: seq<Category>)
    requires Split(category, queues, categories, pool) && names == WithCategory(categories, category(url))
    requires var c := category(url); more == queues[c := if c in queues then queues[c] + [url] else [url]]
    ensures Split(category, more, names, pool + [url])
  {
    AppendConserves(category, queues, pool, url);
    MentionsGrow(category, categories, pool, url);
  }

  /** One URL is put at the end of its category's queue, which is created when it is missing. */
  method Enqueue(category: Url -> Category, queues: Queues, categories: seq<Category>, url: Url, ghost pool: seq<Url>)
    returns (more: Queues, names: seq<Category>)
    requires Split(category, queues, categories, pool)
    ensures Split(category, more, names, pool + [url])
  {
    var c := category(url);
    if c !in queues {
      names := categories + [c];
      more := queues[c := [url]];
    } else {
      names := categories;
      more := queues[c := queues[c] + [url]];
    }
    SplitGrows(category, queues, categories, pool, url, more, names);
  }

  lemma SplitIsGrouped(category: Url -> Category, queues: Queues, categories: seq<Category>, pool: seq<Url>)
    requires Split(category, queues, categories, pool)
    ensures forall c :: c in queues ==> queues[c] == Group(category, c, pool)
  {
    forall c | c in queues ensures queues[c] == Group(category, c, pool) {
      assert Account(category, queues, [], c) == Group(category, c, pool);
    }
  }

  /** The pool split into one queue per category that it mentions, each queue in the pool's order. */
  method Distribute(category: Url -> Category, pool: seq<Url>) returns (queues: Queues, categories: seq<Category>)
    ensures Split(category, queues, categories, pool)
    ensures forall c :: c in queues ==> queues[c] == Group(category, c, pool)
  {
    queues, categories := map[], [];
    for i := 0 to |pool|
      invariant Split(category, queues, categories, pool[..i])
    {
      queues, categories := Enqueue(category, queues, categories, pool[i], pool[..i]);
      assert pool[..i + 1] == pool[..i] + [pool[i]];
    }
    assert pool[..|pool|] == pool;
    SplitIsGrouped(category, queues, categories, pool);
  }

  datatype Status = Idle | Scraping(category: Category) | Blocked(category: Category) | Done

  class SingleNodeScraper {
    const category: Url -> Category
    const domainOf: Url -> Domain
    var queues: Queues
    /** The keys of `queues`, in the order in which they were entered. */
    var categories: seq<Category>
    /** Requests by domain since the last block; a missing key reads as 0. */
    var domainReq: multiset<Domain>
    var urlsScraped: nat
    var blocks: nat
    var status: Status
    var running: bool
    ghost const pool: seq<Url>
    ghost var scraped: seq<Url>

    ghost predicate Valid()
      reads `queues, `categories, `domainReq, `urlsScraped, `blocks, `status, `scraped
    {
      && NoRepeats(categories) && (forall c :: c in categories <==> c in queues)
      && Conserved(category, queues, scraped, pool)
      && urlsScraped == |scraped|
      && blocks + |domainReq| <= urlsScraped
      && (status.Done? ==> forall c :: c in queues ==> queues[c] == [])
    }

    constructor (urlPool: seq<Url>, domainMap: map<Url, Category>, domainOf: Url -> Domain)
      ensures Valid() && pool == urlPool && scraped == [] && blocks == 0 && status == Idle && !running
      ensures category == CategoryIn(domainMap) && this.domainOf == domainOf
      ensures forall url :: category(url) == if url in domainMap then domainMap[url] else GENERAL
      ensures forall c :: c in queues ==> queues[c] != [] && queues[c] == Group(category, c, urlPool)
      ensures FirstMentions(category, categories, urlPool)
      ensures urlsScraped == 0 && domainReq == multiset{}
    {
      var filled, names := Distribute(CategoryIn(domainMap), urlPool);
      queues, categories := filled, names;
      category, this.domainOf := CategoryIn(domainMap), domainOf;
      pool, scraped := urlPool, [];
      domainReq, urlsScraped, blocks, status, running := multiset{}, 0, 0, Idle, false;
    }

    /** The next category with work, from the cursor on and wrapping; none exactly if all queues are empty. */
    method NextCategory(cursor: nat) returns (found: bool, c: Category, next: nat)
      requires Valid()
      ensures found ==> FirstWithWork(categories, queues, cursor, next) && c == At(categories, next - 1)
      ensures found ==> c in queues && queues[c] != []
      ensures !found ==> next == cursor + |categories|
      ensures !found <==> forall c :: c in queues ==> queues[c] == []
    {
      found, c, next := false, GENERAL, cursor;
      for i := 0 to |categories|
        invariant next == cursor + i && !found && NoneWithWork(categories, queues, cursor, next)
      {
        c := At(categories, next);
        next := next + 1;
        if queues[c] != [] {
          found := true;
          break;
        }
      }
      if !found { WindowIsAll(categories, queues, cursor); }
    }

    /**
     The scraping loop. It ends on every path; left alone, it ends done, with every URL of the
     pool scraped. No more than twice the pool's length of attempts are made, stopped or not.
     */
    method Run() returns (ghost visits: seq<Visit>, ghost last: nat)
      requires Valid() && status == Idle
      modifies `queues, `status, `domainReq, `blocks, `urlsScraped, `scraped, `running
      ensures Valid()
      ensures running ==> status == Done
      ensures status == Done ==> urlsScraped == |pool| && multiset(scraped) == multiset(pool)
      ensures multiset(scraped) <= multiset(pool) && old(scraped) <= scraped
      ensures Told(categories, old(queues), old(scraped), visits, queues, last, scraped)
      ensures |visits| == (urlsScraped - old(urlsScraped)) + (blocks - old(blocks))
      ensures urlsScraped + blocks <= 2 * |pool|
    {
      var cursor := 0;
      visits, last := [], 0;
      WithinPool();
      while running
        invariant Valid() && status != Done && urlsScraped <= |pool| && old(scraped) <= scraped
        invariant Told(categories, old(queues), old(scraped), visits, queues, cursor, scraped) && last == cursor
        invariant |visits| == (urlsScraped - old(urlsScraped)) + (blocks - old(blocks))
        decreases |pool| - urlsScraped, |domainReq|
      {
        var found;
        found, cursor, visits := Iterate(cursor, old(queues), old(scraped), visits);
        if !found { break; }
        last := cursor;
      }
      WithinPool();
    }

    method MayStop()
      modifies `running
      ensures running ==> old(running)
    {
      var stop: bool := *;
      if stop { running := false; }
    }

    /** One iteration of the loop; the scraper may be told to stop meanwhile. */
    method Iterate(cursor: nat, ghost start: Queues, ghost had: seq<Url>, ghost visits: seq<Visit>)
      returns (found: bool, next: nat, ghost told: seq<Visit>)
      requires Valid() && status != Done
      requires Told(categories, start, had, visits, queues, cursor, scraped)
      modifies `queues, `status, `domainReq, `blocks, `urlsScraped, `scraped, `running
      ensures Valid() && found == (status != Done) && urlsScraped <= |pool|
      ensures Told(categories, start, had, told, queues, if found then next else cursor, scraped)
      ensures |told| - |visits| == urlsScraped + blocks - old(urlsScraped + blocks)
      ensures urlsScraped >= old(urlsScraped) && old(scraped) <= scraped
      ensures found && urlsScraped == old(urlsScraped) ==> |domainReq| < old(|domainReq|)
    {
      MayStop();
      found, next, told := TellTurn(cursor, start, had, visits);
    }

    /** One turn of the loop, and the story of the run with it. */
    method TellTurn(cursor: nat, ghost start: Queues, ghost had: seq<Url>, ghost visits: seq<Visit>)
      returns (found: bool, next: nat, ghost told: seq<Visit>)
      requires Valid() && status != Done
      requires Told(categories, start, had, visits, queues, cursor, scraped)
      modifies `queues, `status, `domainReq, `blocks, `urlsScraped, `scraped
      ensures Valid() && found == (status != Done) && urlsScraped <= |pool|
      ensures Told(categories, start, had, told, queues, if found then next else cursor, scraped)
      ensures |told| - |visits| == urlsScraped + blocks - old(urlsScraped + blocks)
      ensures urlsScraped >= old(urlsScraped) && old(scraped) <= scraped
      ensures found && urlsScraped == old(urlsScraped) ==> |domainReq| < old(|domainReq|)
    {
      var blocked;
      found, blocked, next := Turn(cursor);
      told := visits;
      if found {
        ghost var visit := Visit(old(queues), cursor, next, blocked);
        TurnTold(categories, start, had, visits, visit, old(scraped));
        told := visits + [visit];
      }
    }

    /** One turn of the loop: an attempt on the next category with work, or the end of the work. */
    method Turn(cursor: nat) returns (found: bool, blocked: bool, next: nat)
      requires Valid() && status != Done
      modifies `queues, `status, `domainReq, `blocks, `urlsScraped, `scraped
      ensures Valid() && found == (status != Done) && urlsScraped <= |pool|
      ensures !found ==> queues == old(queues) && scraped == old(scraped) && blocks == old(blocks)
      ensures found ==> var v := Visit(old(queues), cursor, next, blocked);
        && Found(categories, v) && queues == After(categories, v) && scraped == old(scraped) + TakenBy(categories, v)
        && status == (if blocked then Blocked(Served(categories, v)) else Scraping(Served(categories, v)))
        && blocks == old(blocks) + (if blocked then 1 else 0)
      ensures found && blocked ==> |domainReq| < old(|domainReq|)
    {
      var c;
      found, c, next := NextCategory(cursor);
      blocked := false;
      if found {
        blocked := Attempt(c);
      } else {
        status := Done;
      }
      WithinPool();
    }

    lemma WithinPool()
      requires Valid()
      ensures multiset(scraped) <= multiset(pool) && urlsScraped <= |pool| && blocks <= urlsScraped
      ensures status == Done ==> urlsScraped == |pool| && multiset(scraped) == multiset(pool)
    {
      ScrapedWithinPool(category, queues, scraped, pool);
      if status == Done { EmptyMeansScraped(category, queues, scraped, pool); }
    }

    /** One URL of a category, taken from the front: a block puts it back there, a success counts it. */
    method Attempt(c: Category) returns (blocked: bool)
      requires Valid() && status != Done && c in queues && queues[c] != []
      modifies `queues, `status, `domainReq, `blocks, `urlsScraped, `scraped
      ensures Valid()
      ensures status == if blocked then Blocked(c) else Scraping(c)
      ensures blocked ==> queues == old(queues) && scraped == old(scraped) && blocks == old(blocks) + 1
      ensures blocked ==> |domainReq| < old(|domainReq|)
      ensures var domain := domainOf(old(queues[c][0]));
        blocked ==> old(domainReq[domain]) > 0 && domainReq == old(domainReq)[domain := 0]
      ensures !blocked ==> scraped == old(scraped) + [old(queues[c][0])] && blocks == old(blocks)
      ensures !blocked ==> queues == old(queues)[c := old(queues[c][1..])]
      ensures var domain := domainOf(old(queues[c][0]));
        !blocked ==> domainReq == old(domainReq)[domain := old(domainReq[domain]) + 1]
    {
      ghost var before := queues;
      var url := queues[c][0];
      queues := queues[c := queues[c][1..]];
      var domain := domainOf(url);
      status := Scraping(c);
      var requestCount := domainReq[domain];
      blocked := IpBlockFires(requestCount);
      if blocked {
        Block(c, url, domain, before);
      } else {
        Succeed(c, url, domain, before);
      }
    }

    /** A URL was taken off the front of its queue and is in hand. */
    ghost predicate InHand(c: Category, url: Url, before: Queues)
      reads this
    {
      && c in before && before[c] != [] && url == before[c][0] && queues == before[c := before[c][1..]]
      && NoRepeats(categories) && (forall c :: c in categories <==> c in before)
      && Conserved(category, before, scraped, pool)
      && urlsScraped == |scraped| && blocks + |domainReq| <= urlsScraped
      && status == Scraping(c)
    }

    method Block(c: Category, url: Url, domain: Domain, ghost before: Queues)
      requires InHand(c, url, before) && domainReq[domain] > 0
      modifies `blocks, `status, `domainReq, `queues
      ensures Valid() && queues == before && status == Blocked(c) && |domainReq| < old(|domainReq|)
      ensures blocks == old(blocks) + 1 && domainReq == old(domainReq)[domain := 0]
    {
      blocks := blocks + 1;
      status := Blocked(c);
      domainReq := domainReq[domain := 0];
      queues := queues[c := [url] + queues[c]];
      PutBackRestores(before, c);
    }

    method Succeed(c: Category, url: Url, domain: Domain, ghost before: Queues)
      requires InHand(c, url, before)
      modifies `domainReq, `urlsScraped, `scraped
      ensures Valid() && scraped == old(scraped) + [url]
      ensures domainReq == old(domainReq)[domain := old(domainReq[domain]) + 1]
    {
      ScrapeConserves(category, before, scraped, pool, c);
      domainReq := domainReq[domain := domainReq[domain] + 1];
      urlsScraped := urlsScraped + 1;
      scraped := scraped + [url];
    }
  }
}

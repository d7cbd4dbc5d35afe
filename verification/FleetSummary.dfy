/** The summary of a completed race: it follows from the pool alone, whatever the workers did. */
module FleetSummary {
  import opened Common
  import opened Groups
  import opened Gathering
  import opened Permutations
  import opened Urls
  import opened Fleet
  import opened FleetRuns
  import opened FleetAccounts
  import opened MapReduce

  /** What fetching a URL yields; the same URL always yields the same page. */
  datatype Page = Page(quality: real, words: nat)

  /** A stored result, its page merged with its category. */
  function Stored(pages: Url -> Page): Result -> Item {
    (r: Result) => Item(Some(r.category), Some(pages(r.url).quality), Some(pages(r.url).words))
  }

  /** The result that a URL of the pool must yield. */
  function Expected(pages: Url -> Page, category: Url -> Category): Url -> Item {
    (url: Url) => Item(Some(category(url)), Some(pages(url).quality), Some(pages(url).words))
  }

  lemma StoredAsExpected(setup: Setup, pages: Url -> Page, results: seq<Result>)
    requires forall r :: r in results ==> r.category == setup.category(r.url)
    ensures Mapped(Stored(pages), results) == Mapped(Expected(pages, setup.category), Reported(results))
  {
    forall i | 0 <= i < |results|
      ensures Mapped(Stored(pages), results)[i] == Mapped(Expected(pages, setup.category), Reported(results))[i]
    {
      assert results[i] in results;
    }
  }

  /** Two complete runs over one pool, with any workers, kills and steals, have the same summary: the pool's. */
  lemma CompleteSummary(setup: Setup, pool: seq<Url>, f: State, pages: Url -> Page, round: Rounding, c: Category)
    requires Reachable(setup, pool, f)
    requires forall name :: name in f.shards ==> f.shards[name] == []
    requires forall i :: 0 <= i < |f.workers| ==> Hand(f.workers[i]) == multiset{}
    ensures StatsOf(round, Group(CategoryOf, c, Mapped(Stored(pages), f.results)))
         == StatsOf(round, Group(CategoryOf, c, Mapped(Expected(pages, setup.category), pool)))
  {
    CompleteIff(setup, pool, f);
    AccountsAlways(setup, pool, f);
    StoredAsExpected(setup, pages, f.results);
    MappedPermuted(Expected(pages, setup.category), Reported(f.results), pool);
    OrderDoesNotMatter(round, Mapped(Stored(pages), f.results), Mapped(Expected(pages, setup.category), pool), c);
  }

  /** In particular each category's item count is the number of URLs that the pool has in that category. */
  lemma CompleteCounts(setup: Setup, pool: seq<Url>, f: State, pages: Url -> Page, round: Rounding, c: Category)
    requires Reachable(setup, pool, f)
    requires forall name :: name in f.shards ==> f.shards[name] == []
    requires forall i :: 0 <= i < |f.workers| ==> Hand(f.workers[i]) == multiset{}
    ensures StatsOf(round, Group(CategoryOf, c, Mapped(Stored(pages), f.results))).itemCount
         == |Group(setup.category, c, pool)|
  {
    CompleteSummary(setup, pool, f, pages, round, c);
    GroupSizeOfMapped(pages, setup.category, pool, c);
  }

  /** And each category's word total is that of the pages of its URLs in the pool. */
  lemma CompleteWords(setup: Setup, pool: seq<Url>, f: State, pages: Url -> Page, round: Rounding, c: Category)
    requires Reachable(setup, pool, f)
    requires forall name :: name in f.shards ==> f.shards[name] == []
    requires forall i :: 0 <= i < |f.workers| ==> Hand(f.workers[i]) == multiset{}
    ensures StatsOf(round, Group(CategoryOf, c, Mapped(Stored(pages), f.results))).totalWords
         == Total((url: Url) => pages(url).words, Group(setup.category, c, pool))
  {
    CompleteSummary(setup, pool, f, pages, round, c);
    WordsOfMapped(pages, setup.category, pool, c);
  }

  lemma {:induction false} WordsOfMapped(pages: Url -> Page, category: Url -> Category, pool: seq<Url>, c: Category)
    ensures Total(WordsOf, Group(CategoryOf, c, Mapped(Expected(pages, category), pool)))
         == Total((url: Url) => pages(url).words, Group(category, c, pool))
    decreases |pool|
  {
    if pool != [] {
      var m := |pool| - 1;
      var items := Mapped(Expected(pages, category), pool);
      WordsOfMapped(pages, category, pool[..m], c);
      assert items[..m] == Mapped(Expected(pages, category), pool[..m]);
      TotalOneMore(WordsOf, Group(CategoryOf, c, items[..m]), items[m]);
      TotalOneMore((url: Url) => pages(url).words, Group(category, c, pool[..m]), pool[m]);
    }
  }

  lemma {:induction false} GroupSizeOfMapped(pages: Url -> Page, category: Url -> Category, pool: seq<Url>, c: Category)
    ensures |Group(CategoryOf, c, Mapped(Expected(pages, category), pool))| == |Group(category, c, pool)|
    decreases |pool|
  {
    if pool != [] {
      var m := |pool| - 1;
      var items := Mapped(Expected(pages, category), pool);
      GroupSizeOfMapped(pages, category, pool[..m], c);
      assert items[..m] == Mapped(Expected(pages, category), pool[..m]);
    }
  }
}

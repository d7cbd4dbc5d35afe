/**
 The summary after the race: results are grouped by category and each group is reduced to
 its counts, sums and averages. Rounding to some decimals is any function.
 */
module MapReduce {
  import opened Common
  import opened Groups
  import opened Gathering
  import opened Permutations
  import opened Urls

  /** A stored result as the summary reads it; a missing key has a default. */
  datatype Item = Item(category: Option<Category>, quality: Option<real>, words: Option<nat>)

  function CategoryOf(i: Item): Category { if i.category.Some? then i.category.value else GENERAL }

  function QualityOf(i: Item): real { if i.quality.Some? then i.quality.value else 0.0 }

  function WordsOf(i: Item): nat { if i.words.Some? then i.words.value else 0 }

  /** A number rounded to some decimals. */
  type Rounding = (real, nat) -> real

  datatype Stats = Stats(itemCount: nat, avgQuality: real, totalWords: nat, avgWords: real)

  function Quality(items: seq<Item>): real
    decreases |items|
  {
    if items == [] then 0.0 else Quality(items[..|items| - 1]) + QualityOf(items[|items| - 1])
  }

  function Average(sum: real, count: nat): real { sum / (if count > 1 then count else 1) as real }

  function StatsOf(round: Rounding, items: seq<Item>): Stats {
    var words := Total(WordsOf, items);
    Stats(|items|, round(Average(Quality(items), |items|), 3), words, round(Average(words as real, |items|), 1))
  }

  /** A missing category, quality or word count is read as general, 0.0 or 0. */
  lemma MissingReadsAs(i: Item)
    ensures CategoryOf(i) == GENERAL || i.category.Some?
    ensures i.category.Some? ==> CategoryOf(i) == i.category.value
    ensures QualityOf(i) == 0.0 || i.quality.Some?
    ensures i.quality.Some? ==> QualityOf(i) == i.quality.value
    ensures WordsOf(i) == 0 || i.words.Some?
    ensures i.words.Some? ==> WordsOf(i) == i.words.value
  {
  }

  /** One item more adds its quality and its words. */
  lemma OneMoreItem(items: seq<Item>, i: Item)
    ensures Quality([]) == 0.0 && Total(WordsOf, []) == 0
    ensures Quality(items + [i]) == Quality(items) + QualityOf(i)
    ensures Total(WordsOf, items + [i]) == Total(WordsOf, items) + WordsOf(i)
  {
    assert (items + [i])[..|items|] == items;
  }

  /** The number that gives the sum when it is taken as often as there are items, and 0.0 for none. */
  ghost predicate IsAverage(average: real, sum: real, count: nat) {
    if count == 0 then average == 0.0 else average * count as real == sum
  }

  lemma AverageIs(sum: real, count: nat, average: real)
    requires IsAverage(average, sum, count) && (count == 0 ==> sum == 0.0)
    ensures Average(sum, count) == average
  {
    if count > 0 { QuotientIs(sum, count as real, average); }
  }

  /** The statistics in terms of the averages themselves, whatever way they are computed. */
  lemma StatsAre(round: Rounding, items: seq<Item>, quality: real, words: real)
    requires IsAverage(quality, Quality(items), |items|)
    requires IsAverage(words, Total(WordsOf, items) as real, |items|)
    ensures StatsOf(round, items) == Stats(|items|, round(quality, 3), Total(WordsOf, items), round(words, 1))
  {
    AverageIs(Quality(items), |items|, quality);
    AverageIs(Total(WordsOf, items) as real, |items|, words);
  }

  lemma QuotientIs(sum: real, n: real, q: real)
    requires n > 0.0
    ensures sum / n == q <==> q * n == sum
  {
    var d := sum / n;
    assert d * n == sum;
    if q * n == sum {
      assert (q - d) * n == 0.0;
    }
  }

  method Shuffle(results: seq<Item>) returns (mapped: map<Category, seq<Item>>)
    ensures forall c :: c in mapped <==> exists r :: r in results && CategoryOf(r) == c
    ensures forall c :: c in mapped ==> mapped[c] == Group(CategoryOf, c, results)
  {
    mapped := map[];
    for i := 0 to |results|
      invariant forall c :: c in mapped ==> mapped[c] == Group(CategoryOf, c, results[..i]) && mapped[c] != []
      invariant forall c :: c !in mapped ==> Group(CategoryOf, c, results[..i]) == []
    {
      var c := CategoryOf(results[i]);
      ghost var before := mapped;
      mapped := mapped[c := (if c in mapped then mapped[c] else []) + [results[i]]];
      forall other
        ensures Group(CategoryOf, other, results[..i + 1]) == if other in mapped then mapped[other] else []
      {
        GroupStep(CategoryOf, other, results, i);
        assert other !in before ==> Group(CategoryOf, other, results[..i]) == [];
      }
    }
    assert results[..|results|] == results;
    forall c ensures c in mapped <==> exists r :: r in results && CategoryOf(r) == c {
      EmptyGroupIff(results, c);
    }
  }

  lemma {:induction false} NoneInGroup(results: seq<Item>, c: Category)
    requires forall r :: r in results ==> CategoryOf(r) != c
    ensures Group(CategoryOf, c, results) == []
    decreases |results|
  {
    if results != [] { NoneInGroup(results[..|results| - 1], c); }
  }

  lemma EmptyGroupIff(results: seq<Item>, c: Category)
    ensures Group(CategoryOf, c, results) == [] <==> forall r :: r in results ==> CategoryOf(r) != c
  {
    if r :| r in results && CategoryOf(r) == c {
      GroupCounts(CategoryOf, c, results, r);
      assert multiset(Group(CategoryOf, c, results))[r] > 0;
    } else {
      NoneInGroup(results, c);
    }
  }

  /** One entry per category that occurs, and no other, reduced from exactly the results of that category. */
  method RunMapReduce(round: Rounding, results: seq<Item>) returns (reduced: map<Category, Stats>)
    ensures forall c :: c in reduced <==> exists r :: r in results && CategoryOf(r) == c
    ensures forall c :: c in reduced ==> reduced[c] == StatsOf(round, Group(CategoryOf, c, results))
  {
    var mapped := Shuffle(results);
    reduced := map[];
    var todo := mapped.Keys;
    while todo != {}
      invariant todo <= mapped.Keys && reduced.Keys == mapped.Keys - todo
      invariant forall c :: c in reduced ==> reduced[c] == StatsOf(round, mapped[c])
      decreases |todo|
    {
      var c := Take(todo);
      var stats := Reduce(round, mapped[c]);
      reduced := reduced[c := stats];
      todo := todo - {c};
    }
  }

  method Reduce(round: Rounding, items: seq<Item>) returns (stats: Stats)
    ensures stats == StatsOf(round, items)
  {
    var quality, words := Sums(items);
    stats := Stats(|items|, round(Average(quality, |items|), 3), words, round(Average(words as real, |items|), 1));
  }

  method Sums(items: seq<Item>) returns (quality: real, words: nat)
    ensures quality == Quality(items) && words == Total(WordsOf, items)
  {
    quality, words := 0.0, 0;
    for i := 0 to |items|
      invariant quality == Quality(items[..i]) && words == Total(WordsOf, items[..i])
    {
      assert items[..i + 1][..i] == items[..i];
      quality := quality + QualityOf(items[i]);
      words := words + WordsOf(items[i]);
    }
    assert items[..|items|] == items;
  }

  // -------------------------------------------------------- the order of the results does not matter

  lemma {:induction false} WithoutSums(items: seq<Item>, i: nat)
    requires i < |items|
    ensures Quality(items) == Quality(Without(items, i)) + QualityOf(items[i])
    ensures Total(WordsOf, items) == Total(WordsOf, Without(items, i)) + WordsOf(items[i])
    decreases |items|
  {
    var m := |items| - 1;
    if i == m {
      assert Without(items, i) == items[..m];
    } else {
      WithoutSums(items[..m], i);
      var rest := Without(items, i);
      assert rest[..m - 1] == Without(items[..m], i) && rest[m - 1] == items[m];
    }
  }

  /** Permuted items have the same statistics. */
  lemma {:induction false} PermutedStats(a: seq<Item>, b: seq<Item>)
    requires multiset(a) == multiset(b)
    ensures |a| == |b| && Quality(a) == Quality(b) && Total(WordsOf, a) == Total(WordsOf, b)
    decreases |a|
  {
    SameLength(a, b);
    if a != [] {
      var m := |a| - 1;
      var i := PlaceOf(a, b);
      LastRemoved(a, b, i);
      PermutedStats(a[..m], Without(b, i));
      WithoutSums(b, i);
    }
  }

  /** The summary depends on which results were stored, not on their order: any interleaving gives the same. */
  lemma OrderDoesNotMatter(round: Rounding, a: seq<Item>, b: seq<Item>, c: Category)
    requires multiset(a) == multiset(b)
    ensures StatsOf(round, Group(CategoryOf, c, a)) == StatsOf(round, Group(CategoryOf, c, b))
  {
    SameGroup(CategoryOf, a, b, c);
    PermutedStats(Group(CategoryOf, c, a), Group(CategoryOf, c, b));
  }
}

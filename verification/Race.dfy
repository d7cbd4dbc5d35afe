/** The whole way of a URL: from the raw pool through the Bloom pre-pass and the fleet to the results. */
module Race {
  import opened Common
  import opened Subsequences
  import opened Permutations
  import opened Bloom
  import opened UrlPool
  import opened Urls
  import opened Fleet
  import opened FleetRuns

  function UrlOf(text: string): Url { Url(text) }

  /** The pool that the engine hands to the fleet. */
  ghost function FilteredPool(digest: Digest, bitSize: nat, k: nat, raw: seq<string>): seq<Url>
    requires bitSize > 0
  {
    Mapped(UrlOf, Sifted(digest, bitSize, k, raw))
  }

  lemma FilteredHasNoRepeats(digest: Digest, bitSize: nat, k: nat, raw: seq<string>)
    requires bitSize > 0
    ensures NoRepeats(FilteredPool(digest, bitSize, k, raw))
    ensures forall url :: url in FilteredPool(digest, bitSize, k, raw) ==> url.text in raw
  {
    SiftedPool(digest, bitSize, k, raw);
    KeptFromPool(digest, bitSize, k, raw);
    var kept, pool := Sifted(digest, bitSize, k, raw), FilteredPool(digest, bitSize, k, raw);
    forall i, j | 0 <= i < j < |pool| ensures pool[i] != pool[j] {
      assert pool[i].text == kept[i] && pool[j].text == kept[j];
    }
    forall url | url in pool ensures url.text in raw {
      var i :| 0 <= i < |pool| && pool[i] == url;
      assert url.text == kept[i] && kept[i] in kept;
    }
  }

  /** However often the raw pool has a URL and whatever the workers do, no URL is in the results twice. */
  lemma NoUrlIsScrapedTwice(digest: Digest, bitSize: nat, k: nat, raw: seq<string>,
                            setup: Setup, f: State)
    requires bitSize > 0 && Reachable(setup, FilteredPool(digest, bitSize, k, raw), f)
    ensures NoRepeats(Reported(f.results)) && forall url :: url in Reported(f.results) ==> url.text in raw
  {
    FilteredHasNoRepeats(digest, bitSize, k, raw);
    ExactlyOnce(setup, FilteredPool(digest, bitSize, k, raw), f);
  }
}

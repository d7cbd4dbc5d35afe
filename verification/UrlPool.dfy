/** The pre-pass over the raw pool: a URL is kept unless the Bloom filter already reports it. */
module UrlPool {
  import opened Common
  import opened Subsequences
  import opened Bloom

  /** The URL's positions are all taken by the URLs kept before it. */
  ghost predicate Covered(digest: Digest, bitSize: nat, k: nat, kept: seq<string>, url: string)
    requires bitSize > 0
  {
    ItemPositions(digest, bitSize, k, url) <= Filled(digest, bitSize, k, kept)
  }

  /** The kept URLs, as an independent definition of the pre-pass. */
  ghost function Sifted(digest: Digest, bitSize: nat, k: nat, raw: seq<string>): seq<string>
    requires bitSize > 0
    decreases |raw|
  {
    if raw == [] then []
    else
      var m := |raw| - 1;
      var kept := Sifted(digest, bitSize, k, raw[..m]);
      if Covered(digest, bitSize, k, kept, raw[m]) then kept else kept + [raw[m]]
  }

  method Filter(raw: seq<string>, bloom: BloomFilter) returns (filtered: seq<string>)
    requires bloom.Valid() && bloom.Marked() == {}
    modifies bloom, bloom.bits
    ensures bloom.Valid() && filtered == Sifted(bloom.digest, bloom.bitSize, bloom.hashCount, raw)
    ensures bloom.Marked() == Filled(bloom.digest, bloom.bitSize, bloom.hashCount, filtered)
    ensures bloom.itemCount == old(bloom.itemCount) + |filtered|
    ensures bloom.duplicatesCaught == old(bloom.duplicatesCaught) + |raw| - |filtered|
  {
    filtered := [];
    for i := 0 to |raw|
      invariant bloom.Valid() && |filtered| <= i
      invariant filtered == Sifted(bloom.digest, bloom.bitSize, bloom.hashCount, raw[..i])
      invariant bloom.Marked() == Filled(bloom.digest, bloom.bitSize, bloom.hashCount, filtered)
      invariant bloom.itemCount == old(bloom.itemCount) + |filtered|
      invariant bloom.duplicatesCaught == old(bloom.duplicatesCaught) + i - |filtered|
    {
      assert raw[..i + 1][..i] == raw[..i];
      var seen := bloom.Contains(raw[i]);
      if seen {
        bloom.duplicatesCaught := bloom.duplicatesCaught + 1;
      } else {
        bloom.Add(raw[i]);
        FilledGrows(bloom.digest, bloom.bitSize, bloom.hashCount, filtered, raw[i]);
        filtered := filtered + [raw[i]];
      }
    }
    assert raw[..|raw|] == raw;
  }

  /** One URL more: it is kept unless it is covered. */
  lemma SiftedStep(digest: Digest, bitSize: nat, k: nat, raw: seq<string>, url: string)
    requires bitSize > 0
    ensures var kept := Sifted(digest, bitSize, k, raw);
      Sifted(digest, bitSize, k, raw + [url]) == if Covered(digest, bitSize, k, kept, url) then kept else kept + [url]
  {
    assert (raw + [url])[..|raw|] == raw;
  }

  lemma CoveredStays(digest: Digest, bitSize: nat, k: nat, kept: seq<string>, more: string, url: string)
    requires bitSize > 0 && Covered(digest, bitSize, k, kept, url)
    ensures Covered(digest, bitSize, k, kept + [more], url)
  {
    FilledGrows(digest, bitSize, k, kept, more);
  }

  lemma KeptIsCovered(digest: Digest, bitSize: nat, k: nat, kept: seq<string>, url: string)
    requires bitSize > 0 && url in kept
    ensures Covered(digest, bitSize, k, kept, url)
  {
    AddedIsFilled(digest, bitSize, k, kept, url);
  }

  /** What a filtered pool is of its raw pool. */
  ghost predicate IsPool(digest: Digest, bitSize: nat, k: nat, raw: seq<string>, kept: seq<string>)
    requires bitSize > 0
  {
    && NoRepeats(kept) && Subsequence(kept, raw)
    && forall url :: url in raw ==> Covered(digest, bitSize, k, kept, url)
  }

  lemma DroppedKeepsPool(digest: Digest, bitSize: nat, k: nat, raw: seq<string>, kept: seq<string>, url: string)
    requires bitSize > 0 && IsPool(digest, bitSize, k, raw, kept) && Covered(digest, bitSize, k, kept, url)
    ensures IsPool(digest, bitSize, k, raw + [url], kept)
  {
    SubsequenceGrows(kept, raw, url);
  }

  lemma NewIsNoRepeat(digest: Digest, bitSize: nat, k: nat, kept: seq<string>, url: string)
    requires bitSize > 0 && NoRepeats(kept) && !Covered(digest, bitSize, k, kept, url)
    ensures NoRepeats(kept + [url])
  {
    if url in kept { KeptIsCovered(digest, bitSize, k, kept, url); }
  }

  lemma KeptKeepsPool(digest: Digest, bitSize: nat, k: nat, raw: seq<string>, kept: seq<string>, url: string)
    requires bitSize > 0 && IsPool(digest, bitSize, k, raw, kept) && !Covered(digest, bitSize, k, kept, url)
    ensures IsPool(digest, bitSize, k, raw + [url], kept + [url])
  {
    SubsequenceGrows(kept, raw, url);
    NewIsNoRepeat(digest, bitSize, k, kept, url);
    forall x | x in raw + [url] ensures Covered(digest, bitSize, k, kept + [url], x) {
      if x in raw { CoveredStays(digest, bitSize, k, kept, url, x); }
      else { KeptIsCovered(digest, bitSize, k, kept + [url], x); }
    }
  }

  /**
   The kept URLs have no repeats and keep the order of the pool; a URL that is not kept is
   covered by kept ones: a repeat of one of them, or a false positive.
   */
  lemma {:induction false} SiftedPool(digest: Digest, bitSize: nat, k: nat, raw: seq<string>)
    requires bitSize > 0
    ensures IsPool(digest, bitSize, k, raw, Sifted(digest, bitSize, k, raw))
    decreases |raw|
  {
    if raw != [] {
      var shorter, last := raw[..|raw| - 1], raw[|raw| - 1];
      SiftedPool(digest, bitSize, k, shorter);
      var before := Sifted(digest, bitSize, k, shorter);
      assert raw == shorter + [last];
      SiftedStep(digest, bitSize, k, shorter, last);
      if Covered(digest, bitSize, k, before, last) {
        DroppedKeepsPool(digest, bitSize, k, shorter, before, last);
      } else {
        KeptKeepsPool(digest, bitSize, k, shorter, before, last);
      }
    }
  }

  // -------------------------------------------------------- false positives

  /** The pre-pass reports a URL as seen although it occurs at position i for the first time. */
  ghost predicate FalsePositiveAt(digest: Digest, bitSize: nat, k: nat, raw: seq<string>, i: nat)
    requires bitSize > 0 && i < |raw|
  {
    raw[i] !in raw[..i] && Covered(digest, bitSize, k, Sifted(digest, bitSize, k, raw[..i]), raw[i])
  }

  lemma KeptFromPool(digest: Digest, bitSize: nat, k: nat, raw: seq<string>)
    requires bitSize > 0
    ensures forall url :: url in Sifted(digest, bitSize, k, raw) ==> url in raw
  {
    SiftedPool(digest, bitSize, k, raw);
    var kept := Sifted(digest, bitSize, k, raw);
    forall i | 0 <= i < |kept| ensures kept[i] in raw {
      var p := SubsequencePosition(kept, raw, i);
    }
  }

  /** The URL is not among the kept ones and never will be. */
  ghost predicate Lost(digest: Digest, bitSize: nat, k: nat, kept: seq<string>, url: string)
    requires bitSize > 0
  {
    url !in kept && Covered(digest, bitSize, k, kept, url)
  }

  lemma LostStays(digest: Digest, bitSize: nat, k: nat, raw: seq<string>, more: string, url: string)
    requires bitSize > 0 && Lost(digest, bitSize, k, Sifted(digest, bitSize, k, raw), url)
    ensures Lost(digest, bitSize, k, Sifted(digest, bitSize, k, raw + [more]), url)
  {
    SiftedStep(digest, bitSize, k, raw, more);
    CoveredStays(digest, bitSize, k, Sifted(digest, bitSize, k, raw), more, url);
  }

  lemma {:induction false} FalsePositiveIsLost(digest: Digest, bitSize: nat, k: nat, raw: seq<string>, i: nat)
    requires bitSize > 0 && i < |raw| && FalsePositiveAt(digest, bitSize, k, raw, i)
    ensures Lost(digest, bitSize, k, Sifted(digest, bitSize, k, raw), raw[i])
    decreases |raw|
  {
    var m := |raw| - 1;
    var shorter, last := raw[..m], raw[m];
    assert raw == shorter + [last];
    if i == m {
      SiftedStep(digest, bitSize, k, shorter, last);
      KeptFromPool(digest, bitSize, k, shorter);
    } else {
      assert shorter[..i] == raw[..i] && shorter[i] == raw[i];
      FalsePositiveIsLost(digest, bitSize, k, shorter, i);
      LostStays(digest, bitSize, k, shorter, last, raw[i]);
    }
  }

  ghost predicate AllKept(digest: Digest, bitSize: nat, k: nat, raw: seq<string>)
    requires bitSize > 0
  {
    forall url :: url in raw ==> url in Sifted(digest, bitSize, k, raw)
  }

  ghost predicate NoFalsePositive(digest: Digest, bitSize: nat, k: nat, raw: seq<string>)
    requires bitSize > 0
  {
    forall i :: 0 <= i < |raw| ==> !FalsePositiveAt(digest, bitSize, k, raw, i)
  }

  lemma AllKeptStep(digest: Digest, bitSize: nat, k: nat, raw: seq<string>, url: string)
    requires bitSize > 0 && AllKept(digest, bitSize, k, raw)
    requires !FalsePositiveAt(digest, bitSize, k, raw + [url], |raw|)
    ensures AllKept(digest, bitSize, k, raw + [url])
  {
    assert (raw + [url])[..|raw|] == raw;
    SiftedStep(digest, bitSize, k, raw, url);
  }

  lemma FewerFalsePositives(digest: Digest, bitSize: nat, k: nat, raw: seq<string>, m: nat)
    requires bitSize > 0 && m <= |raw| && NoFalsePositive(digest, bitSize, k, raw)
    ensures NoFalsePositive(digest, bitSize, k, raw[..m])
  {
    var shorter := raw[..m];
    forall i | 0 <= i < m ensures !FalsePositiveAt(digest, bitSize, k, shorter, i) {
      assert shorter[..i] == raw[..i] && shorter[i] == raw[i];
      assert !FalsePositiveAt(digest, bitSize, k, raw, i);
    }
  }

  lemma {:induction false} NoFalsePositiveKeepsAll(digest: Digest, bitSize: nat, k: nat, raw: seq<string>)
    requires bitSize > 0 && NoFalsePositive(digest, bitSize, k, raw)
    ensures AllKept(digest, bitSize, k, raw)
    decreases |raw|
  {
    if raw != [] {
      var m := |raw| - 1;
      var shorter, last := raw[..m], raw[m];
      assert raw == shorter + [last];
      FewerFalsePositives(digest, bitSize, k, raw, m);
      NoFalsePositiveKeepsAll(digest, bitSize, k, shorter);
      AllKeptStep(digest, bitSize, k, shorter, last);
    }
  }

  /** The pre-pass loses no URL exactly if it never reports a first occurrence as seen. */
  lemma NothingLostIff(digest: Digest, bitSize: nat, k: nat, raw: seq<string>)
    requires bitSize > 0
    ensures AllKept(digest, bitSize, k, raw) <==> NoFalsePositive(digest, bitSize, k, raw)
  {
    if i :| 0 <= i < |raw| && FalsePositiveAt(digest, bitSize, k, raw, i) {
      FalsePositiveIsLost(digest, bitSize, k, raw, i);
      assert raw[i] in raw;
    } else {
      NoFalsePositiveKeepsAll(digest, bitSize, k, raw);
    }
  }

  /** Of two different URLs the second one is lost exactly if the first one has all its positions. */
  lemma SecondIsLostIff(digest: Digest, bitSize: nat, k: nat, first: string, second: string)
    requires bitSize > 0 && k > 0 && first != second
    ensures FalsePositiveAt(digest, bitSize, k, [first, second], 1)
      <==> ItemPositions(digest, bitSize, k, second) <= ItemPositions(digest, bitSize, k, first)
  {
    var none: seq<string> := [];
    ItemPositionsIff(digest, bitSize, k, first, HashAt(digest, bitSize, first, 0));
    SiftedStep(digest, bitSize, k, none, first);
    FilledGrows(digest, bitSize, k, none, first);
    assert none + [first] == [first] && [first, second][..1] == [first];
  }

  /** A hash that sends everything to one position. */
  function Constant(): Digest { (item: string, seed: nat) => 0 }

  /** So for every size and hash count there is a hash and a pool that loses a URL. */
  lemma FalsePositivesHappen(bitSize: nat, k: nat)
    requires bitSize > 0 && k > 0
    ensures FalsePositiveAt(Constant(), bitSize, k, ["a", "b"], 1)
    ensures !AllKept(Constant(), bitSize, k, ["a", "b"])
  {
    assert "a"[0] != "b"[0];
    forall p | p in ItemPositions(Constant(), bitSize, k, "b") ensures p in ItemPositions(Constant(), bitSize, k, "a") {
      ItemPositionsIff(Constant(), bitSize, k, "b", p);
      ItemPositionsIff(Constant(), bitSize, k, "a", p);
      assert HashAt(Constant(), bitSize, "a", 0) == p;
    }
    SecondIsLostIff(Constant(), bitSize, k, "a", "b");
    NothingLostIff(Constant(), bitSize, k, ["a", "b"]);
  }
}

/**
 The Bloom filter, down to the bits of its bytes: the set bits are exactly the hash
 positions of what was added. The hash is any function of an item and a seed.
 */
module Bloom {
  import opened Common

  /** The number that the first eight digest bytes of "seed:item" stand for. */
  type Digest = (string, nat) -> nat

  function Mask(k: nat): bv8
    requires k < 8
  {
    1 << k
  }

  predicate Bit(b: bv8, k: nat)
    requires k < 8
  {
    b & Mask(k) != 0
  }

  /** The eight masks. */
  lemma MaskTable()
    ensures Mask(0) == 1 && Mask(1) == 2 && Mask(2) == 4 && Mask(3) == 8
    ensures Mask(4) == 16 && Mask(5) == 32 && Mask(6) == 64 && Mask(7) == 128
  {
  }

  lemma SetBits(b: bv8, k: nat, j: nat)
    requires k < 8 && j < 8
    ensures Bit(b | Mask(k), j) <==> Bit(b, j) || j == k
  {
    MaskTable();
    OrBits(b, Mask(k), j);
    assert Bit(Mask(k), j) <==> j == k;
  }

  lemma OrBits(b: bv8, c: bv8, j: nat)
    requires j < 8
    ensures Bit(b | c, j) <==> Bit(b, j) || Bit(c, j)
  {
    OrMasks(b, c, Mask(j));
  }

  lemma OrMasks(b: bv8, c: bv8, m: bv8)
    ensures (b | c) & m == (b & m) | (c & m)
  {
  }

  lemma SameBits(b: bv8, c: bv8)
    requires forall k :: 0 <= k < 8 ==> (Bit(b, k) <==> Bit(c, k))
    ensures b == c
  {
    MaskTable();
    assert Bit(b, 0) == Bit(c, 0) && Bit(b, 1) == Bit(c, 1) && Bit(b, 2) == Bit(c, 2) && Bit(b, 3) == Bit(c, 3);
    assert Bit(b, 4) == Bit(c, 4) && Bit(b, 5) == Bit(c, 5) && Bit(b, 6) == Bit(c, 6) && Bit(b, 7) == Bit(c, 7);
    SameMasked(b, c);
  }

  lemma SameMasked(b: bv8, c: bv8)
    requires (b & 1 != 0) == (c & 1 != 0) && (b & 2 != 0) == (c & 2 != 0)
    requires (b & 4 != 0) == (c & 4 != 0) && (b & 8 != 0) == (c & 8 != 0)
    requires (b & 16 != 0) == (c & 16 != 0) && (b & 32 != 0) == (c & 32 != 0)
    requires (b & 64 != 0) == (c & 64 != 0) && (b & 128 != 0) == (c & 128 != 0)
    ensures b == c
  {
  }

  // -------------------------------------------------------- the bytes as a set of positions

  predicate IsSet(bytes: seq<bv8>, p: nat) {
    p / 8 < |bytes| && Bit(bytes[p / 8], p % 8)
  }

  ghost function SetPositions(bytes: seq<bv8>): (r: set<nat>)
    ensures forall p: nat :: p in r <==> IsSet(bytes, p)
  {
    set p: nat | p < 8 * |bytes| && IsSet(bytes, p)
  }

  function HashAt(digest: Digest, bitSize: nat, item: string, seed: nat): nat
    requires bitSize > 0
  {
    digest(item, seed) % bitSize
  }

  /** The position is what is left of the digest, a number for each item and seed, after whole turns of the size. */
  lemma HashAtIs(digest: Digest, bitSize: nat, item: string, seed: nat, turns: nat, p: nat)
    requires p < bitSize && digest(item, seed) == bitSize * turns + p
    ensures HashAt(digest, bitSize, item, seed) == p
  {
    var d, q := digest(item, seed), digest(item, seed) / bitSize;
    assert d == bitSize * q + d % bitSize;
    assert bitSize * (turns - q) == bitSize * turns - bitSize * q;
    MultiplesAreFar(bitSize, turns - q);
  }

  /** The positions of an item under the first k seeds. */
  ghost function ItemPositions(digest: Digest, bitSize: nat, k: nat, item: string): set<nat>
    requires bitSize > 0
    decreases k
  {
    if k == 0 then {} else ItemPositions(digest, bitSize, k - 1, item) + {HashAt(digest, bitSize, item, k - 1)}
  }

  lemma {:induction false} ItemPositionsIff(digest: Digest, bitSize: nat, k: nat, item: string, p: nat)
    requires bitSize > 0
    ensures p in ItemPositions(digest, bitSize, k, item)
      <==> exists s :: 0 <= s < k && HashAt(digest, bitSize, item, s) == p
    ensures p in ItemPositions(digest, bitSize, k, item) ==> p < bitSize
    decreases k
  {
    if k > 0 { ItemPositionsIff(digest, bitSize, k - 1, item, p); }
  }

  lemma {:induction false} ItemPositionsSize(digest: Digest, bitSize: nat, k: nat, item: string)
    requires bitSize > 0
    ensures |ItemPositions(digest, bitSize, k, item)| <= k
    decreases k
  {
    if k > 0 { ItemPositionsSize(digest, bitSize, k - 1, item); }
  }

  lemma SettingOneAt(before: seq<bv8>, after: seq<bv8>, p: nat, q: nat)
    requires p / 8 < |before| && after == before[p / 8 := before[p / 8] | Mask(p % 8)]
    ensures IsSet(after, q) <==> IsSet(before, q) || q == p
  {
    if q / 8 == p / 8 {
      SetBits(before[p / 8], p % 8, q % 8);
      assert q == 8 * (q / 8) + q % 8 && p == 8 * (p / 8) + p % 8;
    }
  }

  lemma SettingOne(before: seq<bv8>, after: seq<bv8>, p: nat)
    requires p / 8 < |before| && after == before[p / 8 := before[p / 8] | Mask(p % 8)]
    ensures SetPositions(after) == SetPositions(before) + {p}
  {
    forall q: nat ensures q in SetPositions(after) <==> q in SetPositions(before) + {p} {
      SettingOneAt(before, after, p, q);
    }
  }

  // -------------------------------------------------------- the object

  class BloomFilter {
    const digest: Digest
    const bitSize: nat
    const hashCount: nat
    const bits: array<bv8>
    var itemCount: nat
    var duplicatesCaught: nat

    /** The bytes reach over the last position, and nothing beyond it is ever set. */
    ghost predicate Valid()
      reads bits
    {
      && bitSize > 0
      && bits.Length == bitSize / 8 + 1
      && forall p: nat :: IsSet(bits[..], p) ==> p < bitSize
    }

    ghost function Marked(): set<nat>
      reads bits
    {
      SetPositions(bits[..])
    }

    /** The sizes the program derives from a capacity and an error rate are taken as given. */
    constructor (digest: Digest, bitSize: nat, hashCount: nat)
      requires bitSize > 0
      ensures Valid() && fresh(bits) && Marked() == {}
      ensures this.digest == digest && this.bitSize == bitSize && this.hashCount == hashCount
      ensures itemCount == 0 && duplicatesCaught == 0
    {
      this.digest, this.bitSize, this.hashCount := digest, bitSize, hashCount;
      bits := new bv8[bitSize / 8 + 1](_ => 0);
      itemCount, duplicatesCaught := 0, 0;
      new;
      forall p: nat ensures !IsSet(bits[..], p) {
        assert Mask(p % 8) & 0 == 0;
      }
    }

    method SetPosition(pos: nat)
      requires Valid() && pos < bitSize
      modifies bits
      ensures Valid() && Marked() == old(Marked()) + {pos}
    {
      ghost var before := bits[..];
      bits[pos / 8] := bits[pos / 8] | Mask(pos % 8);
      SettingOne(before, bits[..], pos);
      forall p: nat | IsSet(bits[..], p) ensures p < bitSize {
        SettingOneAt(before, bits[..], pos, p);
      }
    }

    method Add(item: string)
      requires Valid()
      modifies bits, this`itemCount
      ensures Valid() && itemCount == old(itemCount) + 1
      ensures Marked() == old(Marked()) + ItemPositions(digest, bitSize, hashCount, item)
    {
      for seed := 0 to hashCount
        invariant Valid() && itemCount == old(itemCount)
        invariant Marked() == old(Marked()) + ItemPositions(digest, bitSize, seed, item)
      {
        SetPosition(HashAt(digest, bitSize, item, seed));
      }
      itemCount := itemCount + 1;
    }

    /** Membership: every position of the item is set. */
    method Contains(item: string) returns (found: bool)
      requires Valid()
      ensures found <==> ItemPositions(digest, bitSize, hashCount, item) <= Marked()
    {
      found := true;
      for seed := 0 to hashCount
        invariant found <==> ItemPositions(digest, bitSize, seed, item) <= Marked()
      {
        var pos := HashAt(digest, bitSize, item, seed);
        found := found && bits[pos / 8] & Mask(pos % 8) != 0;
        assert pos in Marked() <==> bits[pos / 8] & Mask(pos % 8) != 0;
      }
    }

    /** Refuses filters of another size, as the program's assertion does; the item count stays. */
    method Merge(other: BloomFilter) returns (ok: bool)
      requires Valid() && other.Valid()
      modifies bits
      ensures ok == (bitSize == other.bitSize) && Valid()
      ensures Marked() == if ok then old(Marked()) + old(other.Marked()) else old(Marked())
    {
      if bitSize != other.bitSize { return false; }
      ghost var mine, theirs := bits[..], other.bits[..];
      for i := 0 to bits.Length
        invariant forall k :: 0 <= k < i ==> bits[k] == mine[k] | theirs[k]
        invariant forall k :: i <= k < bits.Length ==> bits[k] == mine[k] && other.bits[k] == theirs[k]
      {
        bits[i] := bits[i] | other.bits[i];
      }
      MergedPositions(mine, theirs, bits[..]);
      forall p: nat | IsSet(bits[..], p) ensures p < bitSize {
        assert IsSet(mine, p) || IsSet(theirs, p);
      }
      return true;
    }

    method FillRatio() returns (ratio: real)
      requires Valid()
      ensures ratio == |Marked()| as real / bitSize as real
      ensures 0.0 <= ratio <= 1.0
    {
      var ones: nat := 0;
      for i := 0 to bits.Length
        invariant ones == |SetPositions(bits[..i])|
      {
        OnesOfNext(bits[..i], bits[i]);
        assert bits[..i + 1] == bits[..i] + [bits[i]];
        ones := ones + Ones(bits[i]);
      }
      assert bits[..bits.Length] == bits[..];
      MarkedBound(bits[..], bitSize);
      RatioBound(ones, bitSize);
      ratio := ones as real / bitSize as real;
    }
  }

  lemma RatioBound(a: nat, b: nat)
    requires a <= b && b > 0
    ensures 0.0 <= a as real / b as real <= 1.0
  {
  }

  lemma MergedPositions(mine: seq<bv8>, theirs: seq<bv8>, merged: seq<bv8>)
    requires |mine| == |theirs| == |merged|
    requires forall k :: 0 <= k < |merged| ==> merged[k] == mine[k] | theirs[k]
    ensures forall p: nat :: IsSet(merged, p) <==> IsSet(mine, p) || IsSet(theirs, p)
    ensures SetPositions(merged) == SetPositions(mine) + SetPositions(theirs)
  {
    forall p: nat ensures IsSet(merged, p) <==> IsSet(mine, p) || IsSet(theirs, p) {
      if p / 8 < |merged| { OrBits(mine[p / 8], theirs[p / 8], p % 8); }
    }
  }

  // -------------------------------------------------------- counting bits

  /** The number of ones in a byte. */
  function Ones(b: bv8): nat { OnesBelow(b, 8) }

  function OnesBelow(b: bv8, k: nat): nat
    requires k <= 8
  {
    if k == 0 then 0 else OnesBelow(b, k - 1) + if Bit(b, k - 1) then 1 else 0
  }

  /** The set positions below n. */
  ghost function SetBelow(bytes: seq<bv8>, n: nat): set<nat> {
    set p: nat | p < n && p in SetPositions(bytes)
  }

  lemma SetBelowStep(bytes: seq<bv8>, n: nat)
    ensures |SetBelow(bytes, n + 1)| == |SetBelow(bytes, n)| + if n in SetPositions(bytes) then 1 else 0
  {
    assert SetBelow(bytes, n + 1) == SetBelow(bytes, n) + if n in SetPositions(bytes) then {n} else {};
  }

  lemma BitOfLast(bytes: seq<bv8>, b: bv8, k: nat)
    requires k < 8
    ensures 8 * |bytes| + k in SetPositions(bytes + [b]) <==> Bit(b, k)
  {
    var p := 8 * |bytes| + k;
    assert p / 8 == |bytes| && p % 8 == k;
  }

  lemma LowPositionsStay(bytes: seq<bv8>, more: seq<bv8>)
    ensures SetBelow(bytes + more, 8 * |bytes|) == SetPositions(bytes)
  {
    forall p: nat ensures p in SetBelow(bytes + more, 8 * |bytes|) <==> p in SetPositions(bytes) {
      if p < 8 * |bytes| { assert p / 8 < |bytes|; }
    }
  }

  lemma {:induction false} OnesBelowOfNext(bytes: seq<bv8>, b: bv8, k: nat)
    requires k <= 8
    ensures |SetBelow(bytes + [b], 8 * |bytes| + k)| == |SetPositions(bytes)| + OnesBelow(b, k)
    decreases k
  {
    if k == 0 {
      LowPositionsStay(bytes, [b]);
    } else {
      OnesBelowOfNext(bytes, b, k - 1);
      BitOfLast(bytes, b, k - 1);
      SetBelowStep(bytes + [b], 8 * |bytes| + (k - 1));
    }
  }

  lemma OnesOfNext(bytes: seq<bv8>, b: bv8)
    ensures |SetPositions(bytes + [b])| == |SetPositions(bytes)| + Ones(b)
  {
    var more := bytes + [b];
    OnesBelowOfNext(bytes, b, 8);
    LowPositionsStay(more, []);
    assert more + [] == more && 8 * |more| == 8 * |bytes| + 8;
  }

  lemma MarkedBound(bytes: seq<bv8>, bitSize: nat)
    requires forall p: nat :: IsSet(bytes, p) ==> p < bitSize
    ensures |SetPositions(bytes)| <= bitSize
  {
    BelowSize(bitSize);
    SubsetSize(SetPositions(bytes), Below(bitSize));
  }

  ghost function Below(n: nat): (r: set<nat>)
    ensures forall p: nat :: p in r <==> p < n
  {
    if n == 0 then {} else Below(n - 1) + {n - 1}
  }

  lemma {:induction false} BelowSize(n: nat)
    ensures |Below(n)| == n
  {
    if n > 0 { BelowSize(n - 1); }
  }

  /** Filters of the same length with the same set positions are equal byte by byte. */
  lemma PositionsDetermineBytes(a: seq<bv8>, b: seq<bv8>)
    requires |a| == |b| && SetPositions(a) == SetPositions(b)
    ensures a == b
  {
    forall i | 0 <= i < |a| ensures a[i] == b[i] {
      forall k | 0 <= k < 8 ensures Bit(a[i], k) <==> Bit(b[i], k) {
        var p: nat := 8 * i + k;
        assert p / 8 == i && p % 8 == k;
        assert p in SetPositions(a) <==> p in SetPositions(b);
      }
      SameBits(a[i], b[i]);
    }
  }

  // -------------------------------------------------------- what a filter holds after any additions

  /** The positions of a list of items. */
  ghost function Filled(digest: Digest, bitSize: nat, k: nat, items: seq<string>): set<nat>
    requires bitSize > 0
    decreases |items|
  {
    if items == [] then {}
    else Filled(digest, bitSize, k, items[..|items| - 1]) + ItemPositions(digest, bitSize, k, items[|items| - 1])
  }

  lemma FilledGrows(digest: Digest, bitSize: nat, k: nat, items: seq<string>, item: string)
    requires bitSize > 0
    ensures Filled(digest, bitSize, k, items + [item])
      == Filled(digest, bitSize, k, items) + ItemPositions(digest, bitSize, k, item)
  {
    assert (items + [item])[..|items|] == items;
  }

  /** A position is filled exactly if it belongs to one of the items. */
  lemma {:induction false} FilledIff(digest: Digest, bitSize: nat, k: nat, items: seq<string>, p: nat)
    requires bitSize > 0
    ensures p in Filled(digest, bitSize, k, items)
      <==> exists i :: 0 <= i < |items| && p in ItemPositions(digest, bitSize, k, items[i])
    decreases |items|
  {
    if items != [] {
      var m := |items| - 1;
      FilledIff(digest, bitSize, k, items[..m], p);
      assert forall i :: 0 <= i < m ==> items[..m][i] == items[i];
    }
  }

  /** No false negatives: the positions of an added item are all filled. */
  lemma AddedIsFilled(digest: Digest, bitSize: nat, k: nat, items: seq<string>, x: string)
    requires bitSize > 0 && x in items
    ensures ItemPositions(digest, bitSize, k, x) <= Filled(digest, bitSize, k, items)
  {
    var i :| 0 <= i < |items| && items[i] == x;
    forall p | p in ItemPositions(digest, bitSize, k, x) ensures p in Filled(digest, bitSize, k, items) {
      FilledIff(digest, bitSize, k, items, p);
    }
  }

  /** Never more ones than there are positions, nor than hashes were taken. */
  lemma FilledBound(digest: Digest, bitSize: nat, k: nat, items: seq<string>)
    requires bitSize > 0
    ensures |Filled(digest, bitSize, k, items)| <= bitSize && |Filled(digest, bitSize, k, items)| <= k * |items|
  {
    forall p | p in Filled(digest, bitSize, k, items) ensures p in Below(bitSize) {
      FilledIff(digest, bitSize, k, items, p);
      var i :| 0 <= i < |items| && p in ItemPositions(digest, bitSize, k, items[i]);
      ItemPositionsIff(digest, bitSize, k, items[i], p);
    }
    BelowSize(bitSize);
    SubsetSize(Filled(digest, bitSize, k, items), Below(bitSize));
    FilledByHashes(digest, bitSize, k, items);
  }

  lemma {:induction false} FilledByHashes(digest: Digest, bitSize: nat, k: nat, items: seq<string>)
    requires bitSize > 0
    ensures |Filled(digest, bitSize, k, items)| <= k * |items|
    decreases |items|
  {
    if items != [] {
      var m := |items| - 1;
      FilledByHashes(digest, bitSize, k, items[..m]);
      ItemPositionsSize(digest, bitSize, k, items[m]);
      UnionSize(Filled(digest, bitSize, k, items[..m]), ItemPositions(digest, bitSize, k, items[m]));
      Times(k, m);
    }
  }

  lemma Times(k: nat, m: nat)
    ensures k * (m + 1) == k * m + k
  {
  }

  lemma UnionSize(a: set<nat>, b: set<nat>)
    ensures |a + b| <= |a| + |b|
  {
    assert a + b == a + (b - a);
    SubsetSize(b - a, b);
  }

  lemma FilledBySame(digest: Digest, bitSize: nat, k: nat, xs: seq<string>, ys: seq<string>)
    requires bitSize > 0 && forall x :: x in xs ==> x in ys
    ensures Filled(digest, bitSize, k, xs) <= Filled(digest, bitSize, k, ys)
  {
    forall p | p in Filled(digest, bitSize, k, xs) ensures p in Filled(digest, bitSize, k, ys) {
      FilledIff(digest, bitSize, k, xs, p);
      var i :| 0 <= i < |xs| && p in ItemPositions(digest, bitSize, k, xs[i]);
      AddedIsFilled(digest, bitSize, k, ys, xs[i]);
    }
  }

  /** The bytes of a filter to which exactly these items were added. */
  ghost predicate Holds(digest: Digest, bitSize: nat, k: nat, items: seq<string>, bytes: seq<bv8>)
    requires bitSize > 0
  {
    SetPositions(bytes) == Filled(digest, bitSize, k, items)
  }

  /** The bytes depend only on which items were added, not on their order or repetition. */
  lemma OrderDoesNotMatter(
      digest: Digest, bitSize: nat, k: nat, xs: seq<string>, ys: seq<string>, a: seq<bv8>, b: seq<bv8>)
    requires bitSize > 0 && forall x :: x in xs <==> x in ys
    ensures Filled(digest, bitSize, k, xs) == Filled(digest, bitSize, k, ys)
    ensures |a| == |b| && Holds(digest, bitSize, k, xs, a) && Holds(digest, bitSize, k, ys, b) ==> a == b
  {
    FilledBySame(digest, bitSize, k, xs, ys);
    FilledBySame(digest, bitSize, k, ys, xs);
    if |a| == |b| && SetPositions(a) == SetPositions(b) { PositionsDetermineBytes(a, b); }
  }

  /** With equal hash counts, merging two filters is adding both lists to one. */
  lemma {:induction false} MergeAddsBoth(digest: Digest, bitSize: nat, k: nat, xs: seq<string>, ys: seq<string>)
    requires bitSize > 0
    ensures Filled(digest, bitSize, k, xs) + Filled(digest, bitSize, k, ys) == Filled(digest, bitSize, k, xs + ys)
    decreases |ys|
  {
    if ys == [] {
      assert xs + ys == xs;
    } else {
      var m := |ys| - 1;
      MergeAddsBoth(digest, bitSize, k, xs, ys[..m]);
      FilledGrows(digest, bitSize, k, xs + ys[..m], ys[m]);
      assert xs + ys == (xs + ys[..m]) + [ys[m]];
    }
  }

  // -------------------------------------------------------- merging filters with different hash counts

  /** Whatever the hash and whatever else is set, an item added with `theirs` seeds is found with `mine`. */
  ghost predicate MergeKeepsMembers(bitSize: nat, mine: nat, theirs: nat)
    requires bitSize > 0
  {
    forall digest: Digest, item, others: set<nat> ::
      ItemPositions(digest, bitSize, mine, item) <= others + ItemPositions(digest, bitSize, theirs, item)
  }

  lemma {:induction false} FewerSeeds(digest: Digest, bitSize: nat, j: nat, k: nat, item: string)
    requires bitSize > 0 && j <= k
    ensures ItemPositions(digest, bitSize, j, item) <= ItemPositions(digest, bitSize, k, item)
    decreases k
  {
    if j < k { FewerSeeds(digest, bitSize, j, k - 1, item); }
  }

  /**
   Merging compares sizes only. It keeps the other filter's members findable, for every
   hash, exactly if this filter takes no more hashes than the other did (or has one position).
   */
  lemma MergeKeepsMembersIff(bitSize: nat, mine: nat, theirs: nat)
    requires bitSize > 0 && theirs > 0
    ensures MergeKeepsMembers(bitSize, mine, theirs) <==> mine <= theirs || bitSize == 1
  {
    if mine <= theirs || bitSize == 1 {
      forall digest: Digest, item, others: set<nat>
        ensures ItemPositions(digest, bitSize, mine, item) <= others + ItemPositions(digest, bitSize, theirs, item)
      {
        if mine <= theirs {
          FewerSeeds(digest, bitSize, mine, theirs, item);
        } else {
          OnePosition(digest, mine, theirs, item);
        }
      }
    } else {
      MoreSeedsMiss(bitSize, mine, theirs);
    }
  }

  lemma OnePosition(digest: Digest, mine: nat, theirs: nat, item: string)
    requires theirs > 0
    ensures ItemPositions(digest, 1, mine, item) <= ItemPositions(digest, 1, theirs, item)
  {
    forall p | p in ItemPositions(digest, 1, mine, item) ensures p in ItemPositions(digest, 1, theirs, item) {
      ItemPositionsIff(digest, 1, mine, item, p);
      assert HashAt(digest, 1, item, 0) == 0;
      ItemPositionsIff(digest, 1, theirs, item, p);
    }
  }

  /** A hash that sends all the other filter's seeds to one position, and the next seed elsewhere. */
  lemma MoreSeedsMiss(bitSize: nat, mine: nat, theirs: nat)
    requires bitSize > 1 && mine > theirs
    ensures !MergeKeepsMembers(bitSize, mine, theirs)
  {
    var digest: Digest := (x: string, s: nat) => if s < theirs then 0 else 1;
    assert HashAt(digest, bitSize, "", theirs) == 1;
    ItemPositionsIff(digest, bitSize, mine, "", 1);
    ItemPositionsIff(digest, bitSize, theirs, "", 1);
    var none: set<nat> := {};
    assert 1 in ItemPositions(digest, bitSize, mine, "") && 1 !in none + ItemPositions(digest, bitSize, theirs, "");
  }
}

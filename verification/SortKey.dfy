// Packed sort keys and size encoding of the read scheduler (include/io_scheduler.cuh), and the
// order in which a padded batch leaves the bitonic sort.
module SortKey {
  import opened Bits
  import opened StableCount
  import Bitonic

  const WORD: nat := 0x1_0000_0000_0000_0000
  const PADDING: nat := 0xFFFF_FFFF_FFFF_FFFF

  /** Bits kept for the batch index, by the largest batch. */
  function IndexBits(maxBatch: nat): nat {
    if maxBatch <= 128 then 7 else if maxBatch <= 256 then 8 else if maxBatch <= 512 then 9 else 10
  }

  /** The shift wraps at 64 bits and the index is masked. */
  function MakeKey(bits: nat, offset: nat, index: nat): nat {
    (offset * Pow2(bits)) % WORD + index % Pow2(bits)
  }

  function KeyOffset(bits: nat, key: nat): nat {
    Shr(key, bits)
  }

  function KeyIndex(bits: nat, key: nat): nat {
    And(key, Pow2(bits) - 1)
  }

  lemma IndexFits(maxBatch: nat)
    requires maxBatch <= 1024
    ensures maxBatch <= Pow2(IndexBits(maxBatch)) && IndexBits(maxBatch) <= 10
  {
    assert Pow2(7) == 128 && Pow2(8) == 256;
    Pow2Add(8, 1);
    Pow2Add(8, 2);
  }

  lemma WordSplit(bits: nat)
    requires bits <= 64
    ensures WORD == Pow2(64 - bits) * Pow2(bits)
  {
    Pow2Of64();
    Pow2Add(64 - bits, bits);
  }

  lemma Unwrapped(bits: nat, offset: nat, index: nat)
    requires bits <= 64 && offset < Pow2(64 - bits) && index < Pow2(bits)
    ensures MakeKey(bits, offset, index) == offset * Pow2(bits) + index < WORD
  {
    hide Pow2;
    var m := Pow2(bits);
    WordSplit(bits);
    MulMonotone(offset + 1, Pow2(64 - bits), m);
    assert (offset + 1) * m == offset * m + m;
    DivModUnique(offset * m, WORD, 0, offset * m);
    DivModUnique(index, m, 0, index);
  }

  /** A key gives back what was packed into it exactly when the offset fits the bits above the index. */
  lemma RoundTrip(bits: nat, offset: nat, index: nat)
    requires bits <= 64 && index < Pow2(bits)
    ensures KeyIndex(bits, MakeKey(bits, offset, index)) == index
    ensures KeyOffset(bits, MakeKey(bits, offset, index)) == offset <==> offset < Pow2(64 - bits)
  {
    hide Pow2, Shr, And;
    var m, h := Pow2(bits), Pow2(64 - bits);
    var lo := offset % h;
    assert offset == offset / h * h + lo;
    WordSplit(bits);
    assert lo < h;
    Unwrapped(bits, lo, index);
    WrapOffset(offset, h, m);
    DivModUnique(index, m, 0, index);
    var key := MakeKey(bits, offset, index);
    assert key == lo * m + index;
    AndMask(key, bits);
    ShrIsDiv(key, bits);
    DivModUnique(key, m, lo, index);
    if offset < h { DivModUnique(offset, h, 0, offset); }
  }

  lemma WrapOffset(offset: nat, h: nat, m: nat)
    requires h > 0 && m > 0 && WORD == h * m
    ensures (offset * m) % WORD == (offset % h) * m
  {
    var t, lo := offset / h, offset % h;
    assert offset * m == (t * h + lo) * m == t * (h * m) + lo * m;
    MulMonotone(lo + 1, h, m);
    assert (lo + 1) * m == lo * m + m;
    DivModUnique(offset * m, WORD, t, lo * m);
  }

  /** Keys compare like the pairs (offset, index). */
  lemma KeyOrder(bits: nat, o1: nat, i1: nat, o2: nat, i2: nat)
    requires bits <= 64 && o1 < Pow2(64 - bits) && o2 < Pow2(64 - bits) && i1 < Pow2(bits) && i2 < Pow2(bits)
    ensures MakeKey(bits, o1, i1) < MakeKey(bits, o2, i2) <==> o1 < o2 || (o1 == o2 && i1 < i2)
    ensures MakeKey(bits, o1, i1) == MakeKey(bits, o2, i2) <==> o1 == o2 && i1 == i2
  {
    hide Pow2, MakeKey;
    var m := Pow2(bits);
    Unwrapped(bits, o1, i1);
    Unwrapped(bits, o2, i2);
    if o1 < o2 {
      MulMonotone(o1 + 1, o2, m);
      assert (o1 + 1) * m == o1 * m + m;
    } else if o2 < o1 {
      MulMonotone(o2 + 1, o1, m);
      assert (o2 + 1) * m == o2 * m + m;
    }
  }

  // ----- a padded batch -----

  /** The keys of a batch followed by padding, as the read scheduler lays them out. */
  ghost predicate Padded(bits: nat, offsets: seq<nat>, a: seq<nat>) {
    && |offsets| <= |a| <= Pow2(bits) && bits <= 64
    && (forall i | 0 <= i < |offsets| :: offsets[i] < Pow2(64 - bits) && a[i] == MakeKey(bits, offsets[i], i))
    && (forall i | |offsets| <= i < |a| :: a[i] == PADDING)
  }

  /** A real key is below the padding whenever there is padding at all. */
  lemma BelowPadding(bits: nat, offsets: seq<nat>, a: seq<nat>, i: nat)
    requires Padded(bits, offsets, a) && i < |offsets| < |a|
    ensures a[i] < PADDING
  {
    hide Pow2, MakeKey;
    var m, h := Pow2(bits), Pow2(64 - bits);
    WordSplit(bits);
    Unwrapped(bits, offsets[i], i);
    MulMonotone(offsets[i] + 1, h, m);
    assert (offsets[i] + 1) * m == offsets[i] * m + m;
  }

  ghost function Upto(k: nat): (s: set<nat>)
    ensures |s| == k && forall x: nat :: x in s <==> x < k
  {
    if k == 0 then {} else Upto(k - 1) + {k - 1}
  }

  lemma Above(top: nat, n: nat)
    requires n <= top
    ensures |Upto(top) - Upto(n)| == top - n
  {
    assert Upto(top) * Upto(n) == Upto(n) && Upto(top) + Upto(n) == Upto(top);
  }

  /** Distinct members of a set are no more than the set has. */
  lemma {:induction false} Pigeonhole(f: seq<nat>, s: set<nat>)
    requires (forall a | 0 <= a < |f| :: f[a] in s) && (forall a, b | 0 <= a < b < |f| :: f[a] != f[b])
    ensures |f| <= |s|
  {
    if f != [] {
      var n := |f| - 1;
      Pigeonhole(f[..n], s - {f[n]});
    }
  }

  /** What sorting a padded batch yields. */
  ghost predicate InReadOrder(bits: nat, offsets: seq<nat>, perm: seq<nat>, a: seq<nat>) {
    var n := |offsets|;
    && n <= |perm| == |a| && IsPermutation(perm[..n])
    && (forall i | 0 <= i < n :: perm[i] < n && KeyIndex(bits, a[i]) == perm[i] && KeyOffset(bits, a[i]) == offsets[perm[i]])
    && (forall i, j | 0 <= i < j < n ::
          offsets[perm[i]] < offsets[perm[j]] || (offsets[perm[i]] == offsets[perm[j]] && perm[i] < perm[j]))
    && (forall i | n <= i < |a| :: a[i] == PADDING)
  }

  ghost predicate SortedPadded(bits: nat, offsets: seq<nat>, a0: seq<nat>, perm: seq<nat>, a: seq<nat>) {
    Padded(bits, offsets, a0) && Bitonic.Rearranged(a0, perm, a) && Bitonic.Ascending(a)
  }

  /** A real key never stands after padding. */
  lemma NoRealAfterPadding(bits: nat, offsets: seq<nat>, a0: seq<nat>, perm: seq<nat>, a: seq<nat>, i: nat, j: nat)
    requires SortedPadded(bits, offsets, a0, perm, a) && i < j < |a| && perm[j] < |offsets|
    ensures perm[i] < |offsets|
  {
    hide Pow2, MakeKey;
    if perm[i] >= |offsets| {
      BelowPadding(bits, offsets, a0, perm[j]);
    }
  }

  lemma RealFirst(bits: nat, offsets: seq<nat>, a0: seq<nat>, perm: seq<nat>, a: seq<nat>, i: nat)
    requires SortedPadded(bits, offsets, a0, perm, a) && i < |a|
    ensures perm[i] < |offsets| ==> i < |offsets|
  {
    hide Pow2, MakeKey, Padded, Bitonic.Ascending;
    if perm[i] < |offsets| {
      forall z | 0 <= z < i ensures perm[z] < |offsets| {
        NoRealAfterPadding(bits, offsets, a0, perm, a, z, i);
      }
      Pigeonhole(perm[..i + 1], Upto(|offsets|));
    }
  }

  lemma PaddingLast(bits: nat, offsets: seq<nat>, a0: seq<nat>, perm: seq<nat>, a: seq<nat>, i: nat)
    requires SortedPadded(bits, offsets, a0, perm, a) && i < |a| && |offsets| <= |perm|
    ensures perm[i] >= |offsets| ==> i >= |offsets|
  {
    hide Pow2, MakeKey, Padded, Bitonic.Ascending;
    var n, top := |offsets|, |perm|;
    if perm[i] >= n {
      forall z | i < z < top ensures perm[z] >= n {
        if perm[z] < n { NoRealAfterPadding(bits, offsets, a0, perm, a, i, z); }
      }
      Above(top, n);
      Pigeonhole(perm[i..], Upto(top) - Upto(n));
    }
  }

  lemma PrefixPermutation(perm: seq<nat>, n: nat)
    requires IsPermutation(perm) && n <= |perm| && (forall i | 0 <= i < |perm| :: perm[i] < n <==> i < n)
    ensures IsPermutation(perm[..n])
  {
    forall x | 0 <= x < n ensures x in perm[..n] {
      assert x in perm;
      var a :| 0 <= a < |perm| && perm[a] == x;
      assert perm[..n][a] == x;
    }
  }

  /** The decoded indices are the batch indices in the order (offset, index), padding last. */
  lemma ReadOrder(bits: nat, offsets: seq<nat>, a0: seq<nat>, perm: seq<nat>, a: seq<nat>)
    requires Padded(bits, offsets, a0) && Bitonic.Rearranged(a0, perm, a) && Bitonic.Ascending(a)
    ensures InReadOrder(bits, offsets, perm, a)
  {
    hide Pow2, MakeKey, KeyIndex, KeyOffset;
    var n := |offsets|;
    forall i | 0 <= i < |perm| ensures perm[i] < n <==> i < n {
      RealFirst(bits, offsets, a0, perm, a, i);
      PaddingLast(bits, offsets, a0, perm, a, i);
    }
    PrefixPermutation(perm, n);
    forall i | 0 <= i < n ensures KeyIndex(bits, a[i]) == perm[i] && KeyOffset(bits, a[i]) == offsets[perm[i]] {
      RoundTrip(bits, offsets[perm[i]], perm[i]);
    }
    forall i, j | 0 <= i < j < n
      ensures offsets[perm[i]] < offsets[perm[j]] || (offsets[perm[i]] == offsets[perm[j]] && perm[i] < perm[j])
    {
      KeyOrder(bits, offsets[perm[i]], perm[i], offsets[perm[j]], perm[j]);
    }
  }

  /** Pack, pad and sort one read batch. */
  method SortBatch(offsets: seq<nat>, keys: array<nat>, m: nat, orders: (nat, nat) -> seq<nat>)
    returns (ghost perm: seq<nat>)
    requires keys.Length == Pow2(m) <= 1024 && |offsets| <= keys.Length
    requires forall i | 0 <= i < |offsets| :: offsets[i] < Pow2(64 - IndexBits(keys.Length))
    requires forall k, j :: IsPermutation(orders(k, j)) && |orders(k, j)| == Pow2(m)
    modifies keys
    ensures InReadOrder(IndexBits(keys.Length), offsets, perm, keys[..])
  {
    hide MakeKey, Pow2, IndexBits, IsPermutation, KeyIndex, KeyOffset, Bitonic.Ascending;
    IndexFits(keys.Length);
    var bits := IndexBits(keys.Length);
    for i := 0 to |offsets|
      invariant forall k | 0 <= k < i :: keys[k] == MakeKey(bits, offsets[k], k)
    {
      keys[i] := MakeKey(bits, offsets[i], i);
    }
    for i := |offsets| to keys.Length
      invariant forall k | 0 <= k < |offsets| :: keys[k] == MakeKey(bits, offsets[k], k)
      invariant forall k | |offsets| <= k < i :: keys[k] == PADDING
    {
      keys[i] := PADDING;
    }
    ghost var a0: seq<nat> := keys[..];
    perm := Bitonic.BitonicSort(keys, m, orders);
    ReadOrder(bits, offsets, a0, perm, keys[..]);
  }

  // ----- request sizes -----

  /** `__ffsll`: one more than the position of the lowest set bit, zero for zero. */
  function Ffs(x: nat): nat {
    if x == 0 then 0 else if x % 2 == 1 then 1 else Ffs(x / 2) + 1
  }

  /** The low byte of the position, as it is stored in a request. */
  function EncodeSize(bytes: nat): nat {
    (Ffs(bytes) - 1) % 256
  }

  function DecodeSize(log2: nat): nat {
    Pow2(log2)
  }

  lemma {:induction false} FfsPow2(k: nat)
    ensures Ffs(Pow2(k)) == k + 1
  {
    if k > 0 { FfsPow2(k - 1); }
  }

  lemma {:induction false} FfsBound(x: nat, k: nat)
    requires 0 < x < Pow2(k)
    ensures 1 <= Ffs(x) <= k
  {
    if x % 2 == 0 { FfsBound(x / 2, k - 1); }
  }

  /** Sizes survive the encoding exactly when they are powers of two. */
  lemma SizeRoundTrip(bytes: nat)
    requires 0 < bytes < WORD
    ensures DecodeSize(EncodeSize(bytes)) == bytes <==> exists k: nat :: bytes == Pow2(k)
  {
    Pow2Of64();
    FfsBound(bytes, 64);
    var e := Ffs(bytes) - 1;
    assert EncodeSize(bytes) == e;
    if k: nat :| bytes == Pow2(k) {
      FfsPow2(k);
    }
    if DecodeSize(e) == bytes {
      assert bytes == Pow2(e);
    }
  }
}

// The whole write path of one batch (benchmarks/io_scheduler/io_scheduler_impl.cuh): radix sort by disk
// offset, merge, submit. When the SSD ends up as if the ring requests had been written in slot order.
module WriteSchedule {
  import opened Bits
  import opened StableCount
  import opened Disk
  import opened WriteBatch
  import Radix
  import Merge
  import NvmCmd
  import ExclusiveQueue

  const PASSES: nat := 6

  ghost predicate Below48(keys: seq<nat>) {
    forall i | 0 <= i < |keys| :: keys[i] < Pow2(48)
  }

  // ----- requests of one size overlap only when they are at the same offset -----

  /** Blocks of a request: `rb` of them, from a multiple of `rb`. */
  lemma RequestShape(mem: Memory, t: Tables, geo: Geometry, offset: nat, pe: nat)
    requires geo.Valid() && t.ppe > 0 && t.Has(pe) && offset % (t.ppe * PAGE) == 0
    ensures var w := RequestWrite(mem, t, geo, offset, pe);
            && |w.blocks| == t.ppe * geo.Bpp() > 0 && w.lba % (t.ppe * geo.Bpp()) == 0 && offset == w.lba * geo.Blk()
  {
    hide PagesBlocks, EntryPages, Shr, Pow2;
    ShiftAligned(geo, t.ppe, offset);
    PagesBlocksLength(mem, EntryPages(t, pe, t.ppe), geo.Bpp());
  }

  lemma SameCell(a: nat, b: nat, rb: nat, x: nat)
    requires rb > 0 && a % rb == 0 && b % rb == 0 && a <= x < a + rb && b <= x < b + rb
    ensures a == b
  {
    var p, q := a / rb, b / rb;
    assert a == p * rb && b == q * rb;
    if p < q { MulMonotone(p + 1, q, rb); } else if q < p { MulMonotone(q + 1, p, rb); }
  }

  lemma OverlapIsSameOffset(mem: Memory, t: Tables, geo: Geometry, o1: nat, e1: nat, o2: nat, e2: nat)
    requires geo.Valid() && t.ppe > 0 && t.Has(e1) && t.Has(e2)
    requires o1 % (t.ppe * PAGE) == 0 && o2 % (t.ppe * PAGE) == 0
    requires Overlap(RequestWrite(mem, t, geo, o1, e1), RequestWrite(mem, t, geo, o2, e2))
    ensures o1 == o2
  {
    hide RequestWrite, Pow2;
    var v, w := RequestWrite(mem, t, geo, o1, e1), RequestWrite(mem, t, geo, o2, e2);
    RequestShape(mem, t, geo, o1, e1);
    RequestShape(mem, t, geo, o2, e2);
    var x: nat :| Covers(v, x) && Covers(w, x);
    SameCell(v.lba, w.lba, t.ppe * geo.Bpp(), x);
  }

  // ----- the sorted order keeps the order of requests that overlap -----

  lemma LowIsKey(key: nat)
    requires key < Pow2(48)
    ensures Low(key, PASSES) == key
  {
    hide Low, Pow2;
    LowIsRemainder(key, PASSES);
    assert 8 * PASSES == 48;
    SmallMod(key, Pow2(48));
  }

  lemma SmallMod(a: nat, m: nat)
    requires a < m
    ensures a % m == a
  {
  }

  /** Six passes cover offsets below 2^48. */
  lemma LowBytesEnough(offsets: seq<nat>)
    requires Below48(offsets)
    ensures LowBytesDecide(offsets, PASSES)
  {
    hide Pow2, Low;
    forall i, j | 0 <= i < |offsets| && 0 <= j < |offsets| && KeyBefore(offsets, PASSES, i, j) ensures offsets[i] <= offsets[j] {
      LowIsKey(offsets[i]);
      LowIsKey(offsets[j]);
    }
  }

  /** Then the sorted offsets ascend. */
  lemma SortedAscends(offsets: seq<nat>, perm: seq<nat>)
    requires Below48(offsets) && StableOrder(offsets, PASSES, perm)
    ensures Ascends(Gather(offsets, perm))
  {
    hide Ascends, LowBytesDecide;
    LowBytesEnough(offsets);
    AscendsIff(offsets, PASSES, perm);
  }

  /** Above that they need not: six passes leave 2^48 in front of 1. */
  lemma HighBitsIgnored()
    ensures StableOrder([Pow2(48), 1], PASSES, [0, 1]) && Gather([Pow2(48), 1], [0, 1])[0] > Gather([Pow2(48), 1], [0, 1])[1]
  {
    hide Low, Pow2;
    var keys := [Pow2(48), 1];
    assert 8 * PASSES == 48;
    LowIsRemainder(keys[0], PASSES);
    LowIsRemainder(keys[1], PASSES);
    DivModUnique(Pow2(48), Pow2(48), 1, 0);
    LargeWord();
    SmallMod(1, Pow2(48));
    assert KeyBefore(keys, PASSES, 0, 1);
    assert 0 in [0, 1] && 1 in [0, 1];
  }

  lemma LargeWord()
    ensures Pow2(48) > 1
  {
    Pow2Monotone(0, 48);
  }

  lemma SortedKeepsOverlaps(mem: Memory, t: Tables, geo: Geometry, offsets: seq<nat>, pes: seq<nat>, perm: seq<nat>)
    requires geo.Valid() && HasAll(t, pes) && |offsets| == |pes|
    requires Aligned(offsets, t.ppe * PAGE) && StableOrder(offsets, PASSES, perm)
    ensures KeepsOverlaps(RequestWrites(mem, t, geo, offsets, pes), perm)
  {
    hide RequestWrite, Pow2, Low, Overlap;
    var ws := RequestWrites(mem, t, geo, offsets, pes);
    forall a, b | 0 <= a < b < |perm| && Overlap(ws[perm[a]], ws[perm[b]])
      ensures perm[a] < perm[b]
    {
      var i, j := perm[a], perm[b];
      OverlapIsSameOffset(mem, t, geo, offsets[i], pes[i], offsets[j], pes[j]);
      assert KeyBefore(offsets, PASSES, i, j);
    }
  }

  /** Applying the sorted requests is applying the requests in slot order, duplicates included. */
  lemma SortedSameDisk(disk: Contents, mem: Memory, t: Tables, geo: Geometry, offsets: seq<nat>, pes: seq<nat>, perm: seq<nat>)
    requires geo.Valid() && HasAll(t, pes) && |offsets| == |pes|
    requires Aligned(offsets, t.ppe * PAGE) && StableOrder(offsets, PASSES, perm)
    ensures HasAll(t, Gather(pes, perm))
    ensures ApplyAll(disk, RequestWrites(mem, t, geo, Gather(offsets, perm), Gather(pes, perm)))
         == ApplyAll(disk, RequestWrites(mem, t, geo, offsets, pes))
  {
    hide RequestWrite, Pow2, ApplyAll, KeepsOverlaps, Aligned;
    SortedKeepsOverlaps(mem, t, geo, offsets, pes, perm);
    var ws := RequestWrites(mem, t, geo, offsets, pes);
    Reorder(disk, ws, perm);
    assert RequestWrites(mem, t, geo, Gather(offsets, perm), Gather(pes, perm)) == Gather(ws, perm);
  }

  // ----- when the order in which the controller executes the commands does not matter -----

  /** A block a command writes is a block one of its requests writes. */
  lemma CommandCovers(b: Batch, mem: Memory, lo: nat, hi: nat, x: nat) returns (i: nat)
    requires b.Valid() && b.Group(lo, hi) && Covers(CommandWrite(b, mem, lo, hi), x)
    ensures lo <= i < hi && Covers(RequestWrite(mem, b.t, b.geo, b.offsets[i], b.pes[i]), x)
  {
    hide PagesBlocks, GroupPages, EntryPages, Shr, Pow2;
    var t, geo := b.t, b.geo;
    var rb, lba := t.ppe * geo.Bpp(), Shr(b.offsets[lo], geo.blkLog);
    RequestShape(mem, t, geo, b.offsets[lo], b.pes[lo]);
    GroupPagesAt(t, b.pes[lo..hi], 0, 0);
    PagesBlocksLength(mem, GroupPages(t, b.pes[lo..hi]), geo.Bpp());
    CellOf(lba, hi - lo, t.ppe, geo.Bpp(), x);
    var k := (x - lba) / rb;
    i := lo + k;
    GroupLba(b, mem, lo, hi, k);
    RequestShape(mem, t, geo, b.offsets[i], b.pes[i]);
  }

  lemma CellOf(lba: nat, c: nat, ppe: nat, bpp: nat, x: nat)
    requires ppe * bpp > 0 && lba <= x < lba + c * ppe * bpp
    ensures var k := (x - lba) / (ppe * bpp); 0 <= k < c && lba + k * (ppe * bpp) <= x < lba + k * (ppe * bpp) + ppe * bpp
  {
    var rb := ppe * bpp;
    assert c * ppe * bpp == c * rb;
    var k := (x - lba) / rb;
    if k >= c { MulMonotone(c, k, rb); }
  }

  lemma {:induction false} GroupLba(b: Batch, mem: Memory, lo: nat, hi: nat, k: nat)
    requires b.Valid() && b.Group(lo, hi) && lo + k < hi
    ensures Shr(b.offsets[lo + k], b.geo.blkLog) == Shr(b.offsets[lo], b.geo.blkLog) + k * (b.t.ppe * b.geo.Bpp())
  {
    hide Shr, Pow2;
    if k > 0 {
      GroupLba(b, mem, lo, hi, k - 1);
      var s := b.offsets[lo..hi];
      assert s[k] == b.offsets[lo + k] && s[k - 1] == b.offsets[lo + k - 1];
      ShiftAligned(b.geo, b.t.ppe, b.offsets[lo + k - 1]);
      assert k * (b.t.ppe * b.geo.Bpp()) == (k - 1) * (b.t.ppe * b.geo.Bpp()) + b.t.ppe * b.geo.Bpp();
    }
  }

  ghost predicate DistinctOffsets(offsets: seq<nat>) {
    forall i, j | 0 <= i < j < |offsets| :: offsets[i] != offsets[j]
  }

  /** Commands of one batch write disjoint blocks when the offsets are distinct. */
  lemma CommandsDisjoint(b: Batch, mem: Memory, starts: seq<nat>, g: nat, h: nat, x: nat)
    requires b.Valid() && Merge.Cuts(starts, |b.offsets|) && Groups(b, starts) && DistinctOffsets(b.offsets)
    requires g < |starts| && h < |starts|
    requires Covers(CommandWrites(b, mem, starts)[g], x) && Covers(CommandWrites(b, mem, starts)[h], x)
    ensures g == h
  {
    hide CommandWrite, RequestWrite, Merge.Starts, Aligned, Pow2;
    GroupAt(b, starts, g);
    GroupAt(b, starts, h);
    var n := |b.offsets|;
    var i := CommandCovers(b, mem, starts[g], Merge.End(starts, g, n), x);
    var j := CommandCovers(b, mem, starts[h], Merge.End(starts, h, n), x);
    SameRequest(b, mem, i, j, x);
    SameGroup(starts, n, g, h, i);
  }

  lemma SameRequest(b: Batch, mem: Memory, i: nat, j: nat, x: nat)
    requires b.Valid() && DistinctOffsets(b.offsets) && i < |b.offsets| && j < |b.offsets|
    requires Covers(RequestWrite(mem, b.t, b.geo, b.offsets[i], b.pes[i]), x)
    requires Covers(RequestWrite(mem, b.t, b.geo, b.offsets[j], b.pes[j]), x)
    ensures i == j
  {
    hide RequestWrite, Pow2;
    OverlapIsSameOffset(mem, b.t, b.geo, b.offsets[i], b.pes[i], b.offsets[j], b.pes[j]);
  }

  lemma SameGroup(starts: seq<nat>, n: nat, g: nat, h: nat, i: nat)
    requires Merge.Cuts(starts, n) && g < |starts| && h < |starts|
    requires starts[g] <= i < Merge.End(starts, g, n) && starts[h] <= i < Merge.End(starts, h, n)
    ensures g == h
  {
  }

  /** The commands in group order do what the sorted requests do. */
  lemma {:induction false} CommandsInOrder(b: Batch, mem: Memory, starts: seq<nat>, g: nat, disk: Contents)
    requires b.Valid() && Merge.Cuts(starts, |b.offsets|) && Groups(b, starts) && g <= |starts|
    ensures Executed(b, mem, starts, 0, g, disk, ApplyAll(disk, CommandWrites(b, mem, starts)[..g]))
  {
    hide Groups, Executed, CommandWrite, Merge.Cuts, Batch.Valid;
    var ws := CommandWrites(b, mem, starts);
    if g == 0 {
      ExecutedNone(b, mem, starts, 0, disk);
      assert ws[..0] == [];
    } else {
      CommandsInOrder(b, mem, starts, g - 1, disk);
      var d := ApplyAll(disk, ws[..g - 1]);
      CommandStep(b, mem, starts, g - 1, d);
      assert ws[..g][..g - 1] == ws[..g - 1];
      ExecutedTrans(b, mem, starts, 0, g - 1, g, disk, d, Apply(d, ws[g - 1]));
    }
  }

  lemma CommandStep(b: Batch, mem: Memory, starts: seq<nat>, g: nat, disk: Contents)
    requires b.Valid() && Merge.Cuts(starts, |b.offsets|) && Groups(b, starts) && g < |starts|
    ensures Executed(b, mem, starts, g, g + 1, disk, Apply(disk, CommandWrites(b, mem, starts)[g]))
  {
    hide Executed, Apply, ApplyAll, CommandWrite, Merge.Starts, RequestWrites;
    GroupAt(b, starts, g);
    ExecutedOne(b, mem, starts, g, disk);
    CommandIsItsRequests(disk, mem, b, starts[g], Merge.End(starts, g, |b.offsets|));
  }

  lemma AllInOrder(b: Batch, mem: Memory, starts: seq<nat>, disk: Contents)
    requires b.Valid() && Merge.Cuts(starts, |b.offsets|) && Groups(b, starts)
    ensures ApplyAll(disk, CommandWrites(b, mem, starts)) == ApplyAll(disk, b.Writes(mem, 0, |b.offsets|))
  {
    hide Groups, Executed, ApplyAll, Merge.Cuts, Batch.Valid, CommandWrite;
    CommandsInOrder(b, mem, starts, |starts|, disk);
    var ws := CommandWrites(b, mem, starts);
    assert ws[..|starts|] == ws;
    ExecutedAll(b, mem, starts, disk, ApplyAll(disk, ws));
  }

  /** Whatever order the waits leave to the controller, the SSD ends as after the sorted requests: exactly when, in every
      block, the commands of the last sub-batch that reaches it carry the same data. */
  lemma AnyCommandOrderIff(disk: Contents, b: Batch, mem: Memory, starts: seq<nat>, slots: nat)
    requires b.Valid() && Merge.Cuts(starts, |b.offsets|) && Groups(b, starts)
    ensures (forall order | Within(order, |starts|, SubOf(slots)) ::
               ApplyAll(disk, Gather(CommandWrites(b, mem, starts), order)) == ApplyAll(disk, b.Writes(mem, 0, |b.offsets|)))
            <==> Settled(CommandWrites(b, mem, starts), SubOf(slots))
  {
    hide Groups, ApplyAll, Settled, Merge.Cuts, Batch.Valid, CommandWrite, SubOf;
    SubsAscend(slots);
    SettledIff(disk, CommandWrites(b, mem, starts), SubOf(slots));
    AllInOrder(b, mem, starts, disk);
  }

  /** With distinct offsets it never matters. */
  lemma DistinctSettled(b: Batch, mem: Memory, starts: seq<nat>, slots: nat)
    requires b.Valid() && Merge.Cuts(starts, |b.offsets|) && Groups(b, starts) && DistinctOffsets(b.offsets)
    ensures Settled(CommandWrites(b, mem, starts), SubOf(slots))
  {
    hide Groups, Covers, Merge.Cuts, Batch.Valid, CommandWrite, SubOf, DistinctOffsets;
    var ws, sub := CommandWrites(b, mem, starts), SubOf(slots);
    forall i: nat, j: nat, x: nat | i < |ws| && j < |ws| && sub(i) == sub(j) && Covers(ws[i], x) && Covers(ws[j], x)
                                    && !LaterCovers(ws, sub, i, x)
      ensures BlockOf(ws[i], x) == BlockOf(ws[j], x)
    {
      CommandsDisjoint(b, mem, starts, i, j, x);
    }
  }

  /** With distinct offsets any order whatsoever gives the same, sub-batches or not. */
  lemma AnyCommandOrder(disk: Contents, b: Batch, mem: Memory, starts: seq<nat>, order: seq<nat>)
    requires b.Valid() && Merge.Cuts(starts, |b.offsets|) && Groups(b, starts) && DistinctOffsets(b.offsets)
    requires IsPermutation(order) && |order| == |starts|
    ensures ApplyAll(disk, Gather(CommandWrites(b, mem, starts), order)) == ApplyAll(disk, b.Writes(mem, 0, |b.offsets|))
  {
    hide Groups, ApplyAll, Covers, Merge.Cuts, Batch.Valid, CommandWrite, DistinctOffsets;
    var ws := CommandWrites(b, mem, starts);
    forall p, q | 0 <= p < q < |order| ensures !Overlap(ws[order[p]], ws[order[q]]) {
      if Overlap(ws[order[p]], ws[order[q]]) {
        var x: nat :| Covers(ws[order[p]], x) && Covers(ws[order[q]], x);
        CommandsDisjoint(b, mem, starts, order[p], order[q], x);
      }
    }
    Reorder(disk, ws, order);
    AllInOrder(b, mem, starts, disk);
  }

  // ----- the whole batch -----

  /** Room for the split scratch area, in terms of the requests as they stand in the ring. */
  ghost predicate ScratchFits(offsets: seq<nat>, size: nat, capacity: nat)
    requires size > 0
  {
    forall perm | StableOrder(offsets, PASSES, perm) :: Merge.SplitFits(Gather(offsets, perm), size, capacity)
  }

  /** There is one stable order, so one sorted batch decides. */
  lemma ScratchOfOrder(offsets: seq<nat>, size: nat, capacity: nat, perm: seq<nat>)
    requires size > 0 && StableOrder(offsets, PASSES, perm)
    ensures ScratchFits(offsets, size, capacity) <==> Merge.SplitFits(Gather(offsets, perm), size, capacity)
  {
    hide Merge.SplitFits, KeyBefore;
    forall other | StableOrder(offsets, PASSES, other) ensures other == perm {
      StableOrderUnique(offsets, PASSES, other, perm);
    }
  }

  lemma HalfFullFits(offsets: seq<nat>, size: nat, capacity: nat)
    requires size > 0 && 2 * |offsets| <= capacity
    ensures ScratchFits(offsets, size, capacity)
  {
    forall perm | StableOrder(offsets, PASSES, perm) ensures Merge.SplitFits(Gather(offsets, perm), size, capacity) {
      Merge.HalfFullSuffices(Gather(offsets, perm), size, capacity);
    }
  }

  /** What the drain phase leaves in the sort buffers: the requests in slot order. */
  ghost predicate Drained(t: Tables, geo: Geometry, offsets: seq<nat>, pc: seq<nat>) {
    && geo.Valid() && HasAll(t, pc) && |offsets| == |pc|
    && t.ppe * PAGE <= Merge.MERGE_TARGET && Aligned(offsets, t.ppe * PAGE)
  }

  /** The batch in the order `perm`. */
  function Sorted(t: Tables, geo: Geometry, offsets: seq<nat>, pc: seq<nat>, perm: seq<nat>): Batch
    requires |offsets| == |pc| == |perm| && forall a | 0 <= a < |perm| :: perm[a] < |perm|
  {
    Batch(t, geo, Gather(offsets, perm), Gather(pc, perm))
  }

  lemma SortedValid(t: Tables, geo: Geometry, offsets: seq<nat>, pc: seq<nat>, perm: seq<nat>)
    requires Drained(t, geo, offsets, pc) && StableOrder(offsets, PASSES, perm)
    ensures var b := Sorted(t, geo, offsets, pc, perm);
            var starts := Merge.Starts(b.offsets, b.Size(), |b.offsets|);
            b.Valid() && b.Size() == t.ppe * PAGE > 0 && Groups(b, starts) && Merge.Cuts(starts, |b.offsets|)
  {
    hide KeyBefore, Merge.Starts, Merge.Cuts;
    var b := Sorted(t, geo, offsets, pc, perm);
    Merge.StartsCut(b.offsets, b.Size(), |b.offsets|);
  }

  /** The writes of the merged commands of a batch, in submission order. */
  ghost function Commands(mem: Memory, t: Tables, geo: Geometry, offsets: seq<nat>, pc: seq<nat>, perm: seq<nat>): seq<Write>
    requires Drained(t, geo, offsets, pc) && StableOrder(offsets, PASSES, perm)
  {
    SortedValid(t, geo, offsets, pc, perm);
    var b := Sorted(t, geo, offsets, pc, perm);
    CommandWrites(b, mem, Merge.Starts(b.offsets, b.Size(), |b.offsets|))
  }

  /** The commands in submission order do what the requests do in slot order. */
  lemma CommandsAreRequests(disk: Contents, mem: Memory, t: Tables, geo: Geometry, offsets: seq<nat>, pc: seq<nat>, perm: seq<nat>)
    requires Drained(t, geo, offsets, pc) && StableOrder(offsets, PASSES, perm)
    ensures ApplyAll(disk, Commands(mem, t, geo, offsets, pc, perm)) == ApplyAll(disk, RequestWrites(mem, t, geo, offsets, pc))
  {
    hide ApplyAll, Aligned, KeyBefore, RequestWrite, Merge.Starts, Merge.Cuts, CommandWrite, Groups;
    SortedValid(t, geo, offsets, pc, perm);
    var b := Sorted(t, geo, offsets, pc, perm);
    AllInOrder(b, mem, Merge.Starts(b.offsets, b.Size(), |b.offsets|), disk);
    SortedSameDisk(disk, mem, t, geo, offsets, pc, perm);
    var ws := RequestWrites(mem, t, geo, b.offsets, b.pes);
    assert ws[0..|b.offsets|] == ws;
  }

  /** So every order the waits leave to the controller gives slot order, exactly when the commands are settled. */
  lemma SlotOrderIff(disk: Contents, mem: Memory, t: Tables, geo: Geometry, offsets: seq<nat>, pc: seq<nat>, perm: seq<nat>, slots: nat)
    requires Drained(t, geo, offsets, pc) && StableOrder(offsets, PASSES, perm)
    ensures var ws := Commands(mem, t, geo, offsets, pc, perm);
            (forall order | Within(order, |ws|, SubOf(slots)) ::
               ApplyAll(disk, Gather(ws, order)) == ApplyAll(disk, RequestWrites(mem, t, geo, offsets, pc)))
            <==> Settled(ws, SubOf(slots))
  {
    hide ApplyAll, Commands, Settled, SubOf, RequestWrites, Drained, StableOrder;
    DrainedFacts(t, geo, offsets, pc);
    CommandsAreRequests(disk, mem, t, geo, offsets, pc, perm);
    SubsAscend(slots);
    SettledIff(disk, Commands(mem, t, geo, offsets, pc, perm), SubOf(slots));
  }

  lemma DrainedFacts(t: Tables, geo: Geometry, offsets: seq<nat>, pc: seq<nat>)
    requires Drained(t, geo, offsets, pc)
    ensures geo.Valid() && HasAll(t, pc) && |offsets| == |pc| && t.ppe * PAGE > 0
  {
  }

  /** The commands of the batch, however it is sorted, are settled. */
  ghost predicate SettledBatch(mem: Memory, t: Tables, geo: Geometry, offsets: seq<nat>, pc: seq<nat>, slots: nat)
    requires Drained(t, geo, offsets, pc)
  {
    forall perm | StableOrder(offsets, PASSES, perm) :: Settled(Commands(mem, t, geo, offsets, pc, perm), SubOf(slots))
  }

  lemma DistinctSettledBatch(mem: Memory, t: Tables, geo: Geometry, offsets: seq<nat>, pc: seq<nat>, slots: nat)
    requires Drained(t, geo, offsets, pc) && DistinctOffsets(offsets)
    ensures SettledBatch(mem, t, geo, offsets, pc, slots)
  {
    forall perm | StableOrder(offsets, PASSES, perm) ensures Settled(Commands(mem, t, geo, offsets, pc, perm), SubOf(slots)) {
      hide Settled, SubOf, KeyBefore, Aligned, CommandWrites, Merge.Starts, Merge.Cuts, Groups, Batch.Valid, HasAll;
      SortedValid(t, geo, offsets, pc, perm);
      var b := Sorted(t, geo, offsets, pc, perm);
      StillDistinct(offsets, perm);
      DistinctSettled(b, mem, Merge.Starts(b.offsets, b.Size(), |b.offsets|), slots);
    }
  }

  lemma StillDistinct(offsets: seq<nat>, perm: seq<nat>)
    requires DistinctOffsets(offsets) && IsPermutation(perm) && |perm| == |offsets|
    ensures DistinctOffsets(Gather(offsets, perm))
  {
    var s := Gather(offsets, perm);
    forall i, j | 0 <= i < j < |s| ensures s[i] != s[j] {
      assert perm[i] != perm[j];
      if perm[i] < perm[j] { assert offsets[perm[i]] != offsets[perm[j]]; } else { assert offsets[perm[j]] != offsets[perm[i]]; }
    }
  }

  // ----- a batch that is not settled -----

  lemma TwoStarts(o: nat, size: nat)
    requires size > 0
    ensures Merge.Starts([o, o], size, 2) == [0, 1]
  {
    var keys := [o, o];
    assert Merge.Boundary(keys, size, 0) && Merge.Boundary(keys, size, 1);
    assert Merge.Starts(keys, size, 1) == [] + [0];
  }

  lemma OnePage(t: Tables, pe: nat)
    requires t.ppe > 0 && t.Has(pe)
    ensures HasAll(t, [pe]) && GroupPages(t, [pe]) == EntryPages(t, pe, t.ppe)
  {
    assert [pe][..0] == [];
    assert GroupPages(t, []) == [];
  }

  lemma OneRequest(b: Batch, mem: Memory, i: nat)
    requires b.Valid() && i < |b.offsets|
    ensures b.t.Has(b.pes[i]) && CommandWrite(b, mem, i, i + 1) == RequestWrite(mem, b.t, b.geo, b.offsets[i], b.pes[i])
  {
    hide Shr, PagesBlocks, GroupPages, EntryPages, Pow2;
    assert b.pes[i..i + 1] == [b.pes[i]];
    OnePage(b.t, b.pes[i]);
  }

  lemma TwoCommands(mem: Memory, t: Tables, geo: Geometry, o: nat, p: nat, q: nat)
    requires Drained(t, geo, [o, o], [p, q]) && StableOrder([o, o], PASSES, [0, 1]) && geo.Valid() && t.Has(p) && t.Has(q)
    ensures Commands(mem, t, geo, [o, o], [p, q], [0, 1]) == [RequestWrite(mem, t, geo, o, p), RequestWrite(mem, t, geo, o, q)]
  {
    hide StableOrder, RequestWrite, CommandWrite, Merge.Starts, Merge.Cuts, Groups, Drained, Batch.Valid;
    DrainedFacts(t, geo, [o, o], [p, q]);
    SortedValid(t, geo, [o, o], [p, q], [0, 1]);
    var b := Sorted(t, geo, [o, o], [p, q], [0, 1]);
    assert b.offsets == [o, o] && b.pes == [p, q];
    TwoStarts(o, b.Size());
    OneRequest(b, mem, 0);
    OneRequest(b, mem, 1);
  }

  lemma TwoInOrder(o: nat)
    ensures StableOrder([o, o], PASSES, [0, 1])
  {
    hide Low;
    assert 0 in [0, 1] && 1 in [0, 1];
  }

  lemma Together(slots: nat)
    requires slots >= 2
    ensures Within([1, 0], 2, SubOf(slots))
  {
    assert InChunk(0, slots) == 0;
    assert InChunk(1, slots) == 1;
    assert SubHead(1, slots) == SubHead(0, slots) == 0;
    assert 0 in [1, 0] && 1 in [1, 0];
  }

  lemma LastOfTwo(disk: Contents, v: Write, w: Write, x: nat)
    requires Covers(w, x)
    ensures x in ApplyAll(disk, [v, w]) && ApplyAll(disk, [v, w])[x] == BlockOf(w, x)
  {
    LastWriter(disk, [v, w], 1, x);
  }

  /** Two requests for one offset in one batch, with different data: the controller may execute the later one first,
      and then the earlier one stays. */
  lemma SameOffsetTwice(disk: Contents, mem: Memory, t: Tables, geo: Geometry, o: nat, p: nat, q: nat, slots: nat)
    requires Drained(t, geo, [o, o], [p, q]) && slots >= 2
    requires t.Has(p) && t.Has(q) && RequestWrite(mem, t, geo, o, p) != RequestWrite(mem, t, geo, o, q)
    ensures StableOrder([o, o], PASSES, [0, 1]) && Within([1, 0], 2, SubOf(slots))
    ensures var ws := Commands(mem, t, geo, [o, o], [p, q], [0, 1]);
            |ws| == 2 && ApplyAll(disk, Gather(ws, [1, 0])) != ApplyAll(disk, RequestWrites(mem, t, geo, [o, o], [p, q]))
  {
    hide RequestWrite, ApplyAll, Commands, StableOrder, Within, Drained;
    TwoInOrder(o);
    Together(slots);
    DrainedFacts(t, geo, [o, o], [p, q]);
    TwoCommands(mem, t, geo, o, p, q);
    var v, w := RequestWrite(mem, t, geo, o, p), RequestWrite(mem, t, geo, o, q);
    SamePlace(mem, t, geo, o, p, q);
    var i :| 0 <= i < |v.blocks| && v.blocks[i] != w.blocks[i];
    LastOfTwo(disk, v, w, v.lba + i);
    LastOfTwo(disk, w, v, v.lba + i);
    assert Gather([v, w], [1, 0]) == [w, v] && RequestWrites(mem, t, geo, [o, o], [p, q]) == [v, w];
  }

  lemma SamePlace(mem: Memory, t: Tables, geo: Geometry, o: nat, p: nat, q: nat)
    requires geo.Valid() && t.Has(p) && t.Has(q)
    ensures var v, w := RequestWrite(mem, t, geo, o, p), RequestWrite(mem, t, geo, o, q);
            v.lba == w.lba && |v.blocks| == |w.blocks| && (v != w ==> exists i | 0 <= i < |v.blocks| :: v.blocks[i] != w.blocks[i])
  {
    hide PagesBlocks, EntryPages, Shr, Pow2;
    PagesBlocksLength(mem, EntryPages(t, p, t.ppe), geo.Bpp());
    PagesBlocksLength(mem, EntryPages(t, q, t.ppe), geo.Bpp());
    var v, w := RequestWrite(mem, t, geo, o, p), RequestWrite(mem, t, geo, o, q);
    if forall i | 0 <= i < |v.blocks| :: v.blocks[i] == w.blocks[i] {
      assert v.blocks == w.blocks;
    }
  }

  // ----- sort, merge, submit -----

  lemma AfterSort(t: Tables, geo: Geometry, ks: seq<nat>, pc: seq<nat>, perm: seq<nat>, keys: seq<nat>, vals: seq<nat>, capacity: nat)
    requires Drained(t, geo, ks, pc)
    requires PASSES % 2 == 0 ==> Radix.Sorted(ks, Identity(|pc|), PASSES, perm, keys, vals)
    ensures StableOrder(ks, PASSES, perm) && vals == perm && IsPermutation(vals) && |vals| == |keys| == |pc|
    ensures (forall a | 0 <= a < |vals| :: vals[a] < |pc|) && keys == Gather(ks, perm)
    ensures var b := Batch(t, geo, keys, Gather(pc, vals));
            b == Sorted(t, geo, ks, pc, perm) && b.Valid() && b.Size() == t.ppe * PAGE > 0
    ensures ScratchFits(ks, t.ppe * PAGE, capacity) <==> Merge.SplitFits(keys, t.ppe * PAGE, capacity)
  {
    hide Merge.SplitFits, ScratchFits, KeyBefore, Merge.Starts, Groups;
    SortedValid(t, geo, ks, pc, perm);
    ScratchOfOrder(ks, t.ppe * PAGE, capacity, perm);
  }

  lemma GroupsIntro(b: Batch, starts: seq<nat>)
    requires b.Valid() && b.Size() > 0 && starts == Merge.Starts(b.offsets, b.Size(), |b.offsets|)
    ensures Groups(b, starts)
  {
  }

  /** What the controller did to the commands of the batch, and when that is slot order. */
  lemma AfterSubmit(disk: Contents, mem: Memory, t: Tables, geo: Geometry, ks: seq<nat>, pc: seq<nat>, perm: seq<nat>, slots: nat,
                    order: seq<nat>, disk': Contents)
    requires Drained(t, geo, ks, pc) && StableOrder(ks, PASSES, perm)
    requires var ws := Commands(mem, t, geo, ks, pc, perm); Done(ws, slots, |ws|, order, disk, disk')
    requires order == Identity(|order|) || SettledBatch(mem, t, geo, ks, pc, slots)
    ensures geo.Valid() && HasAll(t, pc) && |ks| == |pc| && disk' == ApplyAll(disk, RequestWrites(mem, t, geo, ks, pc))
  {
    hide ApplyAll, Commands, Settled, SubOf, RequestWrites, Drained, StableOrder;
    DrainedFacts(t, geo, ks, pc);
    CommandsAreRequests(disk, mem, t, geo, ks, pc, perm);
    var ws := Commands(mem, t, geo, ks, pc, perm);
    assert ws[..|ws|] == ws;
    if order == Identity(|order|) {
      assert Gather(ws, order) == ws;
    } else {
      SubsAscend(slots);
      SettledReorder(disk, ws, order, SubOf(slots));
    }
  }

  lemma DoneCommands(mem: Memory, t: Tables, geo: Geometry, ks: seq<nat>, pc: seq<nat>, perm: seq<nat>, b: Batch, starts: seq<nat>,
                     slots: nat, order: seq<nat>, disk: Contents, disk': Contents)
    requires Drained(t, geo, ks, pc) && StableOrder(ks, PASSES, perm) && b == Sorted(t, geo, ks, pc, perm)
    requires b.Valid() && b.Size() > 0 && Merge.Cuts(starts, |b.offsets|) && starts == Merge.Starts(b.offsets, b.Size(), |b.offsets|)
    requires Done(CommandWrites(b, mem, starts), slots, |starts|, order, disk, disk')
    ensures var ws := Commands(mem, t, geo, ks, pc, perm); Done(ws, slots, |ws|, order, disk, disk')
  {
    hide Done, KeyBefore, Merge.Starts, Merge.Cuts, CommandWrite, Aligned, HasAll;
  }

  /** Sort, merge, submit. Every request is notified through `vals`, each exactly once. The commands reach the SSD in
      the order `order` the controller chose within each sub-batch; the result is the requests in slot order when that
      is the submission order or the batch is settled. `overflow`: the list of starts is too short to split long runs. */
  method ScheduleBatch(mem: Memory, t: Tables, geo: Geometry, keys: array<nat>, vals: array<nat>, keysA: array<nat>,
                       valsA: array<nat>, pc: seq<nat>, starts: array<nat>, pool: array<seq<nat>>, ios: seq<nat>,
                       merged: array<Merged>, qp: ExclusiveQueue.QueuePair, parallelSort: bool, ns: nat, device: Device, disk: Contents)
    returns (overflow: bool, order: seq<nat>, disk': Contents)
    requires |pc| <= keys.Length && |pc| <= vals.Length && |pc| <= keysA.Length && |pc| <= valsA.Length && |pc| <= starts.Length
    requires Radix.Distinct(keys, vals, keysA, valsA) && starts !in {keys, vals, keysA, valsA}
    requires Drained(t, geo, keys[..|pc|], pc) && vals[..|pc|] == Identity(|pc|)
    requires 0 < pool.Length == |ios| && merged.Length == MAX_BATCH
    requires NvmCmd.PageShape(pool[..], LAST) && NvmCmd.DistinctAddresses(ios)
    requires qp.Valid() && Roomy(qp) && device.Able()
    modifies keys, vals, keysA, valsA, starts, pool, merged, qp
    ensures NvmCmd.PageShape(pool[..], LAST) && qp.Valid()
    ensures StableOrder(old(keys[..|pc|]), PASSES, vals[..|pc|]) && keys[..|pc|] == Gather(old(keys[..|pc|]), vals[..|pc|])
    ensures overflow <==> !ScratchFits(old(keys[..|pc|]), t.ppe * PAGE, starts.Length)
    ensures !overflow ==> var ws := Commands(mem, t, geo, old(keys[..|pc|]), pc, vals[..|pc|]);
                          Done(ws, pool.Length, |ws|, order, disk, disk')
    ensures !overflow && (order == Identity(|order|) || SettledBatch(mem, t, geo, old(keys[..|pc|]), pc, pool.Length)) ==>
              disk' == ApplyAll(disk, RequestWrites(mem, t, geo, old(keys[..|pc|]), pc))
  {
    hide *;
    var n := |pc|;
    ghost var ks := keys[..n];
    var perm := Radix.RadixSort(keys, vals, keysA, valsA, n, PASSES, parallelSort);
    AfterSort(t, geo, ks, pc, perm, keys[..n], vals[..n], starts.Length);
    var b := Batch(t, geo, keys[..n], Gather(pc, vals[..n]));
    order, disk' := [], disk;
    var count, splits;
    count, splits, overflow := Merge.ParallelMerge(b.offsets, b.Size(), starts);
    SplitMeans(b.offsets, b.Size(), starts.Length);
    if overflow {
      return;
    }
    GroupsIntro(b, starts[..count]);
    order, disk' := MergeAndSubmit(b, mem, starts[..count], pool, ios, merged, qp, ns, device, disk);
    DoneCommands(mem, t, geo, ks, pc, perm, b, starts[..count], pool.Length, order, disk, disk');
    if order == Identity(|order|) || SettledBatch(mem, t, geo, ks, pc, pool.Length) {
      AfterSubmit(disk, mem, t, geo, ks, pc, perm, pool.Length, order, disk');
    }
  }

  lemma SplitMeans(keys: seq<nat>, size: nat, capacity: nat)
    requires size > 0
    ensures Merge.SplitFits(keys, size, capacity) <==>
            !(Merge.AnyOversized(keys, size)
              && |Merge.Boundaries(keys, size, |keys|)| + |Merge.Starts(keys, size, |keys|)| > capacity)
  {
  }
}

// One batch of the write scheduler (benchmarks/io_scheduler/io_scheduler_impl.cuh):
// building PRP lists for merged groups and submitting them, sub-batch by sub-batch, while the
// controller executes what is in flight whenever and in whatever order it likes.
module WriteBatch {
  import opened Bits
  import opened Options
  import opened StableCount
  import opened Disk
  import Merge
  import NvmCmd
  import ExclusiveQueue

  const PAGE: nat := 4096
  const MAX_BATCH: nat := 512
  const KNEE_LIMIT: nat := 32
  const LAST: nat := 511
  const VICTIM_BIT: nat := 0x8000_0000_0000_0000
  const NVM_IO_WRITE: nat := 1

  /** DMA memory: block `b` of the 4 KB page at an IO address. */
  type Memory = (nat, nat) -> Block

  /** Where the pages of cache entries and of victim entries live. */
  datatype Tables = Tables(ppe: nat, pageIo: seq<nat>, victimIo: seq<nat>)
  {
    predicate Has(pe: nat) {
      if pe >= VICTIM_BIT then (pe - VICTIM_BIT + 1) * ppe <= |victimIo| else (pe + 1) * ppe <= |pageIo|
    }

    /** IO address of sub-page `j` of entry `pe`; bit 63 selects the victim buffer. */
    function Io(pe: nat, j: nat): nat
      requires Has(pe) && j < ppe
    {
      if pe >= VICTIM_BIT then
        assert (pe - VICTIM_BIT + 1) * ppe == (pe - VICTIM_BIT) * ppe + ppe;
        victimIo[(pe - VICTIM_BIT) * ppe + j]
      else
        assert (pe + 1) * ppe == pe * ppe + ppe;
        pageIo[pe * ppe + j]
    }
  }

  ghost predicate HasAll(t: Tables, pes: seq<nat>) {
    t.ppe > 0 && forall i | 0 <= i < |pes| :: t.Has(pes[i])
  }

  // ----- data pages of requests and of groups of requests -----

  function EntryPages(t: Tables, pe: nat, j: nat): (s: seq<nat>)
    requires t.Has(pe) && j <= t.ppe
    ensures |s| == j && forall k | 0 <= k < j :: s[k] == t.Io(pe, k)
  {
    if j == 0 then [] else EntryPages(t, pe, j - 1) + [t.Io(pe, j - 1)]
  }

  function GroupPages(t: Tables, pes: seq<nat>): seq<nat>
    requires HasAll(t, pes)
  {
    if pes == [] then [] else GroupPages(t, pes[..|pes| - 1]) + EntryPages(t, pes[|pes| - 1], t.ppe)
  }

  lemma {:induction false} GroupPagesAt(t: Tables, pes: seq<nat>, r: nat, j: nat)
    requires HasAll(t, pes) && r < |pes| && j < t.ppe
    ensures |GroupPages(t, pes)| == |pes| * t.ppe
    ensures r * t.ppe + j < |pes| * t.ppe && GroupPages(t, pes)[r * t.ppe + j] == t.Io(pes[r], j)
  {
    var front := pes[..|pes| - 1];
    assert |pes| * t.ppe == |front| * t.ppe + t.ppe;
    if |pes| == 1 {
      assert r == 0;
    } else if r < |front| {
      GroupPagesAt(t, front, r, j);
    } else {
      GroupPagesAt(t, front, 0, 0);
    }
  }

  function PageBlocks(mem: Memory, addr: nat, bpp: nat): (s: seq<Block>)
    ensures |s| == bpp
  {
    seq(bpp, b requires 0 <= b < bpp => mem(addr, b))
  }

  /** The blocks of a list of pages, `bpp` blocks each. */
  function PagesBlocks(mem: Memory, addrs: seq<nat>, bpp: nat): seq<Block> {
    if addrs == [] then [] else PagesBlocks(mem, addrs[..|addrs| - 1], bpp) + PageBlocks(mem, addrs[|addrs| - 1], bpp)
  }

  lemma {:induction false} PagesBlocksAppend(mem: Memory, xs: seq<nat>, ys: seq<nat>, bpp: nat)
    ensures PagesBlocks(mem, xs + ys, bpp) == PagesBlocks(mem, xs, bpp) + PagesBlocks(mem, ys, bpp)
  {
    hide PageBlocks;
    if ys == [] {
      assert xs + ys == xs;
    } else {
      PagesBlocksAppend(mem, xs, ys[..|ys| - 1], bpp);
      assert (xs + ys)[..|xs + ys| - 1] == xs + ys[..|ys| - 1];
    }
  }

  lemma {:induction false} PagesBlocksLength(mem: Memory, addrs: seq<nat>, bpp: nat)
    ensures |PagesBlocks(mem, addrs, bpp)| == |addrs| * bpp
  {
    if addrs != [] {
      PagesBlocksLength(mem, addrs[..|addrs| - 1], bpp);
      assert |addrs| * bpp == (|addrs| - 1) * bpp + bpp;
    }
  }

  // ----- what a request and what a command do -----

  /** Block size `2^blkLog`, between 512 bytes and the 4 KB page. */
  datatype Geometry = Geometry(blkLog: nat)
  {
    predicate Valid() { 9 <= blkLog <= 12 }
    function Blk(): nat { Pow2(blkLog) }
    function Bpp(): nat requires Valid() { Pow2(12 - blkLog) }
  }

  function RequestWrite(mem: Memory, t: Tables, geo: Geometry, offset: nat, pe: nat): Write
    requires geo.Valid() && t.Has(pe)
  {
    Write(Shr(offset, geo.blkLog), PagesBlocks(mem, EntryPages(t, pe, t.ppe), geo.Bpp()))
  }

  function RequestWrites(mem: Memory, t: Tables, geo: Geometry, offsets: seq<nat>, pes: seq<nat>): (ws: seq<Write>)
    requires geo.Valid() && HasAll(t, pes) && |offsets| == |pes|
    ensures |ws| == |pes| && forall i | 0 <= i < |pes| :: ws[i] == RequestWrite(mem, t, geo, offsets[i], pes[i])
  {
    seq(|pes|, i requires 0 <= i < |pes| => RequestWrite(mem, t, geo, offsets[i], pes[i]))
  }

  /** The controller's view: fetch the data pages the PRPs describe, write their blocks from the starting
      LBA on. A command whose PRP list cannot be found writes nothing. */
  function Execute(disk: Contents, mem: Memory, geo: Geometry, pool: seq<seq<nat>>, ios: seq<nat>, c: NvmCmd.Command): Contents
    requires geo.Valid() && |pool| == |ios| && NvmCmd.PageShape(pool, LAST)
  {
    var pages := (c.blocks + geo.Bpp() - 1) / geo.Bpp();
    match NvmCmd.WalkData(pool, ios, LAST, c.prp1, c.prp2, pages)
    case None => disk
    case Some(addrs) =>
      var data := PagesBlocks(mem, addrs, geo.Bpp());
      if c.blocks <= |data| then Apply(disk, Write(c.lba, data[..c.blocks])) else disk
  }

  // ----- alignment arithmetic -----

  lemma BlocksPerPage(geo: Geometry)
    requires geo.Valid()
    ensures geo.Blk() * geo.Bpp() == PAGE && geo.Blk() >= 512 && geo.Bpp() >= 1
  {
    Pow2Add(geo.blkLog, 12 - geo.blkLog);
    assert Pow2(4) == 16 && Pow2(8) == 256;
    Pow2Add(4, 8);
    Pow2Add(1, 8);
    if geo.blkLog > 9 { Pow2Monotone(9, geo.blkLog); }
  }

  ghost predicate Aligned(keys: seq<nat>, size: nat)
    requires size > 0
  {
    forall i | 0 <= i < |keys| :: keys[i] % size == 0
  }

  /** Aligned offsets shift to block numbers without remainder, and the next request starts
      `ppe * bpp` blocks further on. */
  lemma ShiftAligned(geo: Geometry, ppe: nat, key: nat)
    requires geo.Valid() && ppe > 0 && key % (ppe * PAGE) == 0
    ensures Shr(key + ppe * PAGE, geo.blkLog) == Shr(key, geo.blkLog) + ppe * geo.Bpp()
    ensures key == Shr(key, geo.blkLog) * geo.Blk()
    ensures ppe * geo.Bpp() > 0 && Shr(key, geo.blkLog) % (ppe * geo.Bpp()) == 0
    ensures (key + ppe * PAGE) % (ppe * PAGE) == 0
  {
    var blk, bpp, size := geo.Blk(), geo.Bpp(), ppe * PAGE;
    BlocksPerPage(geo);
    ShrIsDiv(key, geo.blkLog);
    ShrIsDiv(key + size, geo.blkLog);
    hide Shr, Pow2;
    SizeInBlocks(blk, bpp, ppe);
    MulMonotone(1, bpp, ppe);
    AlignedShift(key, size, ppe * bpp, blk);
  }

  /** The block count of `c` requests, as the scheduler shifts it out of the byte count. */
  lemma {:induction false} ShiftCount(geo: Geometry, ppe: nat, c: nat)
    requires geo.Valid() && ppe > 0
    ensures Shr(c * (ppe * PAGE), geo.blkLog) == c * ppe * geo.Bpp()
  {
    var blk, bpp, size := geo.Blk(), geo.Bpp(), ppe * PAGE;
    BlocksPerPage(geo);
    ShrIsDiv(c * size, geo.blkLog);
    hide Shr, Pow2;
    SizeInBlocks(blk, bpp, ppe);
    CountShift(c, size, ppe, bpp, blk);
  }

  lemma CountShift(c: nat, size: nat, ppe: nat, bpp: nat, blk: nat)
    requires blk > 0 && size == (ppe * bpp) * blk
    ensures (c * size) / blk == c * ppe * bpp
  {
    assert c * ((ppe * bpp) * blk) == (c * (ppe * bpp)) * blk;
    assert c * (ppe * bpp) == c * ppe * bpp;
    DivModUnique(c * size, blk, c * ppe * bpp, 0);
  }

  lemma SizeInBlocks(blk: nat, bpp: nat, ppe: nat)
    requires blk * bpp == PAGE
    ensures ppe * PAGE == (ppe * bpp) * blk
  {
    assert ppe * (blk * bpp) == (ppe * bpp) * blk;
  }

  lemma AlignedShift(key: nat, size: nat, rb: nat, blk: nat)
    requires blk > 0 && rb > 0 && size == rb * blk && size > 0 && key % size == 0
    ensures (key + size) / blk == key / blk + rb && (key + size) % size == 0
    ensures key == key / blk * blk && key / blk % rb == 0
  {
    var q := key / size;
    assert key == q * size;
    assert q * (rb * blk) == (q * rb) * blk;
    DivModUnique(key, blk, q * rb, 0);
    assert (q * rb + rb) * blk == (q * rb) * blk + rb * blk;
    DivModUnique(key + size, blk, q * rb + rb, 0);
    DivModUnique(q * rb, rb, q, 0);
    assert (q + 1) * size == q * size + size;
    DivModUnique(key + size, size, q + 1, 0);
  }

  // ----- a merged command does what its requests do -----

  lemma {:induction false} GroupBlocks(mem: Memory, t: Tables, geo: Geometry, offsets: seq<nat>, pes: seq<nat>)
    requires geo.Valid() && HasAll(t, pes) && |offsets| == |pes|
    ensures ConcatBlocks(RequestWrites(mem, t, geo, offsets, pes)) == PagesBlocks(mem, GroupPages(t, pes), geo.Bpp())
  {
    if pes != [] {
      var n := |pes| - 1;
      GroupBlocks(mem, t, geo, offsets[..n], pes[..n]);
      PagesBlocksAppend(mem, GroupPages(t, pes[..n]), EntryPages(t, pes[n], t.ppe), geo.Bpp());
      assert RequestWrites(mem, t, geo, offsets, pes)[..n] == RequestWrites(mem, t, geo, offsets[..n], pes[..n]);
      hide PagesBlocks, EntryPages, Shr;
    }
  }

  ghost predicate Consecutive(offsets: seq<nat>, size: nat) {
    forall i | 0 < i < |offsets| :: offsets[i] == offsets[i - 1] + size
  }

  lemma RequestsAdjacent(mem: Memory, t: Tables, geo: Geometry, offsets: seq<nat>, pes: seq<nat>)
    requires geo.Valid() && HasAll(t, pes) && |offsets| == |pes|
    requires Aligned(offsets, t.ppe * PAGE) && Consecutive(offsets, t.ppe * PAGE)
    ensures Adjacent(RequestWrites(mem, t, geo, offsets, pes))
  {
    hide PagesBlocks, EntryPages, Shr, Pow2;
    var ws := RequestWrites(mem, t, geo, offsets, pes);
    forall i | 0 < i < |ws|
      ensures ws[i].lba == ws[i - 1].lba + |ws[i - 1].blocks|
    {
      ShiftAligned(geo, t.ppe, offsets[i - 1]);
      PagesBlocksLength(mem, EntryPages(t, pes[i - 1], t.ppe), geo.Bpp());
    }
  }

  /** Writing the pages of a whole group at once is writing its requests in order. */
  lemma GroupIsItsRequests(disk: Contents, mem: Memory, t: Tables, geo: Geometry, offsets: seq<nat>, pes: seq<nat>)
    requires geo.Valid() && HasAll(t, pes) && |offsets| == |pes| > 0
    requires Aligned(offsets, t.ppe * PAGE) && Consecutive(offsets, t.ppe * PAGE)
    ensures Apply(disk, Write(Shr(offsets[0], geo.blkLog), PagesBlocks(mem, GroupPages(t, pes), geo.Bpp())))
         == ApplyAll(disk, RequestWrites(mem, t, geo, offsets, pes))
  {
    RequestsAdjacent(mem, t, geo, offsets, pes);
    GroupBlocks(mem, t, geo, offsets, pes);
    MergedWrite(disk, RequestWrites(mem, t, geo, offsets, pes));
  }

  // ----- building the PRPs of one group -----

  /** The list page holds entries `1 .. 1 + pi` of the group's pages. */
  ghost predicate Listed(page: seq<nat>, pages: seq<nat>, pi: nat) {
    |page| == LAST + 1 && pi <= |page| && pi + 1 <= |pages| && page[..pi] == pages[1..1 + pi]
  }

  lemma ListNext(page: seq<nat>, pages: seq<nat>, pi: nat, x: nat)
    requires Listed(page, pages, pi) && pi + 1 < |pages| <= LAST + 1 && pages[1 + pi] == x
    ensures Listed(page[pi := x], pages, pi + 1)
  {
    assert page[pi := x][..pi + 1] == page[..pi] + [x];
    assert pages[1..1 + (pi + 1)] == pages[1..1 + pi] + [x];
  }

  /** Fill the list page of `slot`: the first entry's remaining sub-pages, then all sub-pages of the others. */
  method FillList(t: Tables, pes: seq<nat>, pool: array<seq<nat>>, slot: nat)
    requires HasAll(t, pes) && |pes| > 0 && 2 < |pes| * t.ppe <= LAST + 1
    requires slot < pool.Length && |pool[slot]| == LAST + 1
    modifies pool
    ensures Listed(pool[slot], GroupPages(t, pes), |pes| * t.ppe - 1)
    ensures forall k | 0 <= k < pool.Length && k != slot :: pool[k] == old(pool[k])
  {
    ghost var pages: seq<nat> := GroupPages(t, pes);
    var pi := 0;
    GroupPagesAt(t, pes, 0, 0);
    assert pool[slot][..0] == pages[1..1];
    hide GroupPages;
    for j := 1 to t.ppe
      invariant pi == j - 1 && Listed(pool[slot], pages, pi)
      invariant forall k | 0 <= k < pool.Length && k != slot :: pool[k] == old(pool[k])
    {
      GroupPagesAt(t, pes, 0, j);
      ListNext(pool[slot], pages, pi, t.Io(pes[0], j));
      pool[slot] := pool[slot][pi := t.Io(pes[0], j)];
      pi := pi + 1;
    }
    for r := 1 to |pes|
      invariant pi == r * t.ppe - 1 && Listed(pool[slot], pages, pi)
      invariant forall k | 0 <= k < pool.Length && k != slot :: pool[k] == old(pool[k])
    {
      assert (r + 1) * t.ppe == r * t.ppe + t.ppe;
      for j := 0 to t.ppe
        invariant pi == r * t.ppe + j - 1 && Listed(pool[slot], pages, pi)
        invariant forall k | 0 <= k < pool.Length && k != slot :: pool[k] == old(pool[k])
      {
        GroupPagesAt(t, pes, r, j);
        ListNext(pool[slot], pages, pi, t.Io(pes[r], j));
        pool[slot] := pool[slot][pi := t.Io(pes[r], j)];
        pi := pi + 1;
      }
    }
  }

  /** PRP1 and PRP2 of a group: none, one direct page, or a list of at most 511 entries. */
  method BuildPrp(t: Tables, pes: seq<nat>, pool: array<seq<nat>>, ios: seq<nat>, slot: nat) returns (prp1: nat, prp2: nat)
    requires HasAll(t, pes) && |pes| > 0 && |pes| * t.ppe <= LAST + 1
    requires slot < pool.Length == |ios| && NvmCmd.PageShape(pool[..], LAST) && NvmCmd.DistinctAddresses(ios)
    modifies pool
    ensures NvmCmd.PageShape(pool[..], LAST)
    ensures forall k | 0 <= k < pool.Length && k != slot :: pool[k] == old(pool[k])
    ensures NvmCmd.WalkData(pool[..], ios, LAST, prp1, prp2, |pes| * t.ppe) == Some(GroupPages(t, pes))
    ensures |pes| * t.ppe > 2 ==> prp2 == ios[slot]
  {
    var total := |pes| * t.ppe;
    ghost var pages := GroupPages(t, pes);
    GroupPagesAt(t, pes, 0, 0);
    hide GroupPages;
    prp1, prp2 := t.Io(pes[0], 0), 0;
    if total <= 1 {
      assert pages == [prp1];
    } else if total == 2 {
      if t.ppe >= 2 {
        MulMonotone(1, |pes|, t.ppe);
        GroupPagesAt(t, pes, 0, 1);
        prp2 := t.Io(pes[0], 1);
      } else {
        GroupPagesAt(t, pes, 1, 0);
        prp2 := t.Io(pes[1], 0);
      }
      assert pages == [prp1, prp2];
    } else {
      FillList(t, pes, pool, slot);
      prp2 := ios[slot];
      ListWalk(pool[..], ios, slot, prp1, pages);
    }
  }

  lemma ListWalk(pool: seq<seq<nat>>, ios: seq<nat>, slot: nat, prp1: nat, pages: seq<nat>)
    requires slot < |pool| == |ios| && NvmCmd.PageShape(pool, LAST) && NvmCmd.DistinctAddresses(ios)
    requires 2 < |pages| <= LAST + 1 && pages[0] == prp1 && Listed(pool[slot], pages, |pages| - 1)
    ensures NvmCmd.WalkData(pool, ios, LAST, prp1, ios[slot], |pages|) == Some(pages)
  {
    NvmCmd.FindAt(ios, slot);
    assert pages[1..1 + (|pages| - 1)] == pages[1..];
    assert NvmCmd.WalkList(pool, ios, LAST, ios[slot], |pages| - 1) == Some(pages[1..]);
    assert pages == [prp1] + pages[1..];
  }

  /** A list page only matters to the command that points to it. */
  lemma WalkFrame(pool: seq<seq<nat>>, pool': seq<seq<nat>>, ios: seq<nat>, slot: nat, prp1: nat, prp2: nat, n: nat)
    requires slot < |pool| == |pool'| == |ios| && NvmCmd.DistinctAddresses(ios) && n <= LAST + 1
    requires NvmCmd.PageShape(pool, LAST) && NvmCmd.PageShape(pool', LAST)
    requires pool[slot] == pool'[slot] && (n > 2 ==> prp2 == ios[slot])
    ensures NvmCmd.WalkData(pool, ios, LAST, prp1, prp2, n) == NvmCmd.WalkData(pool', ios, LAST, prp1, prp2, n)
  {
    if n > 2 { NvmCmd.FindAt(ios, slot); }
  }

  // ----- a built group, and what executing it does -----

  /** A command as the merge phase leaves it in shared memory. */
  type Merged = ExclusiveQueue.Merged

  /** The sorted batch: offsets in disk order and the entries that hold the data. */
  datatype Batch = Batch(t: Tables, geo: Geometry, offsets: seq<nat>, pes: seq<nat>)
  {
    function Size(): nat { t.ppe * PAGE }

    ghost predicate Valid() {
      && geo.Valid() && HasAll(t, pes) && |offsets| == |pes|
      && Size() > 0 && Size() <= Merge.MERGE_TARGET && Aligned(offsets, Size())
    }

    ghost predicate Group(lo: nat, hi: nat) {
      && lo < hi <= |offsets| && Consecutive(offsets[lo..hi], Size())
      && (hi - lo) * Size() <= Merge.MERGE_TARGET
    }

    function Writes(mem: Memory, lo: nat, hi: nat): seq<Write>
      requires Valid() && lo <= hi <= |offsets|
    {
      RequestWrites(mem, t, geo, offsets, pes)[lo..hi]
    }
  }

  /** `m` is the command for the sorted requests `[lo, hi)`. */
  ghost predicate Built(b: Batch, pool: seq<seq<nat>>, ios: seq<nat>, slot: nat, m: Merged, lo: nat, hi: nat)
    requires b.Valid() && |pool| == |ios| && NvmCmd.PageShape(pool, LAST)
  {
    && b.Group(lo, hi) && slot < |ios|
    && m.lba == Shr(b.offsets[lo], b.geo.blkLog) && m.blocks == (hi - lo) * b.t.ppe * b.geo.Bpp()
    && NvmCmd.WalkData(pool, ios, LAST, m.prp1, m.prp2, (hi - lo) * b.t.ppe) == Some(GroupPages(b.t, b.pes[lo..hi]))
    && ((hi - lo) * b.t.ppe > 2 ==> m.prp2 == ios[slot])
  }

  /** A group needs at most 512 pages, so 511 list entries, and its block count fits 16 bits. */
  lemma GroupBounds(b: Batch, lo: nat, hi: nat)
    requires b.Valid() && b.Group(lo, hi)
    ensures 1 <= (hi - lo) * b.t.ppe <= LAST + 1
    ensures 1 <= (hi - lo) * b.t.ppe * b.geo.Bpp() <= 4096
  {
    var c, ppe, bpp := hi - lo, b.t.ppe, b.geo.Bpp();
    var n := c * ppe;
    assert c * (ppe * PAGE) == n * PAGE;
    MulMonotone(1, c, ppe);
    BlocksPerPage(b.geo);
    assert bpp <= 8 by {
      if bpp >= 9 { MulMonotone(512, b.geo.Blk(), bpp); }
    }
    hide Pow2;
    MulMonotone(1, bpp, n);
    MulMonotone(bpp, 8, n);
    assert n * bpp == bpp * n;
  }

  lemma ExactPages(n: nat, bpp: nat)
    requires bpp > 0
    ensures (n * bpp + bpp - 1) / bpp == n
  {
    DivModUnique(n * bpp + bpp - 1, bpp, n, bpp - 1);
  }

  lemma WritesOfSlice(b: Batch, mem: Memory, lo: nat, hi: nat)
    requires b.Valid() && lo <= hi <= |b.offsets|
    ensures HasAll(b.t, b.pes[lo..hi])
    ensures b.Writes(mem, lo, hi) == RequestWrites(mem, b.t, b.geo, b.offsets[lo..hi], b.pes[lo..hi])
  {
    hide RequestWrite, Aligned;
  }

  /** Executing a command whose PRPs describe exactly the pages `addrs`. */
  lemma ExecutePages(disk: Contents, mem: Memory, geo: Geometry, pool: seq<seq<nat>>, ios: seq<nat>, c: NvmCmd.Command,
                     addrs: seq<nat>)
    requires geo.Valid() && |pool| == |ios| && NvmCmd.PageShape(pool, LAST)
    requires c.blocks == |addrs| * geo.Bpp()
    requires NvmCmd.WalkData(pool, ios, LAST, c.prp1, c.prp2, |addrs|) == Some(addrs)
    ensures Execute(disk, mem, geo, pool, ios, c) == Apply(disk, Write(c.lba, PagesBlocks(mem, addrs, geo.Bpp())))
  {
    hide NvmCmd.WalkData, PagesBlocks, Apply, Pow2;
    ExactPages(|addrs|, geo.Bpp());
    PagesBlocksLength(mem, addrs, geo.Bpp());
    var data := PagesBlocks(mem, addrs, geo.Bpp());
    assert data[..c.blocks] == data;
  }

  /** What the command of the sorted requests `[lo, hi)` writes. */
  function CommandWrite(b: Batch, mem: Memory, lo: nat, hi: nat): Write
    requires b.Valid() && lo < hi <= |b.offsets|
  {
    Write(Shr(b.offsets[lo], b.geo.blkLog), PagesBlocks(mem, GroupPages(b.t, b.pes[lo..hi]), b.geo.Bpp()))
  }

  /** Executing a built command is one write of the group's pages. */
  lemma ExecuteCommand(disk: Contents, mem: Memory, b: Batch, pool: seq<seq<nat>>, ios: seq<nat>, slot: nat, m: Merged,
                       lo: nat, hi: nat, c: NvmCmd.Command)
    requires b.Valid() && |pool| == |ios| && NvmCmd.PageShape(pool, LAST) && Built(b, pool, ios, slot, m, lo, hi)
    requires c.prp1 == m.prp1 && c.prp2 == m.prp2 && c.lba == m.lba && c.blocks == m.blocks
    ensures Execute(disk, mem, b.geo, pool, ios, c) == Apply(disk, CommandWrite(b, mem, lo, hi))
  {
    hide Execute, GroupPages, PagesBlocks, Shr, Pow2, Apply, NvmCmd.WalkData;
    WritesOfSlice(b, mem, lo, hi);
    GroupPagesAt(b.t, b.pes[lo..hi], 0, 0);
    ExecutePages(disk, mem, b.geo, pool, ios, c, GroupPages(b.t, b.pes[lo..hi]));
  }

  /** That write does what the group's requests do in order. */
  lemma CommandIsItsRequests(disk: Contents, mem: Memory, b: Batch, lo: nat, hi: nat)
    requires b.Valid() && b.Group(lo, hi)
    ensures Apply(disk, CommandWrite(b, mem, lo, hi)) == ApplyAll(disk, b.Writes(mem, lo, hi))
  {
    hide GroupPages, PagesBlocks, Shr, Pow2, ApplyAll, Apply, RequestWrites;
    WritesOfSlice(b, mem, lo, hi);
    GroupIsItsRequests(disk, mem, b.t, b.geo, b.offsets[lo..hi], b.pes[lo..hi]);
  }

  /** Executing a built command is applying its requests in order. */
  lemma ExecuteGroup(disk: Contents, mem: Memory, b: Batch, pool: seq<seq<nat>>, ios: seq<nat>, slot: nat, m: Merged,
                     lo: nat, hi: nat, c: NvmCmd.Command)
    requires b.Valid() && |pool| == |ios| && NvmCmd.PageShape(pool, LAST) && Built(b, pool, ios, slot, m, lo, hi)
    requires c.prp1 == m.prp1 && c.prp2 == m.prp2 && c.lba == m.lba && c.blocks == m.blocks
    ensures Execute(disk, mem, b.geo, pool, ios, c) == ApplyAll(disk, b.Writes(mem, lo, hi))
  {
    hide Execute, CommandWrite, ApplyAll, Apply, NvmCmd.WalkData, GroupPages, Shr, RequestWrites;
    ExecuteCommand(disk, mem, b, pool, ios, slot, m, lo, hi, c);
    CommandIsItsRequests(disk, mem, b, lo, hi);
  }

  // ----- merge, build and submit, chunk by chunk -----

  ghost predicate Groups(b: Batch, starts: seq<nat>) {
    b.Valid() && starts == Merge.Starts(b.offsets, b.Size(), |b.offsets|)
  }

  /** Where group `g` begins; the end of the batch past the last group. */
  function Begin(starts: seq<nat>, g: nat, n: nat): nat
    requires g <= |starts|
  {
    if g < |starts| then starts[g] else n
  }

  lemma GroupAt(b: Batch, starts: seq<nat>, g: nat)
    requires Groups(b, starts) && g < |starts|
    ensures b.Group(starts[g], Merge.End(starts, g, |b.offsets|))
    ensures Begin(starts, g + 1, |b.offsets|) == Merge.End(starts, g, |b.offsets|)
    ensures var lo, hi := starts[g], Merge.End(starts, g, |b.offsets|);
            b.offsets[hi - 1] - b.offsets[lo] + b.Size() == (hi - lo) * b.Size()
  {
    Merge.GroupShape(b.offsets, b.Size(), g);
    var lo, hi := starts[g], Merge.End(starts, g, |b.offsets|);
    hide Merge.Starts, Aligned, HasAll;
    RunBytes(b.offsets, b.Size(), lo, hi);
  }

  lemma RunBytes(offsets: seq<nat>, size: nat, lo: nat, hi: nat)
    requires lo < hi <= |offsets| && Merge.Contiguous(offsets, size, lo, hi)
    requires offsets[hi - 1] == offsets[lo] + (hi - 1 - lo) * size
    ensures Consecutive(offsets[lo..hi], size)
    ensures offsets[hi - 1] - offsets[lo] + size == (hi - lo) * size
  {
    var s := offsets[lo..hi];
    forall i | 0 < i < |s| ensures s[i] == s[i - 1] + size {
      assert s[i] == offsets[lo + i] && s[i - 1] == offsets[lo + i - 1];
    }
    assert (hi - 1 - lo) * size + size == (hi - lo) * size;
  }

  /** The commands of `chunk` groups from `gpos` on are ready, one list page each. */
  ghost predicate Ready(b: Batch, starts: seq<nat>, gpos: nat, chunk: nat, pool: seq<seq<nat>>, ios: seq<nat>, merged: seq<Merged>)
    requires b.Valid() && |pool| == |ios| && NvmCmd.PageShape(pool, LAST)
  {
    && gpos + chunk <= |starts| && chunk <= |merged|
    && forall g | 0 <= g < chunk ::
         Built(b, pool, ios, g, merged[g], starts[gpos + g], Merge.End(starts, gpos + g, |b.offsets|))
  }

  lemma ReadyNext(b: Batch, starts: seq<nat>, gpos: nat, g: nat, pool: seq<seq<nat>>, pool': seq<seq<nat>>, ios: seq<nat>,
                  merged: seq<Merged>, m: Merged)
    requires b.Valid() && |pool| == |pool'| == |ios| && NvmCmd.DistinctAddresses(ios) && g < |merged| && g < |ios|
    requires NvmCmd.PageShape(pool, LAST) && NvmCmd.PageShape(pool', LAST)
    requires forall k | 0 <= k < |pool| && k != g :: pool[k] == pool'[k]
    requires Ready(b, starts, gpos, g, pool, ios, merged) && gpos + g < |starts|
    requires Built(b, pool', ios, g, m, starts[gpos + g], Merge.End(starts, gpos + g, |b.offsets|))
    ensures Ready(b, starts, gpos, g + 1, pool', ios, merged[g := m])
  {
    forall k | 0 <= k < g
      ensures Built(b, pool', ios, k, merged[k], starts[gpos + k], Merge.End(starts, gpos + k, |b.offsets|))
    {
      BuiltFrame(b, pool, pool', ios, k, merged[k], starts[gpos + k], Merge.End(starts, gpos + k, |b.offsets|));
    }
  }

  lemma BuiltFrame(b: Batch, pool: seq<seq<nat>>, pool': seq<seq<nat>>, ios: seq<nat>, slot: nat, m: Merged, lo: nat, hi: nat)
    requires b.Valid() && |pool| == |pool'| == |ios| && NvmCmd.DistinctAddresses(ios)
    requires NvmCmd.PageShape(pool, LAST) && NvmCmd.PageShape(pool', LAST)
    requires Built(b, pool, ios, slot, m, lo, hi) && pool[slot] == pool'[slot]
    ensures Built(b, pool', ios, slot, m, lo, hi)
  {
    GroupBounds(b, lo, hi);
    WalkFrame(pool, pool', ios, slot, m.prp1, m.prp2, (hi - lo) * b.t.ppe);
  }

  /** The command of one group. */
  method BuildGroup(b: Batch, lo: nat, hi: nat, pool: array<seq<nat>>, ios: seq<nat>, slot: nat) returns (m: Merged)
    requires b.Valid() && b.Group(lo, hi) && b.offsets[hi - 1] - b.offsets[lo] + b.Size() == (hi - lo) * b.Size()
    requires slot < pool.Length == |ios| && NvmCmd.PageShape(pool[..], LAST) && NvmCmd.DistinctAddresses(ios)
    modifies pool
    ensures NvmCmd.PageShape(pool[..], LAST) && Built(b, pool[..], ios, slot, m, lo, hi)
    ensures forall k | 0 <= k < pool.Length && k != slot :: pool[k] == old(pool[k])
  {
    hide *;
    GroupFacts(b, lo, hi);
    var startOffset := b.offsets[lo];
    var runBytes := b.offsets[hi - 1] - startOffset + b.Size();
    var prp1, prp2 := BuildPrp(b.t, b.pes[lo..hi], pool, ios, slot);
    m := ExclusiveQueue.Merged(Shr(startOffset, b.geo.blkLog), Shr(runBytes, b.geo.blkLog), prp1, prp2);
    BuiltIntro(b, pool[..], ios, slot, m, lo, hi);
  }

  lemma GroupFacts(b: Batch, lo: nat, hi: nat)
    requires b.Valid() && b.Group(lo, hi)
    ensures lo < hi <= |b.pes| == |b.offsets| && HasAll(b.t, b.pes[lo..hi]) && (hi - lo) * b.t.ppe <= LAST + 1
  {
    GroupBounds(b, lo, hi);
  }

  lemma BuiltIntro(b: Batch, pool: seq<seq<nat>>, ios: seq<nat>, slot: nat, m: Merged, lo: nat, hi: nat)
    requires b.Valid() && b.Group(lo, hi) && slot < |pool| == |ios| && NvmCmd.PageShape(pool, LAST)
    requires HasAll(b.t, b.pes[lo..hi])
    requires m.lba == Shr(b.offsets[lo], b.geo.blkLog) && m.blocks == Shr((hi - lo) * b.Size(), b.geo.blkLog)
    requires NvmCmd.WalkData(pool, ios, LAST, m.prp1, m.prp2, (hi - lo) * b.t.ppe) == Some(GroupPages(b.t, b.pes[lo..hi]))
    requires (hi - lo) * b.t.ppe > 2 ==> m.prp2 == ios[slot]
    ensures Built(b, pool, ios, slot, m, lo, hi)
  {
    ShiftCount(b.geo, b.t.ppe, hi - lo);
    hide Pow2, Shr, GroupPages, NvmCmd.WalkData, NvmCmd.PageShape, Consecutive, Aligned;
  }

  /** PRP construction for one chunk of groups; group `gpos + g` uses list page `g`. List pages are rewritten, so no
      command may be in flight: the queue pair must be idle. */
  method BuildChunk(b: Batch, starts: seq<nat>, gpos: nat, chunk: nat, pool: array<seq<nat>>, ios: seq<nat>, merged: array<Merged>,
                    qp: ExclusiveQueue.QueuePair)
    requires qp.Valid() && qp.flying == 0
    requires Groups(b, starts) && gpos + chunk <= |starts| && chunk <= pool.Length == |ios| && chunk <= merged.Length
    requires NvmCmd.PageShape(pool[..], LAST) && NvmCmd.DistinctAddresses(ios)
    modifies pool, merged
    ensures NvmCmd.PageShape(pool[..], LAST) && Ready(b, starts, gpos, chunk, pool[..], ios, merged[..])
    ensures qp.Valid()
  {
    assert Ready(b, starts, gpos, 0, pool[..], ios, merged[..]);
    for g := 0 to chunk
      invariant NvmCmd.PageShape(pool[..], LAST) && Ready(b, starts, gpos, g, pool[..], ios, merged[..])
    {
      GroupAt(b, starts, gpos + g);
      hide Ready, Built, NvmCmd.PageShape, NvmCmd.DistinctAddresses, Groups;
      ghost var before: seq<seq<nat>>, ms: seq<Merged> := pool[..], merged[..];
      var m := BuildGroup(b, starts[gpos + g], Merge.End(starts, gpos + g, |b.offsets|), pool, ios, g);
      ReadyNext(b, starts, gpos, g, before, pool[..], ios, ms, m);
      merged[g] := m;
      assert merged[..] == ms[g := m];
    }
  }

  lemma WritesAppend(b: Batch, mem: Memory, lo: nat, mid: nat, hi: nat, disk: Contents)
    requires b.Valid() && lo <= mid <= hi <= |b.offsets|
    ensures ApplyAll(disk, b.Writes(mem, lo, hi)) == ApplyAll(ApplyAll(disk, b.Writes(mem, lo, mid)), b.Writes(mem, mid, hi))
  {
    hide RequestWrites, ApplyAll, HasAll, Aligned;
    assert b.Writes(mem, lo, hi) == b.Writes(mem, lo, mid) + b.Writes(mem, mid, hi);
    ApplyAppend(disk, b.Writes(mem, lo, mid), b.Writes(mem, mid, hi));
  }

  /** Groups `[g0, g)` have been executed on `disk`, giving `disk'`. */
  ghost predicate Executed(b: Batch, mem: Memory, starts: seq<nat>, g0: nat, g: nat, disk: Contents, disk': Contents) {
    && b.Valid() && g0 <= g <= |starts|
    && Begin(starts, g0, |b.offsets|) <= Begin(starts, g, |b.offsets|) <= |b.offsets|
    && disk' == ApplyAll(disk, b.Writes(mem, Begin(starts, g0, |b.offsets|), Begin(starts, g, |b.offsets|)))
  }

  lemma ExecutedNone(b: Batch, mem: Memory, starts: seq<nat>, g: nat, disk: Contents)
    requires Groups(b, starts) && g <= |starts|
    ensures b.Valid() && Executed(b, mem, starts, g, g, disk, disk)
  {
    Merge.StartsCut(b.offsets, b.Size(), |b.offsets|);
    var lo := Begin(starts, g, |b.offsets|);
    assert b.Writes(mem, lo, lo) == [];
  }

  lemma ExecutedTrans(b: Batch, mem: Memory, starts: seq<nat>, g0: nat, g1: nat, g2: nat, d0: Contents, d1: Contents, d2: Contents)
    requires Executed(b, mem, starts, g0, g1, d0, d1) && Executed(b, mem, starts, g1, g2, d1, d2)
    ensures Executed(b, mem, starts, g0, g2, d0, d2)
  {
    var n := |b.offsets|;
    WritesAppend(b, mem, Begin(starts, g0, n), Begin(starts, g1, n), Begin(starts, g2, n), d0);
  }

  lemma ExecutedOne(b: Batch, mem: Memory, starts: seq<nat>, g: nat, disk: Contents)
    requires Groups(b, starts) && g < |starts|
    ensures starts[g] <= Merge.End(starts, g, |b.offsets|) <= |b.offsets|
    ensures Executed(b, mem, starts, g, g + 1, disk, ApplyAll(disk, b.Writes(mem, starts[g], Merge.End(starts, g, |b.offsets|))))
  {
    GroupAt(b, starts, g);
  }

  lemma ExecutedAll(b: Batch, mem: Memory, starts: seq<nat>, disk: Contents, disk': Contents)
    requires Groups(b, starts) && Executed(b, mem, starts, 0, |starts|, disk, disk')
    ensures disk' == ApplyAll(disk, b.Writes(mem, 0, |b.offsets|))
  {
    Merge.StartsCut(b.offsets, b.Size(), |b.offsets|);
  }

  lemma ReadyAt(b: Batch, starts: seq<nat>, gpos: nat, chunk: nat, pool: seq<seq<nat>>, ios: seq<nat>, merged: seq<Merged>, g: nat)
    requires b.Valid() && |pool| == |ios| && NvmCmd.PageShape(pool, LAST)
    requires Ready(b, starts, gpos, chunk, pool, ios, merged) && g < chunk
    ensures gpos + chunk <= |starts| && g < |merged|
    ensures Built(b, pool, ios, g, merged[g], starts[gpos + g], Merge.End(starts, gpos + g, |b.offsets|))
  {
  }

  // ----- sub-batches -----

  /** Groups per chunk: as many as there are list pages, at most 512. */
  function ChunkSize(slots: nat): (c: nat)
    ensures 1 <= c <= MAX_BATCH
  {
    if slots == 0 then 1 else if slots < MAX_BATCH then slots else MAX_BATCH
  }

  /** The place of group `g` in its chunk. */
  function InChunk(g: nat, slots: nat): (r: nat)
    ensures r < ChunkSize(slots) && r <= g
  {
    if g == 0 || InChunk(g - 1, slots) + 1 == ChunkSize(slots) then 0 else InChunk(g - 1, slots) + 1
  }

  /** The first group of the sub-batch that submits group `g`. */
  function SubHead(g: nat, slots: nat): (h: nat)
    ensures h <= g
  {
    if g == 0 || InChunk(g, slots) % KNEE_LIMIT == 0 then g else SubHead(g - 1, slots)
  }

  function SubOf(slots: nat): nat -> nat {
    (g: nat) => SubHead(g, slots)
  }

  lemma {:induction false} HeadsAscend(i: nat, j: nat, slots: nat)
    requires i <= j
    ensures SubHead(i, slots) <= SubHead(j, slots)
  {
    if i < j {
      HeadsAscend(i, j - 1, slots);
    }
  }

  lemma SubsAscend(slots: nat)
    ensures Ascending(SubOf(slots))
  {
    hide SubHead;
    forall i: nat, j: nat | i <= j ensures SubOf(slots)(i) <= SubOf(slots)(j) {
      HeadsAscend(i, j, slots);
    }
  }

  /** A sub-batch that starts at place `s` of its chunk: all its groups have the same head. */
  lemma {:induction false} SubRange(g: nat, s: nat, n: nat, slots: nat)
    requires InChunk(g, slots) == s && s % KNEE_LIMIT == 0 && s + n < ChunkSize(slots) && n < KNEE_LIMIT
    ensures InChunk(g + n, slots) == s + n && SubHead(g + n, slots) == g
  {
    if n > 0 {
      SubRange(g, s, n - 1, slots);
      assert (s + n) % KNEE_LIMIT == n;
    }
  }

  /** The next sub-batch of the chunk, or the next chunk. */
  lemma SubNext(g: nat, s: nat, n: nat, slots: nat)
    requires InChunk(g, slots) == s && s % KNEE_LIMIT == 0 && 0 < n <= KNEE_LIMIT && s + n <= ChunkSize(slots)
    ensures InChunk(g + n, slots) == if s + n == ChunkSize(slots) then 0 else s + n
  {
    SubRange(g, s, n - 1, slots);
  }

  // ----- the controller -----

  /** How the controller treats the sub-batch of `n` commands that starts with group `g`: the order `pick(g, n)` in which
      it executes them, and how many it has executed and posted by the `k`-th time it is polled. */
  datatype Device = Device(pick: (nat, nat) -> seq<nat>, work: (nat, nat) -> nat, post: (nat, nat) -> nat, patience: nat)
  {
    /** It executes each command once, and sooner or later all of them. */
    ghost predicate Able() {
      && (forall g: nat, n: nat :: |pick(g, n)| == n && IsPermutation(pick(g, n)))
      && (forall g: nat :: work(g, patience) >= KNEE_LIMIT && post(g, patience) >= KNEE_LIMIT)
    }
  }

  /** What the commands of all groups write, in submission order. */
  function CommandWrites(b: Batch, mem: Memory, starts: seq<nat>): (ws: seq<Write>)
    requires b.Valid() && Merge.Cuts(starts, |b.offsets|)
    ensures |ws| == |starts|
    ensures forall g | 0 <= g < |starts| :: ws[g] == CommandWrite(b, mem, starts[g], Merge.End(starts, g, |b.offsets|))
  {
    seq(|starts|, g requires 0 <= g < |starts| => CommandWrite(b, mem, starts[g], Merge.End(starts, g, |b.offsets|)))
  }

  /** The first `g` commands have been executed in the order `order`, which only rearranges sub-batches. */
  ghost predicate Done(ws: seq<Write>, slots: nat, g: nat, order: seq<nat>, disk: Contents, disk': Contents) {
    g <= |ws| && Within(order, g, SubOf(slots)) && disk' == ApplyAll(disk, Gather(ws[..g], order))
  }

  function Shifted(order: seq<nat>, g: nat): (s: seq<nat>)
    ensures |s| == |order| && forall e | 0 <= e < |order| :: s[e] == order[e] + g
  {
    seq(|order|, e requires 0 <= e < |order| => order[e] + g)
  }

  lemma AppendPermutation(xs: seq<nat>, ys: seq<nat>)
    requires IsPermutation(xs) && IsPermutation(ys)
    ensures IsPermutation(xs + Shifted(ys, |xs|))
  {
    var all := xs + Shifted(ys, |xs|);
    forall i | 0 <= i < |all| ensures i in all {
      if i < |xs| {
        assert i in xs;
      } else {
        assert i - |xs| in ys;
        var e :| 0 <= e < |ys| && ys[e] == i - |xs|;
        assert all[|xs| + e] == i;
      }
    }
  }

  lemma AppendWithin(order: seq<nat>, g: nat, s: nat, n: nat, slots: nat, pick: seq<nat>)
    requires Within(order, g, SubOf(slots)) && IsPermutation(pick) && |pick| == n <= KNEE_LIMIT
    requires InChunk(g, slots) == s && s % KNEE_LIMIT == 0 && s + n <= ChunkSize(slots)
    ensures Within(order + Shifted(pick, g), g + n, SubOf(slots))
  {
    hide InChunk, SubHead, ChunkSize;
    AppendPermutation(order, pick);
    var all := order + Shifted(pick, g);
    forall p | 0 <= p < g + n ensures SubOf(slots)(all[p]) == SubOf(slots)(p) {
      if p >= g {
        SubRange(g, s, p - g, slots);
        SubRange(g, s, pick[p - g], slots);
      }
    }
  }

  lemma DoneNone(ws: seq<Write>, slots: nat, disk: Contents)
    ensures Done(ws, slots, 0, [], disk, disk)
  {
  }

  lemma DoneNext(ws: seq<Write>, slots: nat, g: nat, s: nat, n: nat, order: seq<nat>, pick: seq<nat>,
                 disk: Contents, disk': Contents, disk'': Contents)
    requires Done(ws, slots, g, order, disk, disk') && g + n <= |ws| && IsPermutation(pick) && |pick| == n <= KNEE_LIMIT
    requires InChunk(g, slots) == s && s % KNEE_LIMIT == 0 && s + n <= ChunkSize(slots)
    requires disk'' == ApplyAll(disk', Gather(ws[g..g + n], pick))
    ensures Done(ws, slots, g + n, order + Shifted(pick, g), disk, disk'')
  {
    hide ApplyAll, InChunk, SubOf, ChunkSize;
    AppendWithin(order, g, s, n, slots, pick);
    ApplyAppend(disk, Gather(ws[..g], order), Gather(ws[g..g + n], pick));
    assert Gather(ws[..g + n], order + Shifted(pick, g)) == Gather(ws[..g], order) + Gather(ws[g..g + n], pick);
  }

  // ----- submit -----

  lemma ChunkCountable(b: Batch, starts: seq<nat>, gpos: nat, chunk: nat, pool: seq<seq<nat>>, ios: seq<nat>, merged: seq<Merged>,
                       s: nat, n: nat)
    requires b.Valid() && |pool| == |ios| && NvmCmd.PageShape(pool, LAST)
    requires Ready(b, starts, gpos, chunk, pool, ios, merged) && s + n <= chunk
    ensures s + n <= |merged| && ExclusiveQueue.Countable(merged[s..s + n])
  {
    hide GroupPages, NvmCmd.WalkData, NvmCmd.PageShape;
    var ms := merged[s..s + n];
    forall i | 0 <= i < n ensures 1 <= ms[i].blocks <= NvmCmd.D16 {
      var g := s + i;
      assert Built(b, pool, ios, g, merged[g], starts[gpos + g], Merge.End(starts, gpos + g, |b.offsets|));
      GroupBounds(b, starts[gpos + g], Merge.End(starts, gpos + g, |b.offsets|));
    }
  }

  lemma AppliedNext(disk: Contents, ws: seq<Write>, e: nat)
    requires e < |ws|
    ensures ApplyAll(disk, ws[..e + 1]) == Apply(ApplyAll(disk, ws[..e]), ws[e])
  {
    assert ws[..e + 1][..e] == ws[..e];
  }

  /** The transfer a command describes. */
  function AsMerged(cmd: seq<nat>): Merged
    requires |cmd| == 16
  {
    var c := NvmCmd.Decode(cmd);
    ExclusiveQueue.Merged(c.lba, c.blocks, c.prp1, c.prp2)
  }

  /** The command of group `gpos + slot`, whenever the controller executes it, finds PRPs that decode to that group. */
  ghost predicate Decodes(b: Batch, starts: seq<nat>, gpos: nat, slot: nat, pool: seq<seq<nat>>, ios: seq<nat>, cmd: seq<nat>)
    requires b.Valid() && |pool| == |ios| && NvmCmd.PageShape(pool, LAST)
  {
    && gpos + slot < |starts| && |cmd| == 16
    && Built(b, pool, ios, slot, AsMerged(cmd), starts[gpos + slot], Merge.End(starts, gpos + slot, |b.offsets|))
  }

  /** That holds of each of the `n` commands of a sub-batch in flight. */
  ghost predicate InFlight(b: Batch, starts: seq<nat>, gpos: nat, s: nat, n: nat, pool: seq<seq<nat>>, ios: seq<nat>,
                           fetched: seq<seq<nat>>)
    requires b.Valid() && |pool| == |ios| && NvmCmd.PageShape(pool, LAST)
  {
    |fetched| == n && forall i | 0 <= i < n :: Decodes(b, starts, gpos, s + i, pool, ios, fetched[i])
  }

  lemma TakesOff(b: Batch, starts: seq<nat>, gpos: nat, chunk: nat, s: nat, n: nat, pool: seq<seq<nat>>, ios: seq<nat>,
                 merged: seq<Merged>, fetched: seq<seq<nat>>, ns: nat, baseCid: nat)
    requires b.Valid() && |pool| == |ios| && NvmCmd.PageShape(pool, LAST)
    requires Ready(b, starts, gpos, chunk, pool, ios, merged) && s + n <= chunk
    requires ExclusiveQueue.Encodes(fetched, merged[s..s + n], NVM_IO_WRITE, ns, baseCid)
    ensures InFlight(b, starts, gpos, s, n, pool, ios, fetched)
  {
    hide Built, NvmCmd.PageShape, NvmCmd.Decode, Batch.Valid;
    var ms := merged[s..s + n];
    forall i | 0 <= i < n ensures Decodes(b, starts, gpos, s + i, pool, ios, fetched[i]) {
      assert ExclusiveQueue.EncodesOne(fetched[i], ms[i], NVM_IO_WRITE, ns, (baseCid + i) % NvmCmd.D16);
      assert AsMerged(fetched[i]) == merged[s + i];
    }
  }

  lemma ExecuteInFlight(b: Batch, mem: Memory, starts: seq<nat>, gpos: nat, s: nat, n: nat, pool: seq<seq<nat>>, ios: seq<nat>,
                        fetched: seq<seq<nat>>, i: nat, disk: Contents)
    requires b.Valid() && Merge.Cuts(starts, |b.offsets|) && |pool| == |ios| && NvmCmd.PageShape(pool, LAST)
    requires InFlight(b, starts, gpos, s, n, pool, ios, fetched) && i < n
    ensures b.geo.Valid() && gpos + s + i < |starts| && |fetched| == n && |fetched[i]| == 16
    ensures Execute(disk, mem, b.geo, pool, ios, NvmCmd.Decode(fetched[i])) == Apply(disk, CommandWrites(b, mem, starts)[gpos + s + i])
  {
    hide Execute, Apply, CommandWrite, Built, NvmCmd.PageShape, Merge.Cuts, NvmCmd.Decode;
    var g := gpos + s + i;
    assert Decodes(b, starts, gpos, s + i, pool, ios, fetched[i]);
    ExecuteCommand(disk, mem, b, pool, ios, s + i, AsMerged(fetched[i]), starts[g], Merge.End(starts, g, |b.offsets|),
                   NvmCmd.Decode(fetched[i]));
  }

  /** The writes of the sub-batch in the order the controller picks. */
  ghost function Picked(b: Batch, mem: Memory, starts: seq<nat>, g: nat, n: nat, pick: seq<nat>): (ws: seq<Write>)
    requires b.Valid() && Merge.Cuts(starts, |b.offsets|) && g + n <= |starts| && IsPermutation(pick) && |pick| == n
    ensures |ws| == n
  {
    Gather(CommandWrites(b, mem, starts)[g..g + n], pick)
  }

  lemma ExecutePicked(b: Batch, mem: Memory, starts: seq<nat>, gpos: nat, s: nat, n: nat, pool: seq<seq<nat>>, ios: seq<nat>,
                      fetched: seq<seq<nat>>, pick: seq<nat>, e: nat, disk0: Contents)
    requires b.Valid() && Merge.Cuts(starts, |b.offsets|) && |pool| == |ios| && NvmCmd.PageShape(pool, LAST)
    requires InFlight(b, starts, gpos, s, n, pool, ios, fetched) && gpos + s + n <= |starts|
    requires IsPermutation(pick) && |pick| == n && e < n
    ensures b.geo.Valid() && pick[e] < |fetched| && |fetched[pick[e]]| == 16
    ensures var ws := Picked(b, mem, starts, gpos + s, n, pick);
            Execute(ApplyAll(disk0, ws[..e]), mem, b.geo, pool, ios, NvmCmd.Decode(fetched[pick[e]])) == ApplyAll(disk0, ws[..e + 1])
  {
    hide Execute, ApplyAll, Apply, InFlight, Decodes, NvmCmd.PageShape, Merge.Cuts, NvmCmd.Decode, Batch.Valid, CommandWrite;
    var ws := Picked(b, mem, starts, gpos + s, n, pick);
    ExecuteInFlight(b, mem, starts, gpos, s, n, pool, ios, fetched, pick[e], ApplyAll(disk0, ws[..e]));
    AppliedNext(disk0, ws, e);
    assert ws[e] == CommandWrites(b, mem, starts)[gpos + s + pick[e]];
  }

  /** The controller executes commands of the sub-batch until `upto` of them are done, reading the list pages as they
      stand at that moment. */
  method Work(b: Batch, mem: Memory, starts: seq<nat>, gpos: nat, s: nat, n: nat, pool: array<seq<nat>>, ios: seq<nat>,
              fetched: seq<seq<nat>>, pick: seq<nat>, qp: ExclusiveQueue.QueuePair, e: nat, upto: nat, disk: Contents, ghost disk0: Contents)
    returns (disk': Contents)
    requires b.Valid() && Merge.Cuts(starts, |b.offsets|) && pool.Length == |ios| && NvmCmd.PageShape(pool[..], LAST)
    requires InFlight(b, starts, gpos, s, n, pool[..], ios, fetched) && gpos + s + n <= |starts|
    requires IsPermutation(pick) && |pick| == n && qp.Busy(n) && qp.flying == n - e && e <= upto <= n
    requires disk == ApplyAll(disk0, Picked(b, mem, starts, gpos + s, n, pick)[..e])
    modifies qp`flying
    ensures qp.Busy(n) && qp.flying == n - upto
    ensures disk' == ApplyAll(disk0, Picked(b, mem, starts, gpos + s, n, pick)[..upto])
  {
    hide *;
    disk' := disk;
    for i := e to upto
      invariant qp.Busy(n) && qp.flying == n - i
      invariant disk' == ApplyAll(disk0, Picked(b, mem, starts, gpos + s, n, pick)[..i])
    {
      ExecutePicked(b, mem, starts, gpos, s, n, pool[..], ios, fetched, pick, i, disk0);
      disk' := Execute(disk', mem, b.geo, pool[..], ios, NvmCmd.Decode(fetched[pick[i]]));
      qp.Retire(n);
    }
  }

  function Min(a: nat, b: nat): nat {
    if a < b then a else b
  }

  function Max(a: nat, b: nat): nat {
    if a < b then b else a
  }

  /** Commands fit both queues under the knee limit. */
  ghost predicate Roomy(qp: ExclusiveQueue.QueuePair) {
    KNEE_LIMIT < Pow2(qp.sqLog) && KNEE_LIMIT < Pow2(qp.cqLog)
  }

  /** sched_write_batch_merged on `n` groups of the chunk. From the doorbell until the last completion is seen, the
      controller executes the commands whenever and in whatever order it likes. */
  method SubmitSub(b: Batch, mem: Memory, starts: seq<nat>, gpos: nat, chunk: nat, s: nat, n: nat, pool: array<seq<nat>>,
                   ios: seq<nat>, merged: array<Merged>, qp: ExclusiveQueue.QueuePair, ns: nat, device: Device, disk: Contents)
    returns (disk': Contents)
    requires b.Valid() && Merge.Cuts(starts, |b.offsets|) && gpos + chunk <= |starts| && s + n <= chunk && 0 < n <= KNEE_LIMIT
    requires pool.Length == |ios| && NvmCmd.PageShape(pool[..], LAST) && chunk <= merged.Length
    requires Ready(b, starts, gpos, chunk, pool[..], ios, merged[..])
    requires qp.Valid() && Roomy(qp) && device.Able()
    modifies qp
    ensures qp.Valid()
    ensures disk' == ApplyAll(disk, Gather(CommandWrites(b, mem, starts)[gpos + s..gpos + s + n], device.pick(gpos + s, n)))
  {
    hide Merge.Cuts, NvmCmd.PageShape, ApplyAll, InFlight, CommandWrite, Ready, ExclusiveQueue.QueuePair.Busy,
      ExclusiveQueue.QueuePair.Valid, Batch.Valid, ExclusiveQueue.Encodes, ExclusiveQueue.Countable;
    ChunkCountable(b, starts, gpos, chunk, pool[..], ios, merged[..], s, n);
    var g, sub := gpos + s, merged[s..s + n];
    assert sub == merged[..][s..s + n];
    var pick := device.pick(g, n);
    var baseCid, fetched := qp.Begin(NVM_IO_WRITE, ns, sub);
    TakesOff(b, starts, gpos, chunk, s, n, pool[..], ios, merged[..], fetched, ns, baseCid);
    ghost var ws := Picked(b, mem, starts, g, n, pick);
    var base, k, e := qp.posted, 0, 0;
    disk' := disk;
    assert ApplyAll(disk, ws[..0]) == disk by { AppliedNone(disk, ws); }
    while true
      invariant qp.Busy(n) && e <= n && qp.flying == n - e && base == qp.total <= qp.posted <= base + e && k <= device.patience
      invariant disk' == ApplyAll(disk, ws[..e])
      decreases device.patience - k
    {
      var upto := Max(e, Min(n, device.work(g, k)));
      disk' := Work(b, mem, starts, gpos, s, n, pool, ios, fetched, pick, qp, e, upto, disk', disk);
      e := upto;
      qp.Post(n, Max(qp.posted, base + Min(e, device.post(g, k))));
      var done := qp.LastSeen(n);
      if done {
        break;
      }
      k := k + 1;
    }
    qp.End(n, baseCid);
    assert ws[..n] == ws;
  }

  lemma AppliedNone(disk: Contents, ws: seq<Write>)
    ensures ApplyAll(disk, ws[..0]) == disk
  {
    assert ws[..0] == [];
  }

  /** Submit a chunk, at most `KNEE_LIMIT` commands at a time, waiting for each such sub-batch. */
  method SubmitChunk(b: Batch, mem: Memory, starts: seq<nat>, gpos: nat, chunk: nat, pool: array<seq<nat>>, ios: seq<nat>,
                     merged: array<Merged>, qp: ExclusiveQueue.QueuePair, ns: nat, device: Device, order: seq<nat>,
                     ghost disk0: Contents, disk: Contents)
    returns (order': seq<nat>, disk': Contents)
    requires b.Valid() && Merge.Cuts(starts, |b.offsets|) && gpos + chunk <= |starts|
    requires pool.Length == |ios| && NvmCmd.PageShape(pool[..], LAST) && chunk <= merged.Length
    requires Ready(b, starts, gpos, chunk, pool[..], ios, merged[..])
    requires InChunk(gpos, pool.Length) == 0 && chunk <= ChunkSize(pool.Length)
    requires qp.Valid() && Roomy(qp) && device.Able()
    requires Done(CommandWrites(b, mem, starts), pool.Length, gpos, order, disk0, disk)
    modifies qp
    ensures qp.Valid()
    ensures Done(CommandWrites(b, mem, starts), pool.Length, gpos + chunk, order', disk0, disk')
    ensures chunk == ChunkSize(pool.Length) ==> InChunk(gpos + chunk, pool.Length) == 0
  {
    hide Merge.Cuts, NvmCmd.PageShape, ApplyAll, Done, InChunk, ChunkSize, CommandWrite, Ready, ExclusiveQueue.QueuePair.Valid, Batch.Valid,
      IsPermutation, Roomy;
    order', disk' := order, disk;
    var s := 0;
    while s < chunk
      invariant s <= chunk && qp.Valid() && (s < chunk ==> s % KNEE_LIMIT == 0)
      invariant InChunk(gpos + s, pool.Length) == if s == ChunkSize(pool.Length) then 0 else s
      invariant Done(CommandWrites(b, mem, starts), pool.Length, gpos + s, order', disk0, disk')
    {
      var n := if chunk - s > KNEE_LIMIT then KNEE_LIMIT else chunk - s;
      ghost var before := disk';
      disk' := SubmitSub(b, mem, starts, gpos, chunk, s, n, pool, ios, merged, qp, ns, device, disk');
      var pick := device.pick(gpos + s, n);
      DoneNext(CommandWrites(b, mem, starts), pool.Length, gpos + s, s, n, order', pick, disk0, before, disk');
      SubNext(gpos + s, s, n, pool.Length);
      order' := order' + Shifted(pick, gpos + s);
      s := s + n;
    }
  }

  lemma GroupsCut(b: Batch, starts: seq<nat>)
    requires Groups(b, starts)
    ensures b.Valid() && Merge.Cuts(starts, |b.offsets|)
  {
    Merge.StartsCut(b.offsets, b.Size(), |b.offsets|);
  }

  /** Phases 3 and 4: all groups, in chunks no larger than the pool of list pages. `order` is the order in which the
      controller executed the commands; the waits confine it to sub-batches. */
  method MergeAndSubmit(b: Batch, mem: Memory, starts: seq<nat>, pool: array<seq<nat>>, ios: seq<nat>, merged: array<Merged>,
                        qp: ExclusiveQueue.QueuePair, ns: nat, device: Device, disk: Contents)
    returns (order: seq<nat>, disk': Contents)
    requires Groups(b, starts) && 0 < pool.Length == |ios| && merged.Length == MAX_BATCH
    requires NvmCmd.PageShape(pool[..], LAST) && NvmCmd.DistinctAddresses(ios)
    requires qp.Valid() && Roomy(qp) && device.Able()
    modifies pool, merged, qp
    ensures NvmCmd.PageShape(pool[..], LAST) && qp.Valid()
    ensures b.Valid() && Merge.Cuts(starts, |b.offsets|)
    ensures Done(CommandWrites(b, mem, starts), pool.Length, |starts|, order, disk, disk')
  {
    hide Groups, NvmCmd.PageShape, NvmCmd.DistinctAddresses, Merge.Cuts, ApplyAll, Done, InChunk, CommandWrite, Ready, Batch.Valid,
      ExclusiveQueue.QueuePair.Valid, Roomy, Device.Able;
    GroupsCut(b, starts);
    DoneNone(CommandWrites(b, mem, starts), pool.Length, disk);
    order, disk' := [], disk;
    var gpos := 0;
    assert InChunk(0, pool.Length) == 0 by { FirstPlace(pool.Length); }
    while gpos < |starts|
      invariant gpos <= |starts| && NvmCmd.PageShape(pool[..], LAST) && qp.Valid()
      invariant gpos < |starts| ==> InChunk(gpos, pool.Length) == 0
      invariant Done(CommandWrites(b, mem, starts), pool.Length, gpos, order, disk, disk')
    {
      var chunk := |starts| - gpos;
      if chunk > pool.Length { chunk := pool.Length; }
      if chunk > MAX_BATCH { chunk := MAX_BATCH; }
      qp.Idle();
      BuildChunk(b, starts, gpos, chunk, pool, ios, merged, qp);
      order, disk' := SubmitChunk(b, mem, starts, gpos, chunk, pool, ios, merged, qp, ns, device, order, disk, disk');
      gpos := gpos + chunk;
    }
  }

  lemma FirstPlace(slots: nat)
    ensures InChunk(0, slots) == 0
  {
  }
}

// Address generation of the benchmark producers (benchmarks/io/io_workload.h):
// which page each worker touches at each iteration.
module Workload {
  import opened Bits

  const WORD: nat := 0x1_0000_0000_0000_0000

  const MULTIPLIER_1: nat := 0x9e37_79b9_7f4a_7c15
  const MULTIPLIER_2: nat := 0xbf58_476d_1ce4_e5b9
  const INVERSE_1: nat := 0xf1de_83e1_9937_733d
  const INVERSE_2: nat := 0x96de_1b17_3f11_9089

  // ----- the three generators, as the source computes them -----

  function AeWorker(worker: nat, workers: nat, transpose: bool): nat {
    if transpose && workers >= 32 then (worker % 32) * (workers / 32) + worker / 32 else worker
  }

  /** The tile length in force: zero or an oversized tile means the whole share. */
  function EffectiveTile(tile: nat, perWorker: nat): (t: nat)
    ensures perWorker > 0 ==> 0 < t <= perWorker
  {
    if tile == 0 || tile > perWorker then perWorker else tile
  }

  function AeIndex(worker: nat, iteration: nat, pages: nat, workers: nat, tile: nat): nat
    requires 0 < workers <= pages
  {
    QuotientPositive(pages, workers);
    TileIndex(worker, iteration, workers, EffectiveTile(tile, pages / workers))
  }

  function TileIndex(worker: nat, iteration: nat, workers: nat, t: nat): nat
    requires t > 0
  {
    (iteration / t * workers + worker) * t + iteration % t
  }

  function AePage(index: nat, pages: nat, seed: nat, random: bool): nat
    requires pages > 0
  {
    if !random then index
    else
      var x0 := XorShift(index, 7);
      var x1 := And((x0 * MULTIPLIER_1 + seed) % WORD, pages - 1);
      var x2 := XorShift(x1, 13);
      var x3 := And((x2 * MULTIPLIER_2 + seed) % WORD, pages - 1);
      XorShift(x3, 11)
  }

  function XorShift(x: nat, s: nat): nat {
    Xor(x, Shr(x, s))
  }

  lemma QuotientPositive(a: nat, b: nat)
    requires 0 < b <= a
    ensures a / b >= 1
  {
    assert a == (a / b) * b + a % b;
  }

  // ----- the mixing rounds are invertible -----

  function UnXorShift(y: nat, s: nat): nat
    requires s > 0
  {
    if y == 0 then 0
    else
      assert Shr(y, s) < y by { ShrBound(y, s); }
      Xor(y, UnXorShift(Shr(y, s), s))
  }

  lemma {:induction false} UnXorShiftLeft(x: nat, s: nat)
    requires s > 0
    ensures UnXorShift(XorShift(x, s), s) == x
  {
    var y := XorShift(x, s);
    XorCancel(x, Shr(x, s));
    if x == 0 {
      assert Shr(0, s) == 0 by { ShrBound(0, s); }
    } else {
      ShrBound(x, s);
      XorShr(x, Shr(x, s), s);
      assert Shr(y, s) == XorShift(Shr(x, s), s);
      UnXorShiftLeft(Shr(x, s), s);
      if y == 0 {
        // then x equals its own shift, which is smaller
        XorZeroLeft(Shr(x, s));
      }
    }
  }

  lemma {:induction false} XorZeroLeft(b: nat)
    ensures Xor(0, b) == b
  {
    if b != 0 { XorZeroLeft(b / 2); }
  }

  lemma {:induction false} UnXorShiftRight(y: nat, s: nat)
    requires s > 0
    ensures XorShift(UnXorShift(y, s), s) == y
  {
    if y == 0 {
      ShrBound(0, s);
    } else {
      ShrBound(y, s);
      var u := UnXorShift(Shr(y, s), s);
      UnXorShiftRight(Shr(y, s), s);
      var z := UnXorShift(y, s);
      XorShr(y, u, s);
      XorCancel(u, Shr(u, s));
      assert Shr(z, s) == u;
      XorCancel(y, u);
    }
  }

  lemma {:induction false} XorShiftBound(x: nat, s: nat, k: nat)
    requires x < Pow2(k)
    ensures XorShift(x, s) < Pow2(k)
  {
    ShrBound(x, s);
    XorBound(x, Shr(x, s), k);
  }

  lemma {:induction false} UnXorShiftBound(y: nat, s: nat, k: nat)
    requires s > 0 && y < Pow2(k)
    ensures UnXorShift(y, s) < Pow2(k)
  {
    if y != 0 {
      ShrBound(y, s);
      UnXorShiftBound(Shr(y, s), s, k);
      XorBound(y, UnXorShift(Shr(y, s), s), k);
    }
  }

  function Scramble(x: nat, c: nat, seed: nat, k: nat): nat {
    (x * c + seed) % WORD % Pow2(k)
  }

  function Unscramble(y: nat, inv: nat, seed: nat, k: nat): nat
    requires seed < WORD
  {
    ((y + (WORD - seed)) * inv) % Pow2(k)
  }

  lemma WordIsMultiple(k: nat) returns (w: nat)
    requires k <= 64
    ensures w > 0 && WORD == w * Pow2(k)
  {
    Pow2Of64();
    Pow2Add(64 - k, k);
    w := Pow2(64 - k);
  }

  lemma ScrambleIsModular(x: nat, c: nat, seed: nat, k: nat)
    requires k <= 64
    ensures Scramble(x, c, seed, k) == (x * c + seed) % Pow2(k)
  {
    var w := WordIsMultiple(k);
    ModOfMultiple(x * c + seed, Pow2(k), w);
    assert w * Pow2(k) == Pow2(k) * w;
  }

  /** `x * c * inv` is `x` plus a multiple of `W` when `c * inv` is one plus a multiple of `W`. */
  lemma CancelInverse(x: int, c: int, inv: int, q: int, W: int)
    requires c * inv == 1 + q * W
    ensures x * c * inv == x + (x * q) * W
  {
    assert x * c * inv == x * (c * inv);
    assert x * (1 + q * W) == x + x * (q * W);
    assert x * (q * W) == (x * q) * W;
  }

  lemma MultipleOfMultiple(a: int, t: int, W: int, w: int, m: int)
    requires m > 0 && W == w * m
    ensures (a + t * W) % m == a % m
  {
    assert t * W == (t * w) * m;
    ModAddMultiple(a, m, t * w);
  }

  lemma UnscrambleLeft(x: nat, c: nat, inv: nat, q: nat, seed: nat, k: nat)
    requires k <= 64 && seed < WORD && x < Pow2(k) && c * inv == 1 + q * WORD
    ensures Unscramble(Scramble(x, c, seed, k), inv, seed, k) == x
  {
    var m := Pow2(k);
    var w := WordIsMultiple(k);
    ScrambleIsModular(x, c, seed, k);
    InverseMod(Scramble(x, c, seed, k), x, c, inv, q, seed, WORD, w, m);
    DivModUnique(x, m, 0, x);
  }

  lemma InverseMod(y: nat, x: nat, c: nat, inv: nat, q: nat, seed: nat, W: nat, w: nat, m: nat)
    requires m > 0 && W == w * m && seed < W && c * inv == 1 + q * W
    requires y == (x * c + seed) % m
    ensures ((y + (W - seed)) * inv) % m == x % m
  {
    DivModUnique(y, m, 0, y);
    ModMulAdd(y, x * c + seed, 1, W - seed, m);
    assert (y + (W - seed)) % m == (x * c + 1 * W) % m;
    MultipleOfMultiple(x * c, 1, W, w, m);
    ModMulAdd(y + (W - seed), x * c, inv, 0, m);
    CancelInverse(x, c, inv, q, W);
    MultipleOfMultiple(x, x * q, W, w, m);
  }

  lemma UnscrambleRight(y: nat, c: nat, inv: nat, q: nat, seed: nat, k: nat)
    requires k <= 64 && seed < WORD && y < Pow2(k) && c * inv == 1 + q * WORD
    ensures Unscramble(y, inv, seed, k) < Pow2(k)
    ensures Scramble(Unscramble(y, inv, seed, k), c, seed, k) == y
  {
    var m := Pow2(k);
    var w := WordIsMultiple(k);
    var x := Unscramble(y, inv, seed, k);
    ScrambleIsModular(x, c, seed, k);
    ForwardMod(x, y, c, inv, q, seed, WORD, w, m);
    DivModUnique(y, m, 0, y);
  }

  lemma ForwardMod(x: nat, y: nat, c: nat, inv: nat, q: nat, seed: nat, W: nat, w: nat, m: nat)
    requires m > 0 && W == w * m && seed < W && c * inv == 1 + q * W
    requires x == ((y + (W - seed)) * inv) % m
    ensures (x * c + seed) % m == y % m
  {
    var z := y + (W - seed);
    DivModUnique(x, m, 0, x);
    ModMulAdd(x, z * inv, c, seed, m);
    assert c * inv == inv * c;
    CancelInverse(z, inv, c, q, W);
    assert z * inv * c + seed == y + (1 + z * q) * W;
    MultipleOfMultiple(y, 1 + z * q, W, w, m);
  }

  function AePageInverse(page: nat, k: nat, seed: nat, random: bool): nat
    requires seed < WORD
  {
    if !random then page
    else
      var x3 := UnXorShift(page, 11);
      var x2 := Unscramble(x3, INVERSE_2, seed, k);
      var x1 := UnXorShift(x2, 13);
      var x0 := Unscramble(x1, INVERSE_1, seed, k);
      UnXorShift(x0, 7)
  }

  /** `AePage` as the composition of five invertible rounds on `[0, 2^k)`. */
  lemma AePageRounds(index: nat, k: nat, seed: nat)
    requires k <= 64
    ensures AePage(index, Pow2(k), seed, true) ==
            XorShift(Scramble(XorShift(Scramble(XorShift(index, 7), MULTIPLIER_1, seed, k), 13), MULTIPLIER_2, seed, k), 11)
  {
    hide XorShift, Scramble, And, Pow2;
    RoundIsScramble(XorShift(index, 7), MULTIPLIER_1, seed, k);
    var x1 := Scramble(XorShift(index, 7), MULTIPLIER_1, seed, k);
    RoundIsScramble(XorShift(x1, 13), MULTIPLIER_2, seed, k);
  }

  lemma RoundIsScramble(x: nat, c: nat, seed: nat, k: nat)
    ensures And((x * c + seed) % WORD, Pow2(k) - 1) == Scramble(x, c, seed, k)
  {
    AndMask((x * c + seed) % WORD, k);
  }

  /** `ae_page` maps `[0, 2^k)` into itself, and `AePageInverse` undoes it. */
  lemma AePageLeftInverse(index: nat, k: nat, seed: nat, random: bool)
    requires k <= 64 && seed < WORD && index < Pow2(k)
    ensures AePage(index, Pow2(k), seed, random) < Pow2(k)
    ensures AePageInverse(AePage(index, Pow2(k), seed, random), k, seed, random) == index
  {
    if random {
      AePageRounds(index, k, seed);
      var x0 := XorShift(index, 7);
      XorShiftBound(index, 7, k);
      var x1 := Scramble(x0, MULTIPLIER_1, seed, k);
      var x2 := XorShift(x1, 13);
      XorShiftBound(x1, 13, k);
      var x3 := Scramble(x2, MULTIPLIER_2, seed, k);
      XorShiftBound(x3, 11, k);
      UnXorShiftLeft(x3, 11);
      UnscrambleLeft(x2, MULTIPLIER_2, INVERSE_2, 8125545580553827436, seed, k);
      UnXorShiftLeft(x1, 13);
      UnscrambleLeft(x0, MULTIPLIER_1, INVERSE_1, 10771413168148108919, seed, k);
      UnXorShiftLeft(index, 7);
    }
  }

  /** Every page of `[0, 2^k)` is hit: `AePageInverse` is a right inverse too. */
  lemma AePageRightInverse(page: nat, k: nat, seed: nat, random: bool)
    requires k <= 64 && seed < WORD && page < Pow2(k)
    ensures AePageInverse(page, k, seed, random) < Pow2(k)
    ensures AePage(AePageInverse(page, k, seed, random), Pow2(k), seed, random) == page
  {
    if random {
      var x3 := UnXorShift(page, 11);
      UnXorShiftBound(page, 11, k);
      var x2 := Unscramble(x3, INVERSE_2, seed, k);
      UnscrambleRight(x3, MULTIPLIER_2, INVERSE_2, 8125545580553827436, seed, k);
      var x1 := UnXorShift(x2, 13);
      UnXorShiftBound(x2, 13, k);
      var x0 := Unscramble(x1, INVERSE_1, seed, k);
      UnscrambleRight(x1, MULTIPLIER_1, INVERSE_1, 10771413168148108919, seed, k);
      UnXorShiftBound(x0, 7, k);
      UnXorShiftRight(x0, 7);
      UnXorShiftRight(x2, 13);
      UnXorShiftRight(page, 11);
      AePageRounds(UnXorShift(x0, 7), k, seed);
    }
  }

  // ----- worker order and tiling are mixed-radix numberings -----

  lemma MixedRadix(high: nat, low: nat, radix: nat, size: nat)
    requires low < radix && high < size
    ensures high * radix + low < size * radix
    ensures (high * radix + low) / radix == high && (high * radix + low) % radix == low
  {
    MulMonotone(high + 1, size, radix);
    DivModUnique(high * radix + low, radix, high, low);
  }

  lemma MixedRadixSplit(x: nat, radix: nat, size: nat)
    requires 0 < radix && x < size * radix
    ensures x / radix < size && x % radix < radix && x == x / radix * radix + x % radix
  {
    if x / radix >= size {
      MulMonotone(size, x / radix, radix);
    }
  }

  function AeWorkerInverse(mapped: nat, workers: nat, transpose: bool): nat
    requires workers > 0
  {
    if transpose && workers >= 32 then (mapped % (workers / 32)) * 32 + mapped / (workers / 32) else mapped
  }

  lemma AeWorkerBijection(worker: nat, workers: nat, transpose: bool)
    requires worker < workers
    requires transpose && workers >= 32 ==> workers % 32 == 0
    ensures AeWorker(worker, workers, transpose) < workers
    ensures AeWorkerInverse(AeWorker(worker, workers, transpose), workers, transpose) == worker
    ensures AeWorkerInverse(worker, workers, transpose) < workers
    ensures AeWorker(AeWorkerInverse(worker, workers, transpose), workers, transpose) == worker
  {
    if transpose && workers >= 32 {
      var rows := workers / 32;
      MixedRadix(worker % 32, worker / 32, rows, 32);
      MixedRadixSplit(worker, rows, 32);
      MixedRadix(worker % rows, worker / rows, 32, rows);
    }
  }

  lemma AeIndexBijection(worker: nat, iteration: nat, pages: nat, workers: nat, tile: nat)
    requires 0 < workers <= pages && pages % workers == 0
    requires (pages / workers) % EffectiveTile(tile, pages / workers) == 0
    requires worker < workers && iteration < pages / workers
    ensures AeIndex(worker, iteration, pages, workers, tile) < pages
    ensures LocateIndex(AeIndex(worker, iteration, pages, workers, tile), pages, workers, tile) == (worker, iteration)
  {
    var per := pages / workers;
    var t := EffectiveTile(tile, per);
    assert pages == per * workers;
    TileIndexBijection(worker, iteration, workers, t, per / t);
    ShareOfTiles(pages, workers, per, t);
  }

  lemma TileIndexBijection(worker: nat, iteration: nat, workers: nat, t: nat, tiles: nat)
    requires worker < workers && iteration < tiles * t && t > 0
    ensures TileIndex(worker, iteration, workers, t) < tiles * workers * t
    ensures LocateTile(TileIndex(worker, iteration, workers, t), workers, t) == (worker, iteration)
  {
    MixedRadixSplit(iteration, t, tiles);
    MixedRadix(iteration / t, worker, workers, tiles);
    MixedRadix(iteration / t * workers + worker, iteration % t, t, tiles * workers);
  }

  lemma ShareOfTiles(pages: nat, workers: nat, per: nat, t: nat)
    requires t > 0 && per % t == 0 && pages == per * workers
    ensures per == per / t * t && pages == (per / t) * workers * t
  {
    var tiles := per / t;
    assert per == tiles * t;
    assert tiles * t * workers == tiles * workers * t;
  }

  function LocateIndex(index: nat, pages: nat, workers: nat, tile: nat): (nat, nat)
    requires 0 < workers <= pages
  {
    QuotientPositive(pages, workers);
    LocateTile(index, workers, EffectiveTile(tile, pages / workers))
  }

  function LocateTile(index: nat, workers: nat, t: nat): (nat, nat)
    requires t > 0 && workers > 0
  {
    (index / t % workers, index / t / workers * t + index % t)
  }

  lemma LocateTileBijection(index: nat, workers: nat, t: nat, tiles: nat)
    requires t > 0 && workers > 0 && index < tiles * workers * t
    ensures var (w, i) := LocateTile(index, workers, t);
            w < workers && i < tiles * t && TileIndex(w, i, workers, t) == index
  {
    MixedRadixSplit(index, t, tiles * workers);
    MixedRadixSplit(index / t, workers, tiles);
    MixedRadix(index / t / workers, index % t, t, tiles);
  }

  lemma LocateIndexBijection(index: nat, pages: nat, workers: nat, tile: nat)
    requires 0 < workers <= pages && pages % workers == 0
    requires (pages / workers) % EffectiveTile(tile, pages / workers) == 0
    requires index < pages
    ensures var (w, i) := LocateIndex(index, pages, workers, tile);
            w < workers && i < pages / workers && AeIndex(w, i, pages, workers, tile) == index
  {
    var per := pages / workers;
    var t := EffectiveTile(tile, per);
    assert pages == per * workers;
    ShareOfTiles(pages, workers, per, t);
    LocateTileBijection(index, workers, t, per / t);
  }

  // ----- a whole transfer -----

  /** The options of one transfer of `bytes` bytes starting at byte `offset`. */
  datatype Job = Job(bytes: nat, io: nat, workers: nat, offset: nat, tile: nat,
                     transpose: bool, seed: nat, random: bool)
  {
    function Pages(): nat requires io > 0 { bytes / io }

    /** `validate_workload`, which throws unless all of this holds. */
    predicate Valid() {
      && (io == 4096 || io == 65536) && bytes != 0 && bytes % io == 0
      && 0 < workers <= 4096 && (bytes / io) % workers == 0
      && offset % io == 0 && offset + bytes < WORD
      && And(bytes / io, bytes / io - 1) == 0
    }

    /** The checks `main` makes before it launches a transfer. */
    predicate Accepted() {
      && Valid() && seed < WORD
      && (transpose && workers >= 32 ==> workers % 32 == 0)
      && (tile != 0 ==> And(tile, tile - 1) == 0
                        && (tile >= Pages() / workers || (Pages() / workers) % tile == 0))
    }
  }

  lemma AcceptedFacts(job: Job) returns (k: nat)
    requires job.Accepted()
    ensures k <= 64 && job.Pages() == Pow2(k)
    ensures 0 < job.workers <= job.Pages() && job.Pages() % job.workers == 0
    ensures (job.Pages() / job.workers) % EffectiveTile(job.tile, job.Pages() / job.workers) == 0
  {
    var pages := job.Pages();
    assert pages > 0 by {
      assert job.bytes == pages * job.io + job.bytes % job.io;
    }
    k := PowerOfTwoTest(pages);
    assert pages < WORD by {
      assert job.bytes == pages * job.io;
      MulMonotone(1, job.io, pages);
      assert pages <= job.bytes;
    }
    if k > 64 {
      Pow2Monotone(64, k);
      Pow2Of64();
    }
    if job.workers > pages {
      DivModUnique(pages, job.workers, 0, pages);
    }
    QuotientPositive(pages, job.workers);
    var per := pages / job.workers;
    DivModUnique(per, per, 1, 0);
  }

  function PageOf(job: Job, tid: nat, i: nat): nat
    requires job.Valid() && job.workers <= job.Pages()
  {
    AePage(AeIndex(AeWorker(tid, job.workers, job.transpose), i, job.Pages(), job.workers, job.tile),
           job.Pages(), job.seed, job.random)
  }

  function Address(job: Job, tid: nat, i: nat): nat
    requires job.Valid() && job.workers <= job.Pages()
  {
    job.offset + PageOf(job, tid, i) * job.io
  }

  /** The worker and iteration that touch a page. */
  function Locate(job: Job, k: nat, page: nat): (nat, nat)
    requires job.Accepted() && job.workers <= job.Pages()
  {
    var (w, i) := LocateIndex(AePageInverse(page, k, job.seed, job.random), job.Pages(), job.workers, job.tile);
    (AeWorkerInverse(w, job.workers, job.transpose), i)
  }

  lemma LocateUndoesPageOf(job: Job, k: nat, tid: nat, i: nat)
    requires job.Accepted() && k <= 64 && job.Pages() == Pow2(k) && job.workers <= job.Pages()
    requires tid < job.workers && i < job.Pages() / job.workers
    ensures PageOf(job, tid, i) < job.Pages()
    ensures Locate(job, k, PageOf(job, tid, i)) == (tid, i)
  {
    var _ := AcceptedFacts(job);
    var w := AeWorker(tid, job.workers, job.transpose);
    AeWorkerBijection(tid, job.workers, job.transpose);
    AeIndexBijection(w, i, job.Pages(), job.workers, job.tile);
    AePageLeftInverse(AeIndex(w, i, job.Pages(), job.workers, job.tile), k, job.seed, job.random);
  }

  lemma PageOfUndoesLocate(job: Job, k: nat, page: nat)
    requires job.Accepted() && k <= 64 && job.Pages() == Pow2(k) && job.workers <= job.Pages()
    requires page < job.Pages()
    ensures var (tid, i) := Locate(job, k, page);
            tid < job.workers && i < job.Pages() / job.workers && PageOf(job, tid, i) == page
  {
    var _ := AcceptedFacts(job);
    AePageRightInverse(page, k, job.seed, job.random);
    var index := AePageInverse(page, k, job.seed, job.random);
    LocateIndexBijection(index, job.Pages(), job.workers, job.tile);
    AeWorkerBijection(LocateIndex(index, job.Pages(), job.workers, job.tile).0, job.workers, job.transpose);
  }

  ghost predicate Touches(job: Job, page: nat, tid: nat, i: nat)
    requires job.Valid() && job.workers <= job.Pages()
  {
    tid < job.workers && i < job.Pages() / job.workers && PageOf(job, tid, i) == page
  }

  ghost predicate Touched(job: Job, page: nat)
    requires job.Valid() && job.workers <= job.Pages()
  {
    exists tid: nat, i: nat :: Touches(job, page, tid, i)
  }

  /** An accepted transfer touches every page of its range exactly once over all
      workers and iterations, nothing else, and no address overflows 64 bits. */
  lemma TransferCoversOnce(job: Job)
    requires job.Accepted()
    ensures job.workers <= job.Pages()
    ensures forall page: nat :: Touched(job, page) <==> page < job.Pages()
    ensures forall page: nat, t1: nat, i1: nat, t2: nat, i2: nat |
              Touches(job, page, t1, i1) && Touches(job, page, t2, i2) :: t1 == t2 && i1 == i2
    ensures forall tid: nat, i: nat | Touches(job, PageOf(job, tid, i), tid, i) ::
              Address(job, tid, i) + job.io <= job.offset + job.bytes < WORD
  {
    var k := AcceptedFacts(job);
    forall tid: nat, i: nat | Touches(job, PageOf(job, tid, i), tid, i)
      ensures PageOf(job, tid, i) < job.Pages() && Address(job, tid, i) + job.io <= job.offset + job.bytes < WORD
    {
      LocateUndoesPageOf(job, k, tid, i);
      var p := PageOf(job, tid, i);
      MulMonotone(p + 1, job.Pages(), job.io);
      assert (p + 1) * job.io == p * job.io + job.io;
      assert job.bytes == job.Pages() * job.io;
    }
    forall page: nat
      ensures Touched(job, page) <==> page < job.Pages()
    {
      if page < job.Pages() {
        PageOfUndoesLocate(job, k, page);
        var (tid, i) := Locate(job, k, page);
        assert Touches(job, page, tid, i);
      }
    }
    forall page: nat, t1: nat, i1: nat, t2: nat, i2: nat |
      Touches(job, page, t1, i1) && Touches(job, page, t2, i2)
      ensures t1 == t2 && i1 == i2
    {
      LocateUndoesPageOf(job, k, t1, i1);
      LocateUndoesPageOf(job, k, t2, i2);
    }
  }
}

// Merging sorted requests into contiguous groups of at most 2 MB
// (benchmarks/io_scheduler/io_scheduler_impl.cuh): the parallel form finds run
// boundaries by warp ballots and then splits long runs, the serial form scans greedily.
module Merge {
  import opened Bits

  const MERGE_TARGET: nat := 2 * 1024 * 1024
  const THREADS: nat := 128
  const LANES: nat := 32

  /** Position `i` of the sorted batch does not continue position `i - 1` on disk. */
  predicate Boundary(keys: seq<nat>, size: nat, i: nat)
    requires i < |keys|
  {
    i == 0 || keys[i] != keys[i - 1] + size
  }

  /** How many requests of `size` bytes fit in one command. */
  function Stride(size: nat): (s: nat)
    requires size > 0
    ensures s >= 1
  {
    if MERGE_TARGET / size == 0 then 1 else MERGE_TARGET / size
  }

  /** The place of position `i` within its group, when groups grow greedily. */
  function Phase(keys: seq<nat>, size: nat, i: nat): (p: nat)
    requires i < |keys| && size > 0
    ensures p < Stride(size) && p <= i
  {
    if Boundary(keys, size, i) || Phase(keys, size, i - 1) + 1 == Stride(size) then 0
    else Phase(keys, size, i - 1) + 1
  }

  function Boundaries(keys: seq<nat>, size: nat, n: nat): (s: seq<nat>)
    requires n <= |keys|
    ensures |s| <= n
  {
    if n == 0 then [] else Boundaries(keys, size, n - 1) + (if Boundary(keys, size, n - 1) then [n - 1] else [])
  }

  /** The first positions of the groups among the first `n` positions. */
  function Starts(keys: seq<nat>, size: nat, n: nat): (s: seq<nat>)
    requires n <= |keys| && size > 0
    ensures |s| <= n
  {
    if n == 0 then [] else Starts(keys, size, n - 1) + (if Phase(keys, size, n - 1) == 0 then [n - 1] else [])
  }

  lemma FitsStride(c: nat, size: nat)
    requires size > 0
    ensures c * size <= MERGE_TARGET <==> c <= MERGE_TARGET / size
  {
    var q := MERGE_TARGET / size;
    assert q * size <= MERGE_TARGET < (q + 1) * size;
    if c <= q {
      MulMonotone(c, q, size);
    } else {
      MulMonotone(q + 1, c, size);
    }
  }

  // ----- what the groups are -----

  ghost predicate Contiguous(keys: seq<nat>, size: nat, lo: nat, hi: nat)
    requires hi <= |keys|
  {
    forall i | lo < i < hi :: keys[i] == keys[i - 1] + size
  }

  /** `starts` cuts `[0, n)` into consecutive nonempty groups. */
  ghost predicate Cuts(starts: seq<nat>, n: nat) {
    && (n > 0 ==> |starts| > 0 && starts[0] == 0)
    && (forall g | 0 <= g < |starts| :: starts[g] < n)
    && (forall g, h | 0 <= g < h < |starts| :: starts[g] < starts[h])
  }

  function End(starts: seq<nat>, g: nat, n: nat): nat
    requires g < |starts|
  {
    if g + 1 < |starts| then starts[g + 1] else n
  }

  lemma BetweenCuts(starts: seq<nat>, n: nat, g: nat, i: nat)
    requires Cuts(starts, n) && g < |starts| && starts[g] < i < End(starts, g, n)
    ensures i !in starts
  {
    forall h | 0 <= h < |starts|
      ensures starts[h] != i
    {
      if h < g {
        assert starts[h] < starts[g];
      } else if g + 1 < h {
        assert starts[g + 1] < starts[h];
      }
    }
  }

  lemma {:induction false} StartsCut(keys: seq<nat>, size: nat, n: nat)
    requires n <= |keys| && size > 0
    ensures Cuts(Starts(keys, size, n), n)
    ensures forall g | 0 <= g < |Starts(keys, size, n)| :: Phase(keys, size, Starts(keys, size, n)[g]) == 0
    ensures forall i | 0 <= i < n && Phase(keys, size, i) == 0 :: i in Starts(keys, size, n)
  {
    if n > 0 {
      StartsCut(keys, size, n - 1);
      var prev, s := Starts(keys, size, n - 1), Starts(keys, size, n);
      forall i | 0 <= i < n && Phase(keys, size, i) == 0
        ensures i in s
      {
        if i < n - 1 {
          assert i in prev;
        } else {
          assert s[|prev|] == i;
        }
      }
    }
  }

  /** Between two group starts the phase counts up, so a group is contiguous and short. */
  lemma {:induction false} PhaseCounts(keys: seq<nat>, size: nat, lo: nat, i: nat)
    requires lo <= i < |keys| && size > 0 && Phase(keys, size, lo) == 0
    requires forall j | lo < j <= i :: Phase(keys, size, j) != 0
    ensures Phase(keys, size, i) == i - lo && Contiguous(keys, size, lo, i + 1)
    ensures keys[i] == keys[lo] + (i - lo) * size
  {
    if lo < i {
      PhaseCounts(keys, size, lo, i - 1);
      assert (i - 1 - lo) * size + size == (i - lo) * size;
    }
  }

  /** Each group is contiguous on disk and at most 2 MB; a group ends only where
      the next request is not adjacent or would not fit. */
  lemma GroupShape(keys: seq<nat>, size: nat, g: nat)
    requires 0 < size <= MERGE_TARGET && g < |Starts(keys, size, |keys|)|
    ensures var starts := Starts(keys, size, |keys|);
            var lo, hi := starts[g], End(starts, g, |keys|);
            && lo < hi <= |keys| && Contiguous(keys, size, lo, hi)
            && (forall i | lo <= i < hi :: keys[i] == keys[lo] + (i - lo) * size)
            && (hi - lo) * size <= MERGE_TARGET
            && (hi < |keys| ==> keys[hi] != keys[hi - 1] + size || (hi - lo + 1) * size > MERGE_TARGET)
  {
    var starts := Starts(keys, size, |keys|);
    StartsCut(keys, size, |keys|);
    hide Starts;
    var lo, hi := starts[g], End(starts, g, |keys|);
    forall j | lo < j < hi
      ensures Phase(keys, size, j) != 0
    {
      BetweenCuts(starts, |keys|, g, j);
    }
    hide Cuts;
    assert hi < |keys| ==> Phase(keys, size, hi) == 0;
    OneGroup(keys, size, lo, hi);
  }

  lemma OneGroup(keys: seq<nat>, size: nat, lo: nat, hi: nat)
    requires 0 < size <= MERGE_TARGET && lo < hi <= |keys| && Phase(keys, size, lo) == 0
    requires forall j | lo < j < hi :: Phase(keys, size, j) != 0
    requires hi < |keys| ==> Phase(keys, size, hi) == 0
    ensures Contiguous(keys, size, lo, hi)
    ensures forall i | lo <= i < hi :: keys[i] == keys[lo] + (i - lo) * size
    ensures (hi - lo) * size <= MERGE_TARGET
    ensures hi < |keys| ==> keys[hi] != keys[hi - 1] + size || (hi - lo + 1) * size > MERGE_TARGET
  {
    forall i | lo <= i < hi
      ensures keys[i] == keys[lo] + (i - lo) * size
    {
      PhaseCounts(keys, size, lo, i);
    }
    PhaseCounts(keys, size, lo, hi - 1);
    if hi < |keys| {
      PhaseRestart(keys, size, hi);
    }
    hide Phase;
    StrideFits(size);
    FitsStride(hi - lo, size);
    FitsStride(hi - lo + 1, size);
  }

  lemma StrideFits(size: nat)
    requires 0 < size <= MERGE_TARGET
    ensures Stride(size) == MERGE_TARGET / size
  {
    FitsStride(1, size);
  }

  lemma PhaseRestart(keys: seq<nat>, size: nat, i: nat)
    requires 0 < i < |keys| && size > 0 && Phase(keys, size, i) == 0
    ensures keys[i] != keys[i - 1] + size || Phase(keys, size, i - 1) + 1 == Stride(size)
  {
  }

  // ----- the serial greedy merge -----

  lemma NoStartsBetween(keys: seq<nat>, size: nat, lo: nat, hi: nat)
    requires lo <= hi <= |keys| && size > 0
    requires forall i | lo <= i < hi :: Phase(keys, size, i) != 0
    ensures Starts(keys, size, hi) == Starts(keys, size, lo)
  {
    if lo < hi {
      NoStartsBetween(keys, size, lo, hi - 1);
    }
  }

  /** Positions `lo .. lo + c` form one group so far: `c` requests, phases 0 to `c - 1`. */
  ghost predicate Growing(keys: seq<nat>, size: nat, lo: nat, c: nat)
    requires lo + c <= |keys| && size > 0
  {
    c >= 1 && forall i | lo <= i < lo + c :: Phase(keys, size, i) == i - lo
  }

  /** The scan of one serial round, without its throttling into submission chunks. */
  method GreedyMerge(keys: seq<nat>, size: nat) returns (starts: seq<nat>)
    requires size > 0
    ensures starts == Starts(keys, size, |keys|)
  {
    var scanPos := 0;
    starts := [];
    while scanPos < |keys|
      invariant scanPos <= |keys| && starts == Starts(keys, size, scanPos)
      invariant scanPos < |keys| ==> Phase(keys, size, scanPos) == 0
    {
      hide Stride, Starts;
      var startOffset, runBytes, runCount := keys[scanPos], size, 1;
      while scanPos + runCount < |keys| && runBytes < MERGE_TARGET
        invariant scanPos + runCount <= |keys| && runBytes == runCount * size
        invariant Growing(keys, size, scanPos, runCount)
        invariant runCount <= Stride(size)
      {
        GrowthFacts(keys, size, scanPos, runCount);
        var nextOffset := keys[scanPos + runCount];
        if nextOffset != startOffset + runBytes { break; }
        var nextBytes := size;
        FitsStride(runCount + 1, size);
        if runBytes + nextBytes > MERGE_TARGET { break; }
        GrowthNext(keys, size, scanPos, runCount);
        runBytes := runBytes + nextBytes;
        runCount := runCount + 1;
      }
      GrowthEnd(keys, size, scanPos, runCount);
      starts := starts + [scanPos];
      scanPos := scanPos + runCount;
    }
  }

  lemma GrowthFacts(keys: seq<nat>, size: nat, lo: nat, c: nat)
    requires lo + c < |keys| && size > 0 && Growing(keys, size, lo, c)
    ensures keys[lo + c - 1] + size == keys[lo] + c * size
    ensures (c + 1) * size == c * size + size
  {
    PhaseCounts(keys, size, lo, lo + c - 1);
    assert (c - 1) * size + size == c * size;
  }

  lemma GrowthNext(keys: seq<nat>, size: nat, lo: nat, c: nat)
    requires lo + c < |keys| && size > 0 && Growing(keys, size, lo, c)
    requires keys[lo + c] == keys[lo] + c * size && (c + 1) * size <= MERGE_TARGET
    ensures Growing(keys, size, lo, c + 1) && c + 1 <= Stride(size)
  {
    GrowthFacts(keys, size, lo, c);
    FitsStride(c + 1, size);
  }

  lemma GrowthEnd(keys: seq<nat>, size: nat, lo: nat, c: nat)
    requires lo + c <= |keys| && size > 0 && Growing(keys, size, lo, c) && c <= Stride(size)
    requires lo + c == |keys| || c * size >= MERGE_TARGET || keys[lo + c] != keys[lo] + c * size
             || c * size + size > MERGE_TARGET
    ensures Starts(keys, size, lo + c) == Starts(keys, size, lo) + [lo]
    ensures lo + c < |keys| ==> Phase(keys, size, lo + c) == 0
  {
    NoStartsBetween(keys, size, lo + 1, lo + c);
    if lo + c < |keys| {
      GrowthFacts(keys, size, lo, c);
      FitsStride(c + 1, size);
      assert Phase(keys, size, lo + c - 1) == c - 1;
    }
  }

  // ----- the parallel merge, step 1: boundaries by ballot -----

  /** `__ballot_sync` of the boundary test over the warp starting at `wb`: lanes from `lo` on. */
  function Ballot(keys: seq<nat>, size: nat, wb: nat, lo: nat): set<nat> {
    set l: nat {:trigger keys[wb + l]} | lo <= l < LANES && wb + l < |keys| && Boundary(keys, size, wb + l)
  }

  function Lowest(mask: set<nat>, l: nat, bound: nat): (r: nat)
    requires l <= bound && bound in mask
    ensures l <= r <= bound && r in mask && forall k | l <= k < r :: k !in mask
    decreases bound - l
  {
    if l in mask then l else Lowest(mask, l + 1, bound)
  }

  function Upto(n: nat, i: nat): nat {
    if i <= n then i else n
  }

  lemma {:induction false} NoBoundariesBetween(keys: seq<nat>, size: nat, lo: nat, hi: nat)
    requires lo <= hi <= |keys|
    requires forall i | lo <= i < hi :: !Boundary(keys, size, i)
    ensures Boundaries(keys, size, hi) == Boundaries(keys, size, lo)
  {
    if lo < hi { NoBoundariesBetween(keys, size, lo, hi - 1); }
  }

  lemma BallotEmpty(keys: seq<nat>, size: nat, wb: nat, lo: nat)
    requires lo <= LANES && Ballot(keys, size, wb, lo) == {}
    ensures Boundaries(keys, size, Upto(|keys|, wb + LANES)) == Boundaries(keys, size, Upto(|keys|, wb + lo))
  {
    forall i | wb + lo <= i < Upto(|keys|, wb + LANES)
      ensures !Boundary(keys, size, i)
    {
      assert i - wb !in Ballot(keys, size, wb, lo);
      assert keys[wb + (i - wb)] == keys[i];
    }
    NoBoundariesBetween(keys, size, Upto(|keys|, wb + lo), Upto(|keys|, wb + LANES));
  }

  lemma BallotNext(keys: seq<nat>, size: nat, wb: nat, lo: nat, bit: nat)
    requires lo <= LANES && bit in Ballot(keys, size, wb, lo)
    requires forall k | lo <= k < bit :: k !in Ballot(keys, size, wb, lo)
    ensures Boundaries(keys, size, wb + bit + 1) == Boundaries(keys, size, Upto(|keys|, wb + lo)) + [wb + bit]
    ensures Ballot(keys, size, wb, lo) - {bit} == Ballot(keys, size, wb, bit + 1)
  {
    forall i | wb + lo <= i < wb + bit
      ensures !Boundary(keys, size, i)
    {
      assert i - wb !in Ballot(keys, size, wb, lo);
      assert keys[wb + (i - wb)] == keys[i];
    }
    NoBoundariesBetween(keys, size, wb + lo, wb + bit);
  }

  /** One warp's ballot, unpacked lowest bit first. */
  method UnpackBallot(keys: seq<nat>, size: nat, wb: nat, starts: array<nat>, count: nat) returns (count': nat)
    requires |keys| <= starts.Length && count <= starts.Length
    requires starts[..count] == Boundaries(keys, size, Upto(|keys|, wb))
    modifies starts
    ensures count' <= starts.Length && starts[..count'] == Boundaries(keys, size, Upto(|keys|, wb + LANES))
  {
    hide Boundaries;
    count' := count;
    var m := Ballot(keys, size, wb, 0);
    ghost var lo: nat := 0;
    while m != {}
      invariant lo <= LANES && m == Ballot(keys, size, wb, lo)
      invariant count' <= starts.Length && starts[..count'] == Boundaries(keys, size, Upto(|keys|, wb + lo))
      decreases m
    {
      var any :| any in m;
      var bit := Lowest(m, 0, any);
      BallotNext(keys, size, wb, lo, bit);
      assert count' < starts.Length;
      starts[count'] := wb + bit;
      count' := count' + 1;
      m := m - {bit};
      lo := bit + 1;
    }
    BallotEmpty(keys, size, wb, lo);
  }

  method FindBoundaries(keys: seq<nat>, size: nat, starts: array<nat>) returns (count: nat)
    requires |keys| <= starts.Length
    modifies starts
    ensures count <= |keys| && starts[..count] == Boundaries(keys, size, |keys|)
  {
    count := 0;
    var bbase := 0;
    while bbase < |keys|
      invariant count <= starts.Length && starts[..count] == Boundaries(keys, size, Upto(|keys|, bbase))
    {
      for w := 0 to 4
        invariant count <= starts.Length && starts[..count] == Boundaries(keys, size, Upto(|keys|, bbase + w * LANES))
      {
        count := UnpackBallot(keys, size, bbase + w * LANES, starts, count);
      }
      bbase := bbase + THREADS;
    }
  }

  // ----- the parallel merge, step 1b: split runs longer than 2 MB -----

  /** A maximal contiguous run `[lo, hi)`. */
  ghost predicate Run(keys: seq<nat>, size: nat, lo: nat, hi: nat) {
    && lo < hi <= |keys| && Boundary(keys, size, lo)
    && (forall i | lo < i < hi :: !Boundary(keys, size, i))
    && (hi < |keys| ==> Boundary(keys, size, hi))
  }

  lemma {:induction false} BoundariesCut(keys: seq<nat>, size: nat, n: nat)
    requires n <= |keys|
    ensures Cuts(Boundaries(keys, size, n), n)
    ensures forall g | 0 <= g < |Boundaries(keys, size, n)| :: Boundary(keys, size, Boundaries(keys, size, n)[g])
    ensures forall i | 0 <= i < n && Boundary(keys, size, i) :: i in Boundaries(keys, size, n)
  {
    if n > 0 {
      BoundariesCut(keys, size, n - 1);
      var prev, s := Boundaries(keys, size, n - 1), Boundaries(keys, size, n);
      forall i | 0 <= i < n && Boundary(keys, size, i)
        ensures i in s
      {
        if i < n - 1 {
          assert i in prev;
        } else {
          assert s[|prev|] == i;
        }
      }
    }
  }

  lemma BoundariesAreRuns(keys: seq<nat>, size: nat, g: nat)
    requires g < |Boundaries(keys, size, |keys|)|
    ensures var b := Boundaries(keys, size, |keys|); Run(keys, size, b[g], End(b, g, |keys|))
  {
    var b := Boundaries(keys, size, |keys|);
    BoundariesCut(keys, size, |keys|);
    var lo, hi := b[g], End(b, g, |keys|);
    forall i | lo < i < hi
      ensures !Boundary(keys, size, i)
    {
      BetweenCuts(b, |keys|, g, i);
    }
  }

  lemma {:induction false} RunOffsets(keys: seq<nat>, size: nat, lo: nat, hi: nat, i: nat)
    requires Run(keys, size, lo, hi) && lo <= i < hi
    ensures keys[i] == keys[lo] + (i - lo) * size
  {
    if lo < i {
      RunOffsets(keys, size, lo, hi, i - 1);
      assert !Boundary(keys, size, i);
      assert (i - 1 - lo) * size + size == (i - lo) * size;
    }
  }

  /** The code's test `g_keys[end-1] - g_keys[start] + last_bytes > kSchedMergeTarget`. */
  predicate Oversized(keys: seq<nat>, size: nat, lo: nat, hi: nat)
    requires lo < hi <= |keys|
  {
    keys[hi - 1] - keys[lo] + size > MERGE_TARGET
  }

  lemma OversizedMeans(keys: seq<nat>, size: nat, lo: nat, hi: nat)
    requires size > 0 && Run(keys, size, lo, hi)
    ensures Oversized(keys, size, lo, hi) <==> (hi - lo) * size > MERGE_TARGET
    ensures !Oversized(keys, size, lo, hi) ==> hi - lo <= Stride(size)
  {
    RunOffsets(keys, size, lo, hi, hi - 1);
    assert (hi - 1 - lo) * size + size == (hi - lo) * size;
    FitsStride(hi - lo, size);
  }

  /** Within a run, the phase restarts every `Stride` positions. */
  lemma {:induction false} RunPhases(keys: seq<nat>, size: nat, lo: nat, hi: nat, pos: nat, i: nat)
    requires size > 0 && Run(keys, size, lo, hi) && lo <= pos <= i < hi && i < pos + Stride(size)
    requires Phase(keys, size, pos) == 0
    ensures Phase(keys, size, i) == i - pos
  {
    if pos < i { RunPhases(keys, size, lo, hi, pos, i - 1); }
  }

  /** The start at `pos` is the only one up to `next`, the next multiple of the stride or the end of the run. */
  lemma SplitNext(keys: seq<nat>, size: nat, lo: nat, hi: nat, pos: nat)
    requires size > 0 && Run(keys, size, lo, hi) && lo <= pos < hi && Phase(keys, size, pos) == 0
    ensures var next := if pos + Stride(size) < hi then pos + Stride(size) else hi;
            && Starts(keys, size, next) == Starts(keys, size, pos) + [pos]
            && (next < hi ==> Phase(keys, size, next) == 0)
  {
    var next := if pos + Stride(size) < hi then pos + Stride(size) else hi;
    forall i | pos < i < next
      ensures Phase(keys, size, i) != 0
    {
      RunPhases(keys, size, lo, hi, pos, i);
    }
    NoStartsBetween(keys, size, pos + 1, next);
    if next < hi {
      RunPhases(keys, size, lo, hi, pos, next - 1);
    }
  }

  /** A run that fits is one group. */
  lemma ShortRun(keys: seq<nat>, size: nat, lo: nat, hi: nat)
    requires size > 0 && Run(keys, size, lo, hi) && !Oversized(keys, size, lo, hi)
    ensures Starts(keys, size, hi) == Starts(keys, size, lo) + [lo]
  {
    OversizedMeans(keys, size, lo, hi);
    SplitNext(keys, size, lo, hi, lo);
  }

  /** The scratch area at `base` holds the group starts below `upto`. */
  ghost predicate Refined(keys: seq<nat>, size: nat, upto: nat, scratch: seq<nat>, refined: nat)
    requires size > 0 && upto <= |keys|
  {
    refined <= |scratch| && scratch[..refined] == Starts(keys, size, upto)
  }

  lemma RefinedNext(keys: seq<nat>, size: nat, upto: nat, next: nat, scratch: seq<nat>, refined: nat, pos: nat)
    requires size > 0 && upto <= next <= |keys| && Refined(keys, size, upto, scratch, refined)
    requires Starts(keys, size, next) == Starts(keys, size, upto) + [pos]
    ensures refined < |scratch| ==> Refined(keys, size, next, scratch[refined := pos], refined + 1)
    ensures refined == |scratch| ==> |Starts(keys, size, |keys|)| > |scratch|
  {
    hide Starts;
    StartsGrow(keys, size, next, |keys|);
    assert |scratch[..refined]| == refined;
  }

  /** Refine one run into the scratch area at `base`; stop where the area leaves the list. */
  method SplitRun(keys: seq<nat>, size: nat, lo: nat, hi: nat, starts: array<nat>, base: nat, refined: nat)
    returns (refined': nat, overflow: bool)
    requires size > 0 && Run(keys, size, lo, hi)
    requires base <= starts.Length && Refined(keys, size, lo, starts[base..], refined)
    modifies starts
    ensures starts[..base] == old(starts[..base])
    ensures !overflow ==> Refined(keys, size, hi, starts[base..], refined')
    ensures overflow ==> base + |Starts(keys, size, |keys|)| > starts.Length
  {
    PhaseAtRun(keys, size, lo, hi);
    refined', overflow := refined, false;
    if keys[hi - 1] - keys[lo] + size <= MERGE_TARGET {
      ShortRun(keys, size, lo, hi);
      RefinedFits(keys, size, lo, starts[base..], refined');
      hide Starts, Phase, Refined, Run;
      RefinedNext(keys, size, lo, hi, starts[base..], refined', lo);
      if base + refined' == starts.Length {
        return refined', true;
      }
      ghost var scratch: seq<nat> := starts[base..];
      starts[base + refined'] := lo;
      assert starts[base..] == scratch[refined' := lo];
      refined' := refined' + 1;
    } else {
      var stride := MERGE_TARGET / size;
      if stride == 0 { stride := 1; }
      refined', overflow := SplitLongRun(keys, size, stride, lo, hi, starts, base, refined);
    }
  }

  lemma RefinedFits(keys: seq<nat>, size: nat, upto: nat, scratch: seq<nat>, refined: nat)
    requires size > 0 && upto <= |keys| && Refined(keys, size, upto, scratch, refined)
    ensures refined <= |scratch| && scratch[..refined] == Starts(keys, size, upto)
  {
  }

  /** The branch for a run over 2 MB: a start every `stride` positions. */
  method SplitLongRun(keys: seq<nat>, size: nat, stride: nat, lo: nat, hi: nat, starts: array<nat>, base: nat, refined: nat)
    returns (refined': nat, overflow: bool)
    requires size > 0 && stride == Stride(size) && Run(keys, size, lo, hi)
    requires base <= starts.Length && Refined(keys, size, lo, starts[base..], refined)
    modifies starts
    ensures starts[..base] == old(starts[..base])
    ensures !overflow ==> Refined(keys, size, hi, starts[base..], refined')
    ensures overflow ==> base + |Starts(keys, size, |keys|)| > starts.Length
  {
    PhaseAtRun(keys, size, lo, hi);
    refined', overflow := refined, false;
    var pos := lo;
    ghost var upto := lo;
    hide Starts, Phase, Refined, Run, Stride;
    while pos < hi
      invariant upto == (if pos < hi then pos else hi) && lo <= pos
      invariant pos < hi ==> Phase(keys, size, pos) == 0
      invariant Refined(keys, size, upto, starts[base..], refined')
      invariant starts[..base] == old(starts[..base])
    {
      SplitNext(keys, size, lo, hi, pos);
      ghost var next := if pos + stride < hi then pos + stride else hi;
      RefinedFits(keys, size, upto, starts[base..], refined');
      RefinedNext(keys, size, upto, next, starts[base..], refined', pos);
      if base + refined' == starts.Length {
        return refined', true;
      }
      ghost var scratch: seq<nat> := starts[base..];
      starts[base + refined'] := pos;
      assert starts[base..] == scratch[refined' := pos];
      refined' := refined' + 1;
      pos := pos + stride;
      upto := next;
    }
  }

  lemma PhaseAtRun(keys: seq<nat>, size: nat, lo: nat, hi: nat)
    requires size > 0 && Run(keys, size, lo, hi)
    ensures Phase(keys, size, lo) == 0 && hi <= |keys|
  {
  }

  lemma {:induction false} StartsGrow(keys: seq<nat>, size: nat, n: nat, m: nat)
    requires n <= m <= |keys| && size > 0
    ensures |Starts(keys, size, n)| <= |Starts(keys, size, m)|
  {
    if n < m { StartsGrow(keys, size, n, m - 1); }
  }

  /** Some run exceeds 2 MB among the first `g` of the runs starting at `b`. */
  ghost predicate OversizedAmong(keys: seq<nat>, size: nat, b: seq<nat>, g: nat)
    requires g <= |b| && Cuts(b, |keys|)
  {
    exists h | 0 <= h < g :: Oversized(keys, size, b[h], End(b, h, |keys|))
  }

  ghost predicate AnyOversized(keys: seq<nat>, size: nat) {
    BoundariesCut(keys, size, |keys|);
    OversizedAmong(keys, size, Boundaries(keys, size, |keys|), |Boundaries(keys, size, |keys|)|)
  }

  /** With no oversized run among the first `g`, groups and runs coincide. */
  lemma {:induction false} NoSplitNeeded(keys: seq<nat>, size: nat, b: seq<nat>, g: nat)
    requires size > 0 && b == Boundaries(keys, size, |keys|) && g <= |b|
    requires Cuts(b, |keys|) && !OversizedAmong(keys, size, b, g)
    ensures Starts(keys, size, if g < |b| then b[g] else |keys|) == b[..g]
  {
    if g == 0 {
      assert Starts(keys, size, 0) == b[..0];
    } else {
      NoSplitNeeded(keys, size, b, g - 1);
      BoundariesAreRuns(keys, size, g - 1);
      hide Starts, Boundaries, Run;
      var lo, hi := b[g - 1], End(b, g - 1, |keys|);
      assert !Oversized(keys, size, lo, hi);
      hide OversizedAmong, Cuts, Oversized;
      ShortRun(keys, size, lo, hi);
      assert b[..g] == b[..g - 1] + [lo];
    }
  }

  method CountOversized(keys: seq<nat>, size: nat, starts: array<nat>, nOrig: nat) returns (oversized: nat)
    requires nOrig <= starts.Length && Cuts(starts[..nOrig], |keys|)
    ensures oversized > 0 <==> OversizedAmong(keys, size, starts[..nOrig], nOrig)
  {
    oversized := 0;
    for i := 0 to nOrig
      invariant oversized > 0 <==> OversizedAmong(keys, size, starts[..nOrig], i)
    {
      var start, end := starts[i], if i + 1 < nOrig then starts[i + 1] else |keys|;
      assert start == starts[..nOrig][i] && end == End(starts[..nOrig], i, |keys|);
      if keys[end - 1] - keys[start] + size > MERGE_TARGET {
        oversized := oversized + 1;
      }
    }
  }

  /** What step 1b needs of the list of starts: with an oversized run, room for the runs and the groups together. */
  ghost predicate SplitFits(keys: seq<nat>, size: nat, capacity: nat)
    requires size > 0
  {
    AnyOversized(keys, size) ==> |Boundaries(keys, size, |keys|)| + |Starts(keys, size, |keys|)| <= capacity
  }

  /** Step 1b: detect oversized runs, and if there are any rewrite the list of starts through the
      scratch area behind it. `overflow` reports a write past the end of the list, where the code has no check. */
  method SplitRuns(keys: seq<nat>, size: nat, starts: array<nat>, nOrig: nat)
    returns (count: nat, oversized: nat, overflow: bool)
    requires size > 0 && nOrig <= starts.Length && starts[..nOrig] == Boundaries(keys, size, |keys|)
    modifies starts
    ensures oversized > 0 <==> AnyOversized(keys, size)
    ensures overflow <==> !SplitFits(keys, size, starts.Length)
    ensures !overflow ==> count <= starts.Length && starts[..count] == Starts(keys, size, |keys|)
  {
    BoundariesCut(keys, size, |keys|);
    assert |starts[..nOrig]| == nOrig;
    hide Starts, Boundaries, OversizedAmong, Cuts;
    overflow := false;
    oversized := CountOversized(keys, size, starts, nOrig);
    if oversized == 0 {
      NoSplitNeeded(keys, size, starts[..nOrig], nOrig);
      count := nOrig;
      assert starts[..nOrig][..nOrig] == starts[..nOrig];
    } else {
      count, overflow := RefineAll(keys, size, starts, nOrig);
      if !overflow {
        CopyBack(starts, nOrig, count);
      }
    }
  }

  method RefineAll(keys: seq<nat>, size: nat, starts: array<nat>, nOrig: nat) returns (refined: nat, overflow: bool)
    requires size > 0 && nOrig <= starts.Length && starts[..nOrig] == Boundaries(keys, size, |keys|)
    modifies starts
    ensures overflow <==> nOrig + |Starts(keys, size, |keys|)| > starts.Length
    ensures !overflow ==> nOrig + refined <= starts.Length && starts[nOrig..nOrig + refined] == Starts(keys, size, |keys|)
  {
    ghost var b := Boundaries(keys, size, |keys|);
    BoundariesCut(keys, size, |keys|);
    hide Boundaries;
    refined, overflow := 0, false;
    ghost var upto := 0;
    assert starts[nOrig..][..0] == [];
    assert |b| == 0 ==> |keys| == 0 by { FirstRun(keys, size); }
    for i := 0 to nOrig
      invariant starts[..nOrig] == b && upto == (if i < nOrig then b[i] else |keys|)
      invariant Refined(keys, size, upto, starts[nOrig..], refined)
    {
      hide Starts, Refined, Cuts;
      var start, end := starts[i], if i + 1 < nOrig then starts[i + 1] else |keys|;
      assert start == b[i] && end == End(b, i, |keys|);
      BoundariesAreRuns(keys, size, i);
      refined, overflow := SplitRun(keys, size, start, end, starts, nOrig, refined);
      if overflow {
        return;
      }
      upto := end;
    }
    assert starts[nOrig..][..refined] == starts[nOrig..nOrig + refined];
  }

  lemma FirstRun(keys: seq<nat>, size: nat)
    ensures |Boundaries(keys, size, |keys|)| == 0 ==> |keys| == 0
  {
    BoundariesCut(keys, size, |keys|);
  }

  method CopyBack(starts: array<nat>, nOrig: nat, refined: nat)
    requires nOrig + refined <= starts.Length
    modifies starts
    ensures starts[..refined] == old(starts[nOrig..nOrig + refined])
  {
    for i := 0 to refined
      invariant forall k | 0 <= k < i :: starts[k] == old(starts[nOrig + k])
      invariant forall k | i <= k < starts.Length :: starts[k] == old(starts[k])
    {
      starts[i] := starts[nOrig + i];
    }
  }

  /** The parallel merge. It yields the groups of the greedy scan, or overflows its list of starts: exactly when
      some run exceeds 2 MB and the runs and the groups do not fit the list together. */
  method ParallelMerge(keys: seq<nat>, size: nat, starts: array<nat>) returns (count: nat, splits: nat, overflow: bool)
    requires size > 0 && |keys| <= starts.Length
    modifies starts
    ensures overflow <==>
              AnyOversized(keys, size) && |Boundaries(keys, size, |keys|)| + |Starts(keys, size, |keys|)| > starts.Length
    ensures !overflow ==> count <= starts.Length && starts[..count] == Starts(keys, size, |keys|)
  {
    hide AnyOversized, Starts, Boundaries;
    var nOrig := FindBoundaries(keys, size, starts);
    assert |starts[..nOrig]| == nOrig;
    count, splits, overflow := SplitRuns(keys, size, starts, nOrig);
  }

  /** A batch no longer than half the list of starts always leaves room for the scratch area. */
  lemma HalfFullSuffices(keys: seq<nat>, size: nat, capacity: nat)
    requires size > 0 && 2 * |keys| <= capacity
    ensures |Boundaries(keys, size, |keys|)| + |Starts(keys, size, |keys|)| <= capacity
  {
  }

  // ----- a full batch that overflows -----

  const KB64: nat := 0x1_0000

  /** 128 requests of 64 KB: 33 adjacent ones, then 95 isolated ones. */
  function FullBatch(): (keys: seq<nat>)
    ensures |keys| == 128
    ensures forall i | 0 <= i < 128 :: keys[i] == if i < 33 then i * KB64 else 2 * i * KB64
  {
    seq(128, i => if i < 33 then i * KB64 else 2 * i * KB64)
  }

  lemma FullBatchBoundary(i: nat)
    requires i < 128
    ensures Boundary(FullBatch(), KB64, i) <==> i == 0 || i >= 33
  {
    var keys := FullBatch();
    if i > 0 {
      assert keys[i - 1] == if i - 1 < 33 then (i - 1) * KB64 else 2 * (i - 1) * KB64;
    }
  }

  lemma {:induction false} FullBatchCounts(n: nat)
    requires n <= 128
    ensures |Boundaries(FullBatch(), KB64, n)| == (if n == 0 then 0 else if n <= 33 then 1 else n - 32)
    ensures |Starts(FullBatch(), KB64, n)| == (if n == 0 then 0 else if n <= 32 then 1 else n - 31)
    ensures n > 0 ==> Phase(FullBatch(), KB64, n - 1) == (if n <= 32 then n - 1 else 0)
  {
    hide FullBatch;
    if n > 0 {
      FullBatchCounts(n - 1);
      FullBatchBoundary(n - 1);
      assert Stride(KB64) == 32;
    }
  }

  lemma FullBatchRun()
    ensures var b := Boundaries(FullBatch(), KB64, 128); |b| == 96 && b[0] == 0 && b[1] == 33
  {
    hide FullBatch, Boundary;
    FullBatchCounts(128);
    FullBatchPrefix(34);
    FullBatchCounts(33);
    FullBatchCounts(1);
    FullBatchPrefix(1);
    FullBatchBoundary(33);
    FullBatchBoundary(0);
  }

  lemma {:induction false} FullBatchPrefix(n: nat)
    requires n <= 128
    ensures Boundaries(FullBatch(), KB64, n) <= Boundaries(FullBatch(), KB64, 128)
    decreases 128 - n
  {
    hide FullBatch, Boundary;
    if n < 128 {
      FullBatchPrefix(n + 1);
    }
  }

  /** A batch that merely fits the list does not leave that room: a full batch of 128 requests of 64 KB, 33 of them
      adjacent, makes 96 runs and 97 groups, so the parallel merge writes past a list of 128. */
  lemma FullBatchOverflows()
    ensures AnyOversized(FullBatch(), KB64)
    ensures |Boundaries(FullBatch(), KB64, 128)| == 96 && |Starts(FullBatch(), KB64, 128)| == 97
  {
    hide Boundaries, Starts, Phase;
    FullBatchCounts(128);
    FullBatchRun();
    BoundariesCut(FullBatch(), KB64, 128);
    var b := Boundaries(FullBatch(), KB64, 128);
    assert End(b, 0, 128) == 33 && Oversized(FullBatch(), KB64, b[0], 33);
  }
}

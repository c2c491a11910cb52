// How the scheduler counts ready ring entries: one warp ballot per 32 threads against the serial scan
// (benchmarks/io_scheduler/io_scheduler_impl.cuh, include/io_scheduler.cuh).
module ReadyScan {
  import opened Bits
  import SortKey

  const LANES: nat := 32
  const WARPS: nat := 4

  /** How many entries at the front are ready. */
  function Leading(ready: seq<bool>): (n: nat)
    ensures n <= |ready| && (forall i | 0 <= i < n :: ready[i]) && (n < |ready| ==> !ready[n])
  {
    if ready == [] || !ready[0] then 0 else 1 + Leading(ready[1..])
  }

  /** `__ballot_sync`: bit `l` is the predicate of lane `l`. */
  function Mask(ready: seq<bool>): nat {
    if ready == [] then 0 else (if ready[0] then 1 else 0) + 2 * Mask(ready[1..])
  }

  lemma {:induction false} MaskBound(ready: seq<bool>)
    ensures Mask(ready) < Pow2(|ready|)
    ensures Mask(ready) == Pow2(|ready|) - 1 <==> Leading(ready) == |ready|
  {
    if ready != [] { MaskBound(ready[1..]); }
  }

  /** The lowest zero of the mask is the first lane that is not ready. */
  lemma {:induction false} LowestZero(ready: seq<bool>)
    requires Leading(ready) < |ready|
    ensures Mask(ready) < Pow2(|ready|) && SortKey.Ffs(Pow2(|ready|) - 1 - Mask(ready)) == Leading(ready) + 1
  {
    MaskBound(ready);
    var rest := ready[1..];
    var z := Pow2(|ready|) - 1 - Mask(ready);
    if ready[0] {
      LowestZero(rest);
      assert z == 2 * (Pow2(|rest|) - 1 - Mask(rest));
    } else {
      MaskBound(rest);
      assert z == 2 * (Pow2(|rest|) - 1 - Mask(rest)) + 1;
    }
  }

  lemma {:induction false} LeadingFirst(xs: seq<bool>, ys: seq<bool>)
    ensures Leading(xs + ys) == if Leading(xs) == |xs| then |xs| + Leading(ys) else Leading(xs)
  {
    if xs == [] {
      assert xs + ys == ys;
    } else {
      LeadingFirst(xs[1..], ys);
      assert (xs + ys)[1..] == xs[1..] + ys;
    }
  }

  /** Thread 0 adds up the four warp masks, up to the first that is not full. */
  method CountReady(ready: seq<bool>, roundMax: nat) returns (a: nat)
    requires |ready| == WARPS * LANES
    ensures a == if Leading(ready) > roundMax then roundMax else Leading(ready)
  {
    hide Leading, Mask, Pow2, SortKey.Ffs;
    a := 0;
    var w := 0;
    var more := true;
    while w < WARPS && more
      invariant w <= WARPS && (more ==> a == w * LANES && Leading(ready) == a + Leading(ready[a..]))
      invariant !more ==> a == Leading(ready)
    {
      var warp := ready[w * LANES..w * LANES + LANES];
      var rest := ready[w * LANES + LANES..];
      assert ready[w * LANES..] == warp + rest;
      LeadingFirst(warp, rest);
      MaskBound(warp);
      Pow2Of32();
      if Mask(warp) == 0xFFFF_FFFF {
        a := a + LANES;
      } else {
        LowestZero(warp);
        a := a + (SortKey.Ffs(0xFFFF_FFFF - Mask(warp)) - 1);
        more := false;
      }
      w := w + 1;
    }
    if more {
      assert ready[a..] == [];
      LeadingNone();
    }
    if a > roundMax { a := roundMax; }
  }

  lemma LeadingNone()
    ensures Leading([]) == 0
  {
  }

  /** What the threads of a round, or the steps of the scan, would see of `n` slots from `start` on. */
  function Flags(prodSeq: seq<nat>, start: nat, n: nat): (r: seq<bool>)
    requires |prodSeq| > 0
    ensures |r| == n && forall i | 0 <= i < n :: r[i] == (prodSeq[Mod(start + i, |prodSeq|)] == start + i + 1)
  {
    seq(n, i requires 0 <= i < n => prodSeq[Mod(start + i, |prodSeq|)] == start + i + 1)
  }

  /** `io_sched_scan_ready`, the serial form. */
  method ScanReady(prodSeq: seq<nat>, tail: nat, start: nat, maxCount: nat) returns (n: nat)
    requires |prodSeq| > 0 && start <= tail
    ensures n == Leading(Flags(prodSeq, start, if tail - start > maxCount then maxCount else tail - start))
  {
    hide Mod;
    var pending := tail - start;
    if pending > maxCount { pending := maxCount; }
    n := 0;
    while n < pending
      invariant n <= pending && forall i | 0 <= i < n :: Flags(prodSeq, start, pending)[i]
    {
      if prodSeq[Mod(start + n, |prodSeq|)] != start + n + 1 {
        LeadingIs(Flags(prodSeq, start, pending), n);
        return;
      }
      n := n + 1;
    }
    LeadingIs(Flags(prodSeq, start, pending), n);
  }

  lemma {:induction false} LeadingIs(ready: seq<bool>, n: nat)
    requires n <= |ready| && (forall i | 0 <= i < n :: ready[i]) && (n < |ready| ==> !ready[n])
    ensures Leading(ready) == n
  {
    if n > 0 { LeadingIs(ready[1..], n - 1); }
  }

  /** One round of the parallel form: the flag of a thread is off past `roundMax`. */
  function RoundFlags(prodSeq: seq<nat>, start: nat, roundMax: nat): (r: seq<bool>)
    requires |prodSeq| > 0
    ensures |r| == WARPS * LANES
    ensures forall t | 0 <= t < |r| :: r[t] == (t < roundMax && prodSeq[Mod(start + t, |prodSeq|)] == start + t + 1)
  {
    seq(WARPS * LANES, t requires 0 <= t < WARPS * LANES => t < roundMax && prodSeq[Mod(start + t, |prodSeq|)] == start + t + 1)
  }

  /** On one snapshot of the ring a parallel round finds what the serial scan of at most 128 slots finds. */
  lemma RoundRefinesScan(prodSeq: seq<nat>, start: nat, roundMax: nat)
    requires |prodSeq| > 0 && roundMax <= WARPS * LANES
    ensures Leading(RoundFlags(prodSeq, start, roundMax)) == Leading(Flags(prodSeq, start, roundMax))
    ensures Leading(RoundFlags(prodSeq, start, roundMax)) <= roundMax
  {
    hide Mod;
    var flags, round := Flags(prodSeq, start, roundMax), RoundFlags(prodSeq, start, roundMax);
    var n := Leading(flags);
    assert forall i | 0 <= i < roundMax :: round[i] == flags[i];
    assert n < |round| ==> !round[n];
    LeadingIs(RoundFlags(prodSeq, start, roundMax), n);
  }
}

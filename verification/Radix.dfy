// The two radix sorts of benchmarks/io_scheduler/io_scheduler_impl.cuh: thread 0
// scatters serially in v1, 128 threads scatter warp by warp in v2.
module Radix {
  import opened StableCount

  const THREADS: nat := 128
  const LANES: nat := 32

  function Upto(n: nat, i: nat): (r: nat)
    ensures r <= n && r <= i
  {
    if i <= n then i else n
  }

  // ----- histogram and exclusive prefix sum (steps 1 to 3, common to both) -----

  /** Bucket cursors once the first `i` elements have been placed. */
  ghost predicate Cursors(ds: seq<nat>, hist: seq<nat>, i: nat) {
    |hist| == 256 && forall d | 0 <= d < 256 :: hist[d] == Base(ds, d) + Count(ds, d, Upto(|ds|, i))
  }

  method BucketStarts(keys: array<nat>, n: nat, pass: nat) returns (hist: array<nat>)
    requires n <= keys.Length
    ensures fresh(hist) && Cursors(Digits(keys[..n], pass), hist[..], 0)
  {
    hide Digit, DigitsBelow;
    ghost var ds := Digits(keys[..n], pass);
    hist := new nat[256](_ => 0);
    for i := 0 to n
      invariant forall d | 0 <= d < 256 :: hist[d] == Count(ds, d, i)
    {
      var d := Digit(keys[i], pass);
      assert d == ds[i];
      hist[d] := hist[d] + 1;
    }
    var s := 0;
    for d := 0 to 256
      invariant s == Base(ds, d)
      invariant forall e | 0 <= e < d :: hist[e] == Base(ds, e)
      invariant forall e | d <= e < 256 :: hist[e] == Count(ds, e, n)
    {
      var c := hist[d];
      hist[d] := s;
      s := s + c;
    }
  }

  // ----- placing elements one by one -----

  /** The first `i` elements of `src` have been written to their positions in `dst`. */
  ghost predicate Placed<T>(ds: seq<nat>, src: seq<T>, dst: seq<T>, i: nat)
    requires i <= |ds| == |src|
  {
    forall j | 0 <= j < i :: Pos(ds, j) < |dst| && dst[Pos(ds, j)] == src[j]
  }

  lemma PlaceNext<T>(ds: seq<nat>, src: seq<T>, dst: seq<T>, i: nat)
    requires i < |ds| == |src| == |dst| && DigitsBelow(ds, 256) && Placed(ds, src, dst, i)
    ensures Pos(ds, i) < |dst| && Placed(ds, src, dst[Pos(ds, i) := src[i]], i + 1)
  {
    PosBound(ds, 256, i);
    var out := dst[Pos(ds, i) := src[i]];
    forall j | 0 <= j < i + 1
      ensures Pos(ds, j) < |dst| && out[Pos(ds, j)] == src[j]
    {
      PosOrder(ds, i, j);
    }
  }

  lemma AllPlaced<T>(ds: seq<nat>, src: seq<T>, dst: seq<T>)
    requires |ds| == |src| == |dst| && DigitsBelow(ds, 256) && Placed(ds, src, dst, |ds|)
    ensures dst == StablePass(src, ds, 256)
  {
    ScatterIsStablePass(src, ds, 256, dst);
  }

  lemma CursorNext(ds: seq<nat>, hist: seq<nat>, i: nat)
    requires i < |ds| && DigitsBelow(ds, 256) && Cursors(ds, hist, i)
    ensures hist[ds[i]] == Pos(ds, i)
    ensures Cursors(ds, hist[ds[i] := hist[ds[i]] + 1], i + 1)
  {
  }

  ghost predicate Distinct(a: array<nat>, b: array<nat>, c: array<nat>, d: array<nat>) {
    a != b && a != c && a != d && b != c && b != d && c != d
  }

  /** Step 4 of v1: thread 0 alone, in input order. */
  method ScatterSerial(keys: array<nat>, vals: array<nat>, keysA: array<nat>, valsA: array<nat>, n: nat, pass: nat,
                       hist: array<nat>)
    requires n <= keys.Length && n <= vals.Length && n <= keysA.Length && n <= valsA.Length
    requires Distinct(keys, vals, keysA, valsA) && hist !in {keys, vals, keysA, valsA}
    requires Cursors(Digits(keys[..n], pass), hist[..], 0)
    modifies keysA, valsA, hist
    ensures keysA[..n] == StablePass(keys[..n], Digits(keys[..n], pass), 256)
    ensures valsA[..n] == StablePass(vals[..n], Digits(keys[..n], pass), 256)
  {
    hide Cursors, Placed, Pos, StablePass, Digits, Digit, DigitsBelow, Upto;
    var ds := Digits(keys[..n], pass);
    PlacedNone(ds, keys[..n], keysA[..n]);
    PlacedNone(ds, vals[..n], valsA[..n]);
    CursorFacts(ds, hist[..], 0);
    for i := 0 to n
      invariant hist.Length == 256 && Cursors(ds, hist[..], i)
      invariant Placed(ds, keys[..n], keysA[..n], i) && Placed(ds, vals[..n], valsA[..n], i)
    {
      var d := Digit(keys[i], pass);
      assert d == ds[i];
      CursorNext(ds, hist[..], i);
      PlaceNext(ds, keys[..n], keysA[..n], i);
      PlaceNext(ds, vals[..n], valsA[..n], i);
      var p := hist[d];
      ghost var h: seq<nat>, ka: seq<nat>, va: seq<nat> := hist[..], keysA[..n], valsA[..n];
      hist[d] := p + 1;
      keysA[p] := keys[i];
      valsA[p] := vals[i];
      assert hist[..] == h[d := p + 1];
      assert keysA[..n] == ka[p := keys[..n][i]] && valsA[..n] == va[p := vals[..n][i]];
    }
    AllPlaced(ds, keys[..n], keysA[..n]);
    AllPlaced(ds, vals[..n], valsA[..n]);
  }

  lemma PlacedNone<T>(ds: seq<nat>, src: seq<T>, dst: seq<T>)
    requires |ds| == |src|
    ensures Placed(ds, src, dst, 0)
  {
  }

  lemma CursorFacts(ds: seq<nat>, hist: seq<nat>, i: nat)
    requires Cursors(ds, hist, i)
    ensures |hist| == 256
  {
  }

  // ----- the warp primitives of v2 -----

  /** `__match_any_sync`: the lanes of the warp starting at `wb` that are in range and share lane `lane`'s digit. */
  function Peers(ds: seq<nat>, wb: nat, lane: nat): set<nat>
    requires wb + lane < |ds|
  {
    set l: nat {:trigger ds[wb + l]} | l < LANES && wb + l < |ds| && ds[wb + l] == ds[wb + lane]
  }

  /** `__popc(mask & ((1 << below) - 1))`. */
  function Popc(mask: set<nat>, below: nat): nat {
    |set l | l in mask && l < below|
  }

  /** `__ffs(mask) - 1`, searching upwards from `l`. */
  function Ffs(mask: set<nat>, l: nat, bound: nat): (r: nat)
    requires l <= bound && bound in mask
    ensures l <= r <= bound && r in mask
    ensures forall k | l <= k < r :: k !in mask
    decreases bound - l
  {
    if l in mask then l else Ffs(mask, l + 1, bound)
  }

  lemma {:induction false} PopcCounts(ds: seq<nat>, wb: nat, lane: nat, b: nat)
    requires wb + lane < |ds| && b <= LANES
    ensures Popc(Peers(ds, wb, lane), b)
         == Count(ds, ds[wb + lane], Upto(|ds|, wb + b)) - Count(ds, ds[wb + lane], wb)
  {
    var m := Peers(ds, wb, lane);
    if b == 0 {
      assert (set l | l in m && l < 0) == {};
    } else {
      PopcCounts(ds, wb, lane, b - 1);
      var small := set l | l in m && l < b - 1;
      if b - 1 in m {
        assert (set l | l in m && l < b) == small + {b - 1};
      } else {
        assert (set l | l in m && l < b) == small;
      }
    }
  }

  /** Cursors while warp `wb` claims positions: a digit already seen in the first `lane` lanes is done. */
  ghost predicate Claiming(ds: seq<nat>, hist: seq<nat>, wb: nat, lane: nat) {
    && |hist| == 256
    && forall d | 0 <= d < 256 ::
         hist[d] == Base(ds, d) +
           (if Count(ds, d, Upto(|ds|, wb + lane)) > Count(ds, d, Upto(|ds|, wb))
            then Count(ds, d, Upto(|ds|, wb + LANES)) else Count(ds, d, Upto(|ds|, wb)))
  }

  lemma ClaimingDone(ds: seq<nat>, hist: seq<nat>, wb: nat)
    requires Claiming(ds, hist, wb, LANES)
    ensures Cursors(ds, hist, wb + LANES)
  {
    forall d | 0 <= d < 256
      ensures hist[d] == Base(ds, d) + Count(ds, d, Upto(|ds|, wb + LANES))
    {
      CountMonotone(ds, d, Upto(|ds|, wb), Upto(|ds|, wb + LANES));
    }
  }

  /** A lane outside the range, or one that is not the first of its peers, leaves the cursors alone. */
  lemma ClaimingSkip(ds: seq<nat>, hist: seq<nat>, wb: nat, lane: nat)
    requires Claiming(ds, hist, wb, lane) && lane < LANES
    requires wb + lane >= |ds| || Popc(Peers(ds, wb, lane), lane) != 0
    ensures Claiming(ds, hist, wb, lane + 1)
  {
    if wb + lane < |ds| {
      PopcCounts(ds, wb, lane, lane);
      hide Popc, Peers;
      CountMonotone(ds, ds[wb + lane], wb + lane, wb + lane + 1);
    }
  }

  lemma ClaimingTake(ds: seq<nat>, hist: seq<nat>, wb: nat, lane: nat)
    requires Claiming(ds, hist, wb, lane) && lane < LANES && wb + lane < |ds| && DigitsBelow(ds, 256)
    requires Popc(Peers(ds, wb, lane), lane) == 0
    ensures var d := ds[wb + lane];
            && hist[d] == Base(ds, d) + Count(ds, d, wb)
            && Claiming(ds, hist[d := hist[d] + Popc(Peers(ds, wb, lane), LANES)], wb, lane + 1)
  {
    PopcCounts(ds, wb, lane, lane);
    PopcCounts(ds, wb, lane, LANES);
    hide Popc, Peers;
  }

  /** What the leader lanes of warp `wb` hold once they have claimed: the first free position of their digit. */
  ghost predicate Claimed(ds: seq<nat>, myPos: seq<nat>, wb: nat, first: nat, lanes: nat)
    requires first + lanes <= |myPos|
  {
    forall l {:trigger Peers(ds, wb, l)} | 0 <= l < lanes && wb + l < |ds| && Popc(Peers(ds, wb, l), l) == 0 ::
      myPos[first + l] == Base(ds, ds[wb + l]) + Count(ds, ds[wb + l], wb)
  }

  lemma ClaimedNext(ds: seq<nat>, myPos: seq<nat>, wb: nat, first: nat, lane: nat, x: nat)
    requires first + lane < |myPos| && Claimed(ds, myPos, wb, first, lane)
    requires wb + lane < |ds| && Popc(Peers(ds, wb, lane), lane) == 0 ==>
               x == Base(ds, ds[wb + lane]) + Count(ds, ds[wb + lane], wb)
    ensures Claimed(ds, myPos[first + lane := x], wb, first, lane + 1)
  {
  }

  /** One warp's turn: the first lane of each peer group claims positions for the whole group. */
  method ClaimWarp(ds: seq<nat>, wb: nat, first: nat, hist: array<nat>, myPos: array<nat>)
    requires hist != myPos && first + LANES <= myPos.Length && DigitsBelow(ds, 256)
    requires hist.Length == 256 && Cursors(ds, hist[..], wb)
    modifies hist, myPos
    ensures Cursors(ds, hist[..], wb + LANES)
    ensures Claimed(ds, myPos[..], wb, first, LANES)
    ensures forall t | 0 <= t < first || first + LANES <= t < myPos.Length :: myPos[t] == old(myPos[t])
  {
    hide Popc, Peers, Base, Count;
    ClaimingStart(ds, hist[..], wb);
    ClaimedNone(ds, myPos[..], wb, first);
    hide Claiming, Claimed, Cursors;
    for lane := 0 to LANES
      invariant Claiming(ds, hist[..], wb, lane)
      invariant Claimed(ds, myPos[..], wb, first, lane)
      invariant forall t | 0 <= t < first || first + LANES <= t < myPos.Length :: myPos[t] == old(myPos[t])
    {
      if wb + lane < |ds| && Popc(Peers(ds, wb, lane), lane) == 0 {
        ClaimingTake(ds, hist[..], wb, lane);
        var d := ds[wb + lane];
        ghost var h: seq<nat>, m: seq<nat> := hist[..], myPos[..];
        ClaimedNext(ds, m, wb, first, lane, hist[d]);
        myPos[first + lane] := hist[d];
        hist[d] := hist[d] + Popc(Peers(ds, wb, lane), LANES);
        assert hist[..] == h[d := h[d] + Popc(Peers(ds, wb, lane), LANES)];
        assert myPos[..] == m[first + lane := h[d]];
      } else {
        ClaimingSkip(ds, hist[..], wb, lane);
        ClaimedNext(ds, myPos[..], wb, first, lane, myPos[first + lane]);
        assert myPos[..][first + lane := myPos[first + lane]] == myPos[..];
      }
    }
    ClaimingDone(ds, hist[..], wb);
  }

  lemma ClaimingStart(ds: seq<nat>, hist: seq<nat>, wb: nat)
    requires Cursors(ds, hist, wb)
    ensures Claiming(ds, hist, wb, 0)
  {
  }

  lemma ClaimedNone(ds: seq<nat>, myPos: seq<nat>, wb: nat, first: nat)
    requires first <= |myPos|
    ensures Claimed(ds, myPos, wb, first, 0)
  {
  }

  /** The base read from the group's first lane plus the rank within the group is the stable position. */
  lemma BasePlusRank(ds: seq<nat>, myPos: seq<nat>, wb: nat, first: nat, lane: nat)
    requires first + LANES <= |myPos| && Claimed(ds, myPos, wb, first, LANES)
    requires lane < LANES && wb + lane < |ds|
    ensures var mask := Peers(ds, wb, lane);
            lane in mask && myPos[first + Ffs(mask, 0, lane)] + Popc(mask, lane) == Pos(ds, wb + lane)
  {
    var mask := Peers(ds, wb, lane);
    var src := Ffs(mask, 0, lane);
    assert Peers(ds, wb, src) == mask;
    assert (set l | l in mask && l < src) == {};
    PopcCounts(ds, wb, lane, lane);
  }

  /** Step 4 of v2. */
  method ScatterParallel(keys: array<nat>, vals: array<nat>, keysA: array<nat>, valsA: array<nat>, n: nat, pass: nat,
                         hist: array<nat>)
    requires n <= keys.Length && n <= vals.Length && n <= keysA.Length && n <= valsA.Length
    requires Distinct(keys, vals, keysA, valsA) && hist !in {keys, vals, keysA, valsA}
    requires Cursors(Digits(keys[..n], pass), hist[..], 0)
    modifies keysA, valsA, hist
    ensures keysA[..n] == StablePass(keys[..n], Digits(keys[..n], pass), 256)
    ensures valsA[..n] == StablePass(vals[..n], Digits(keys[..n], pass), 256)
  {
    hide Cursors, Placed, Pos, StablePass, Digits, Digit, DigitsBelow, Upto;
    var ds := Digits(keys[..n], pass);
    PlacedNone(ds, keys[..n], keysA[..n]);
    PlacedNone(ds, vals[..n], valsA[..n]);
    CursorFacts(ds, hist[..], 0);
    var chunk := 0;
    while chunk < n
      invariant hist.Length == 256 && Cursors(ds, hist[..], chunk)
      invariant Placed(ds, keys[..n], keysA[..n], Upto(n, chunk)) && Placed(ds, vals[..n], valsA[..n], Upto(n, chunk))
    {
      var myPos := ClaimChunk(ds, chunk, hist);
      WriteChunk(ds, chunk, myPos, keys, vals, keysA, valsA, n);
      chunk := chunk + THREADS;
    }
    UptoPast(n, chunk);
    AllPlaced(ds, keys[..n], keysA[..n]);
    AllPlaced(ds, vals[..n], valsA[..n]);
  }

  lemma UptoPast(n: nat, i: nat)
    requires i >= n
    ensures Upto(n, i) == n
  {
  }

  /** The four warps claim in turn, a barrier between them. */
  method ClaimChunk(ds: seq<nat>, chunk: nat, hist: array<nat>) returns (myPos: array<nat>)
    requires DigitsBelow(ds, 256) && hist.Length == 256 && Cursors(ds, hist[..], chunk)
    modifies hist
    ensures fresh(myPos) && myPos.Length == THREADS && Cursors(ds, hist[..], chunk + THREADS)
    ensures forall w | 0 <= w < 4 :: Claimed(ds, myPos[..], chunk + LANES * w, LANES * w, LANES)
  {
    hide Cursors, Popc, Peers, Base, Count;
    myPos := new nat[THREADS](_ => 0);
    for w := 0 to 4
      invariant Cursors(ds, hist[..], chunk + LANES * w)
      invariant forall v | 0 <= v < w :: Claimed(ds, myPos[..], chunk + LANES * v, LANES * v, LANES)
    {
      ghost var before := myPos[..];
      ClaimWarp(ds, chunk + LANES * w, LANES * w, hist, myPos);
      forall v | 0 <= v < w
        ensures Claimed(ds, myPos[..], chunk + LANES * v, LANES * v, LANES)
      {
        ClaimedFrame(ds, before, myPos[..], chunk + LANES * v, LANES * v);
      }
    }
  }

  lemma ClaimedFrame(ds: seq<nat>, myPos: seq<nat>, myPos': seq<nat>, wb: nat, first: nat)
    requires first + LANES <= |myPos| == |myPos'| && Claimed(ds, myPos, wb, first, LANES)
    requires forall t | first <= t < first + LANES :: myPos[t] == myPos'[t]
    ensures Claimed(ds, myPos', wb, first, LANES)
  {
    hide Popc, Base, Count;
  }

  /** Every thread of the chunk writes its element, after the broadcast of its group's base. */
  method WriteChunk(ds: seq<nat>, chunk: nat, myPos: array<nat>, keys: array<nat>, vals: array<nat>, keysA: array<nat>,
                    valsA: array<nat>, n: nat)
    requires n <= keys.Length && n <= vals.Length && n <= keysA.Length && n <= valsA.Length
    requires Distinct(keys, vals, keysA, valsA) && myPos !in {keys, vals, keysA, valsA}
    requires |ds| == n && DigitsBelow(ds, 256) && myPos.Length == THREADS && chunk < n
    requires forall w | 0 <= w < 4 :: Claimed(ds, myPos[..], chunk + LANES * w, LANES * w, LANES)
    requires Placed(ds, keys[..n], keysA[..n], Upto(n, chunk)) && Placed(ds, vals[..n], valsA[..n], Upto(n, chunk))
    modifies keysA, valsA
    ensures Placed(ds, keys[..n], keysA[..n], Upto(n, chunk + THREADS))
    ensures Placed(ds, vals[..n], valsA[..n], Upto(n, chunk + THREADS))
  {
    hide Placed, Claimed, Popc, Pos;
    for tid := 0 to THREADS
      invariant Placed(ds, keys[..n], keysA[..n], Upto(n, chunk + tid))
      invariant Placed(ds, vals[..n], valsA[..n], Upto(n, chunk + tid))
    {
      var idx, w, lane := chunk + tid, tid / LANES, tid % LANES;
      if idx < n {
        var mask := Peers(ds, chunk + LANES * w, lane);
        BasePlusRank(ds, myPos[..], chunk + LANES * w, LANES * w, lane);
        var p := myPos[LANES * w + Ffs(mask, 0, lane)] + Popc(mask, lane);
        PlaceNext(ds, keys[..n], keysA[..n], idx);
        PlaceNext(ds, vals[..n], valsA[..n], idx);
        ghost var ka: seq<nat>, va: seq<nat> := keysA[..n], valsA[..n];
        keysA[p] := keys[idx];
        valsA[p] := vals[idx];
        assert keysA[..n] == ka[p := keys[..n][idx]] && valsA[..n] == va[p := vals[..n][idx]];
      }
    }
  }

  // ----- the whole sort -----

  /** `keys` and `vals` hold the first `n` elements of `ks` and `vs` in the stable order of `passes` passes. */
  ghost predicate Sorted(ks: seq<nat>, vs: seq<nat>, passes: nat, perm: seq<nat>, keys: seq<nat>, vals: seq<nat>) {
    && |vs| == |ks| && StableOrder(ks, passes, perm)
    && keys == Gather(ks, perm) && vals == Gather(vs, perm)
  }

  lemma SortedStart(ks: seq<nat>, vs: seq<nat>)
    requires |ks| == |vs|
    ensures Sorted(ks, vs, 0, Identity(|ks|), ks, vs)
  {
    StartsInOrder(ks);
    assert Gather(vs, Identity(|ks|)) == vs;
  }

  lemma SortedNext(ks: seq<nat>, vs: seq<nat>, passes: nat, perm: seq<nat>, keys: seq<nat>, vals: seq<nat>)
    requires Sorted(ks, vs, passes, perm, keys, vals)
    ensures |keys| == |vals| == |ks|
    ensures var ds := Digits(keys, passes);
            Sorted(ks, vs, passes + 1, StablePass(perm, ds, 256), StablePass(keys, ds, 256), StablePass(vals, ds, 256))
  {
    PassRefinesOrder(ks, passes, perm);
    GatherPass(ks, perm, Digits(keys, passes));
    GatherPass(vs, perm, Digits(keys, passes));
  }

  lemma GatherPass<T>(s: seq<T>, perm: seq<nat>, ds: seq<nat>)
    requires IsPermutation(perm) && |ds| == |perm| == |s| && DigitsBelow(ds, 256)
    ensures IsPermutation(StablePass(perm, ds, 256))
    ensures StablePass(Gather(s, perm), ds, 256) == Gather(s, StablePass(perm, ds, 256))
  {
    PassKeepsPermutation(perm, ds);
    var out := StablePass(perm, ds, 256);
    forall p | 0 <= p < |out| ensures StablePass(Gather(s, perm), ds, 256)[p] == s[out[p]] {
      assert out[p] == perm[Origin(ds, 256, p)];
    }
  }

  /** One pass: histogram, prefix sum, scatter into the other buffers. */
  method SortPass(k: array<nat>, v: array<nat>, ka: array<nat>, va: array<nat>, n: nat, pass: nat, parallel: bool,
                  ghost ks: seq<nat>, ghost vs: seq<nat>, ghost perm: seq<nat>)
    returns (ghost perm': seq<nat>)
    requires n <= k.Length && n <= v.Length && n <= ka.Length && n <= va.Length && Distinct(k, v, ka, va)
    requires Sorted(ks, vs, pass, perm, k[..n], v[..n])
    modifies ka, va
    ensures Sorted(ks, vs, pass + 1, perm', ka[..n], va[..n])
  {
    SortedNext(ks, vs, pass, perm, k[..n], v[..n]);
    hide Cursors, StablePass, Digits, DigitsBelow, Sorted;
    ghost var ds := Digits(k[..n], pass);
    var hist := BucketStarts(k, n, pass);
    if parallel {
      ScatterParallel(k, v, ka, va, n, pass, hist);
    } else {
      ScatterSerial(k, v, ka, va, n, pass, hist);
    }
    perm' := StablePass(perm, ds, 256);
  }

  /** `io_sched_radix_sort` and, with `parallel`, `io_sched_radix_sort_v2`. The result is the stable
      sort on the low `8 * nPasses` bits, in the original buffers when the pass count is even. */
  method RadixSort(keys: array<nat>, vals: array<nat>, keysA: array<nat>, valsA: array<nat>, n: nat, nPasses: nat,
                   parallel: bool)
    returns (ghost perm: seq<nat>)
    requires n <= keys.Length && n <= vals.Length && n <= keysA.Length && n <= valsA.Length
    requires Distinct(keys, vals, keysA, valsA)
    modifies keys, vals, keysA, valsA
    ensures nPasses % 2 == 0 ==> Sorted(old(keys[..n]), old(vals[..n]), nPasses, perm, keys[..n], vals[..n])
    ensures nPasses % 2 == 1 ==> Sorted(old(keys[..n]), old(vals[..n]), nPasses, perm, keysA[..n], valsA[..n])
  {
    hide Sorted;
    ghost var ks, vs := keys[..n], vals[..n];
    var k, v, ka, va := keys, vals, keysA, valsA;
    perm := Identity(n);
    SortedStart(ks, vs);
    for pass := 0 to nPasses
      invariant pass % 2 == 0 ==> k == keys && v == vals && ka == keysA && va == valsA
      invariant pass % 2 == 1 ==> k == keysA && v == valsA && ka == keys && va == vals
      invariant Sorted(ks, vs, pass, perm, k[..n], v[..n])
    {
      perm := SortPass(k, v, ka, va, n, pass, parallel, ks, vs, perm);
      k, v, ka, va := ka, va, k, v;
    }
  }

  /** v2 refines v1: results of the two sorts on the same input are equal, whatever their passes did. */
  lemma SortsAgree(ks: seq<nat>, vs: seq<nat>, passes: nat, p1: seq<nat>, k1: seq<nat>, v1: seq<nat>,
                   p2: seq<nat>, k2: seq<nat>, v2: seq<nat>)
    requires Sorted(ks, vs, passes, p1, k1, v1) && Sorted(ks, vs, passes, p2, k2, v2)
    ensures k1 == k2 && v1 == v2
  {
    StableOrderUnique(ks, passes, p1, p2);
  }
}

// The bitonic sorting network of the read scheduler
// (benchmarks/io_scheduler/io_scheduler_impl.cuh), in place and indexed by exclusive or.
module Bitonic {
  import opened Bits
  import opened StableCount

  // ----- blocks of indices -----

  lemma {:induction false} Halving(i: nat, q: nat)
    ensures Shr(i, q + 1) == Shr(i, q) / 2 && (Bit(i, q) <==> Shr(i, q) % 2 == 1)
  {
    if q > 0 { Halving(i / 2, q - 1); }
  }

  lemma InBlock(i: nat, q: nat)
    ensures Shr(i, q) * Pow2(q) <= i < Shr(i, q) * Pow2(q) + Pow2(q)
  {
    ShrIsDiv(i, q);
  }

  lemma BlockOf(i: nat, q: nat, c: nat)
    requires c * Pow2(q) <= i < c * Pow2(q) + Pow2(q)
    ensures Shr(i, q) == c
  {
    ShrIsDiv(i, q);
    DivModUnique(i, Pow2(q), c, i - c * Pow2(q));
  }

  lemma {:induction false} Coarser(i: nat, j: nat, q: nat, p: nat)
    requires q <= p && Shr(i, q) <= Shr(j, q)
    ensures Shr(i, p) <= Shr(j, p)
    ensures Shr(i, q) == Shr(j, q) ==> Shr(i, p) == Shr(j, p)
    decreases p - q
  {
    if q < p {
      Halving(i, q);
      Halving(j, q);
      hide Shr;
      Coarser(i, j, q + 1, p);
    }
  }

  lemma InRange(i: nat, m: nat)
    ensures i < Pow2(m) <==> Shr(i, m) == 0
  {
    InBlock(i, m);
    if i < Pow2(m) { BlockOf(i, m, 0); }
  }

  lemma {:induction false} NextBlock(i: nat, q: nat)
    ensures Shr(i + Pow2(q), q) == Shr(i, q) + 1
  {
    if q > 0 {
      NextBlock(i / 2, q - 1);
      assert (i + 2 * Pow2(q - 1)) / 2 == i / 2 + Pow2(q - 1);
    }
  }

  /** `i ^ 2^q`: the index next to `i` in its block of `2^(q+1)`. */
  function Partner(i: nat, q: nat): nat {
    Xor(i, Pow2(q))
  }

  lemma PartnerFacts(i: nat, q: nat)
    ensures Bit(i, q) ==> Partner(i, q) == i - Pow2(q) && Shr(Partner(i, q), q) == Shr(i, q) - 1
    ensures !Bit(i, q) ==> Partner(i, q) == i + Pow2(q) && Shr(Partner(i, q), q) == Shr(i, q) + 1
    ensures Bit(Partner(i, q), q) == !Bit(i, q) && Shr(Partner(i, q), q + 1) == Shr(i, q + 1)
    ensures Partner(Partner(i, q), q) == i
  {
    hide Xor, Bit, Shr, Pow2;
    XorPow2(i, q);
    XorCancel(i, Pow2(q));
    var j := Partner(i, q);
    NextBlock(if Bit(i, q) then j else i, q);
    Halving(i, q);
    Halving(j, q);
  }

  /** Partners agree on all coarser blocks, hence on the direction of their merge. */
  lemma PartnerCoarser(i: nat, q: nat, p: nat)
    requires q < p
    ensures Shr(Partner(i, q), p) == Shr(i, p) && Bit(Partner(i, q), p) == Bit(i, p)
  {
    PartnerFacts(i, q);
    Coarser(Partner(i, q), i, q + 1, p);
    Halving(i, p);
    Halving(Partner(i, q), p);
  }

  lemma PartnerInRange(i: nat, q: nat, m: nat)
    requires q < m && i < Pow2(m)
    ensures Partner(i, q) < Pow2(m)
  {
    hide *;
    PartnerCoarser(i, q, m);
    InRange(i, m);
    InRange(Partner(i, q), m);
  }

  // ----- one stage: all pairs compared and exchanged at once -----

  function Min(x: nat, y: nat): nat { if x <= y then x else y }

  function Max(x: nat, y: nat): nat { if x <= y then y else x }

  ghost predicate Shape(a: seq<nat>, m: nat, p: nat, q: nat) {
    |a| == Pow2(m) && q < p <= m
  }

  function StageAt(a: seq<nat>, p: nat, q: nat, i: nat): nat
    requires i < |a| && Partner(i, q) < |a|
  {
    if Bit(i, q) == Bit(i, p) then Min(a[i], a[Partner(i, q)]) else Max(a[i], a[Partner(i, q)])
  }

  function Stage(a: seq<nat>, m: nat, p: nat, q: nat): (r: seq<nat>)
    requires Shape(a, m, p, q)
    ensures |r| == |a|
    ensures forall i | 0 <= i < |a| :: Partner(i, q) < |a| && r[i] == StageAt(a, p, q, i)
  {
    PartnersInRange(q, m);
    seq(|a|, i requires 0 <= i < |a| => StageAt(a, p, q, i))
  }

  lemma PartnersInRange(q: nat, m: nat)
    requires q < m
    ensures forall i: nat | i < Pow2(m) :: Partner(i, q) < Pow2(m)
  {
    forall i: nat | i < Pow2(m)
      ensures Partner(i, q) < Pow2(m)
    {
      PartnerInRange(i, q, m);
    }
  }

  // ----- bitonic blocks, one threshold at a time -----

  /** Inside the interval, or outside it: the shape of a bitonic sequence of booleans. */
  predicate Arc(x: int, y: int, inside: bool, i: int) {
    (x <= i < y) == inside
  }

  /** Where the block `c` of `2^r` elements exceeds `t`, as an arc. */
  ghost predicate ArcBlock(a: seq<nat>, c: nat, r: nat, t: int, x: int, y: int, inside: bool) {
    forall i: nat | i < |a| && Shr(i, r) == c :: (a[i] > t) == Arc(x, y, inside, i)
  }

  ghost predicate BitonicAt(a: seq<nat>, c: nat, r: nat, t: int) {
    exists x: int, y: int, inside: bool :: x <= y && ArcBlock(a, c, r, t, x, y, inside)
  }

  ghost predicate Uniform(a: seq<nat>, c: nat, r: nat, t: int, v: bool) {
    forall i: nat | i < |a| && Shr(i, r) == c :: (a[i] > t) == v
  }

  lemma UniformIsBitonic(a: seq<nat>, c: nat, r: nat, t: int, v: bool)
    requires Uniform(a, c, r, t, v)
    ensures BitonicAt(a, c, r, t)
  {
    hide Shr;
    assert ArcBlock(a, c, r, t, 0, 0, !v);
  }

  datatype Cleaned = Cleaned(cleanAnd: bool, x: int, y: int, inside: bool)

  /** Half cleaner: an arc of a block of `2 * w` compared with itself half a block further on. */
  function HalfClean(s: int, w: int, x: int, y: int, inside: bool): Cleaned {
    if y - x > w then Cleaned(!inside, x, y - w, inside)
    else if x >= s + w then Cleaned(inside, x - w, y - w, inside)
    else if y <= s + w then Cleaned(inside, x, y, inside)
    else Cleaned(inside, y - w, x, !inside)
  }

  /** One side of the comparison becomes constant, the other an arc again. */
  lemma HalfCleanAt(s: int, w: int, x: int, y: int, inside: bool, i: int)
    requires s <= x <= y <= s + 2 * w && s <= i < s + w
    ensures var k := HalfClean(s, w, x, y, inside);
            var u, v := Arc(x, y, inside, i), Arc(x, y, inside, i + w);
            && k.x <= k.y
            && (k.cleanAnd ==> !(u && v) && (u || v) == Arc(k.x, k.y, k.inside, i))
            && (!k.cleanAnd ==> (u || v) && (u && v) == Arc(k.x, k.y, k.inside, i))
  {
  }

  /** The two halves of a block, and the partners in them. */
  lemma HalvesOf(c: nat, q: nat, i: nat)
    ensures Shr(i, q) == 2 * c ==> Shr(i, q + 1) == c && !Bit(i, q)
    ensures Shr(i, q) == 2 * c + 1 ==> Shr(i, q + 1) == c && Bit(i, q)
  {
    Halving(i, q);
  }

  lemma StageBit(a: seq<nat>, m: nat, p: nat, q: nat, i: nat, t: int)
    requires Shape(a, m, p, q) && i < |a|
    ensures var j := Partner(i, q); var r := Stage(a, m, p, q);
            j < |a| && (r[i] > t) == if Bit(i, q) == Bit(i, p) then a[i] > t && a[j] > t else a[i] > t || a[j] > t
  {
    hide Bit, Partner, Shape;
  }

  /** After stage `q`, for one threshold: the lower half of a block and its upper half are bitonic, and
      they are ordered, ascending where bit `p` is clear. */
  ghost predicate Split(a: seq<nat>, c: nat, q: nat, t: int, down: bool) {
    && BitonicAt(a, 2 * c, q, t) && BitonicAt(a, 2 * c + 1, q, t)
    && (if down then Uniform(a, 2 * c, q, t, true) || Uniform(a, 2 * c + 1, q, t, false)
        else Uniform(a, 2 * c, q, t, false) || Uniform(a, 2 * c + 1, q, t, true))
  }

  /** An arc of a block can be clipped to the block. */
  lemma Clip(a: seq<nat>, c: nat, r: nat, t: int) returns (x: int, y: int, inside: bool)
    requires BitonicAt(a, c, r, t)
    ensures c * Pow2(r) <= x <= y <= c * Pow2(r) + Pow2(r) && ArcBlock(a, c, r, t, x, y, inside)
  {
    hide Shr, Pow2;
    var x0: int, y0: int, in0: bool :| x0 <= y0 && ArcBlock(a, c, r, t, x0, y0, in0);
    var lo, hi := c * Pow2(r), c * Pow2(r) + Pow2(r);
    x := if x0 < lo then lo else if x0 > hi then hi else x0;
    y := if y0 < lo then lo else if y0 > hi then hi else y0;
    inside := in0;
    forall i: nat | i < |a| && Shr(i, r) == c
      ensures (a[i] > t) == Arc(x, y, inside, i)
    {
      InBlock(i, r);
    }
  }

  lemma LowerHalf(i: nat, q: nat, c: nat)
    requires Shr(i, q) == 2 * c
    ensures c * Pow2(q + 1) <= i < c * Pow2(q + 1) + Pow2(q)
  {
    hide Shr;
    InBlock(i, q);
    assert 2 * c * Pow2(q) == c * Pow2(q + 1);
  }

  /** What stage `q` makes of an index of the lower half (`i`) and of its partner: at one of the two places
      the conjunction, at the other the disjunction, of what stood there. */
  lemma CleanPair(a: seq<nat>, m: nat, p: nat, q: nat, c: nat, t: int, i: nat)
    requires Shape(a, m, p, q) && q < p && i < |a| && Shr(i, q) == 2 * c
    ensures var r, j := Stage(a, m, p, q), i + Pow2(q);
            && j < |a| && j == Partner(i, q) && Bit(i, p) == Bit(j, p) && Shr(i, q + 1) == c == Shr(j, q + 1)
            && Shr(j, q) == 2 * c + 1
            && (var low, high := if Bit(i, p) then r[j] else r[i], if Bit(i, p) then r[i] else r[j];
                (low > t) == (a[i] > t && a[j] > t) && (high > t) == (a[i] > t || a[j] > t))
  {
    hide Shr, Bit, Xor, Shape, Stage, Pow2;
    var j := Partner(i, q);
    HalvesOf(c, q, i);
    PartnerFacts(i, q);
    PartnerCoarser(i, q, p);
    StageBit(a, m, p, q, i, t);
    StageBit(a, m, p, q, j, t);
  }

  /** The same, read off an arc of the whole block. */
  lemma CleanArc(a: seq<nat>, m: nat, p: nat, q: nat, c: nat, t: int, x: int, y: int, inside: bool, i: nat)
    requires Shape(a, m, p, q) && q < p && i < |a| && Shr(i, q) == 2 * c
    requires c * Pow2(q + 1) <= x <= y <= c * Pow2(q + 1) + Pow2(q + 1) && ArcBlock(a, c, q + 1, t, x, y, inside)
    ensures var k := HalfClean(c * Pow2(q + 1), Pow2(q), x, y, inside);
            var r, j := Stage(a, m, p, q), i + Pow2(q);
            && j < |a| && k.x <= k.y
            && (var low, high := if Bit(i, p) then r[j] else r[i], if Bit(i, p) then r[i] else r[j];
                && (low > t) == (!k.cleanAnd && Arc(k.x, k.y, k.inside, i))
                && (high > t) == (!k.cleanAnd || Arc(k.x, k.y, k.inside, i)))
  {
    hide Shr, Bit, Xor, Shape, Stage, Arc, HalfClean, Partner;
    LowerHalf(i, q, c);
    CleanPair(a, m, p, q, c, t, i);
    var s := c * Pow2(q + 1);
    HalfCleanAt(s, Pow2(q), x, y, inside, i);
  }

  lemma UpperPartner(j: nat, q: nat, c: nat)
    requires Shr(j, q) == 2 * c + 1
    ensures j >= Pow2(q) && Shr(j - Pow2(q), q) == 2 * c
  {
    hide Shr, Bit, Xor;
    XorPow2(j, q);
    HalvesOf(c, q, j);
    PartnerFacts(j, q);
  }

  /** Arc of the lower half after the stage: the disjunction when descending, the conjunction when ascending. */
  lemma CleanLower(a: seq<nat>, m: nat, p: nat, q: nat, c: nat, t: int, down: bool, x: int, y: int, inside: bool)
    requires Shape(a, m, p, q) && q < p && (forall i: nat | Shr(i, q + 1) == c :: Bit(i, p) == down)
    requires c * Pow2(q + 1) <= x <= y <= c * Pow2(q + 1) + Pow2(q + 1) && ArcBlock(a, c, q + 1, t, x, y, inside)
    ensures var k := HalfClean(c * Pow2(q + 1), Pow2(q), x, y, inside); var r := Stage(a, m, p, q);
            if k.cleanAnd == down then ArcBlock(r, 2 * c, q, t, k.x, k.y, k.inside) else Uniform(r, 2 * c, q, t, down)
  {
    hide Shr, Bit, Xor, Shape, Stage, Arc, HalfClean, Partner, Pow2;
    var r := Stage(a, m, p, q);
    var k := HalfClean(c * Pow2(q + 1), Pow2(q), x, y, inside);
    forall i: nat | i < |r| && Shr(i, q) == 2 * c
      ensures (r[i] > t) == if k.cleanAnd == down then Arc(k.x, k.y, k.inside, i) else down
    {
      HalvesOf(c, q, i);
      CleanArc(a, m, p, q, c, t, x, y, inside, i);
    }
  }

  lemma CleanUpper(a: seq<nat>, m: nat, p: nat, q: nat, c: nat, t: int, down: bool, x: int, y: int, inside: bool)
    requires Shape(a, m, p, q) && q < p && (forall i: nat | Shr(i, q + 1) == c :: Bit(i, p) == down)
    requires c * Pow2(q + 1) <= x <= y <= c * Pow2(q + 1) + Pow2(q + 1) && ArcBlock(a, c, q + 1, t, x, y, inside)
    ensures var k := HalfClean(c * Pow2(q + 1), Pow2(q), x, y, inside); var r := Stage(a, m, p, q);
            if k.cleanAnd == down then Uniform(r, 2 * c + 1, q, t, !down)
            else ArcBlock(r, 2 * c + 1, q, t, k.x + Pow2(q), k.y + Pow2(q), k.inside)
  {
    hide Shr, Bit, Xor, Shape, Stage, HalfClean, Partner, Pow2;
    var r := Stage(a, m, p, q);
    var k := HalfClean(c * Pow2(q + 1), Pow2(q), x, y, inside);
    forall j: nat | j < |r| && Shr(j, q) == 2 * c + 1
      ensures (r[j] > t) == if k.cleanAnd == down then !down else Arc(k.x + Pow2(q), k.y + Pow2(q), k.inside, j)
    {
      UpperPartner(j, q, c);
      HalvesOf(c, q, j - Pow2(q));
      CleanArc(a, m, p, q, c, t, x, y, inside, j - Pow2(q));
    }
  }

  lemma CleanBlock(a: seq<nat>, m: nat, p: nat, q: nat, c: nat, t: int, down: bool)
    requires Shape(a, m, p, q) && q < p && (forall i: nat | Shr(i, q + 1) == c :: Bit(i, p) == down)
    requires BitonicAt(a, c, q + 1, t)
    ensures Split(Stage(a, m, p, q), c, q, t, down)
  {
    hide Shr, Bit, Xor, Shape, Stage, Arc, Partner, Pow2, ArcBlock, Uniform, HalfClean;
    var x, y, inside := Clip(a, c, q + 1, t);
    CleanLower(a, m, p, q, c, t, down, x, y, inside);
    CleanUpper(a, m, p, q, c, t, down, x, y, inside);
    CleanOrder(c * Pow2(q + 1), Pow2(q), x, y, inside);
    var r := Stage(a, m, p, q);
    var k := HalfClean(c * Pow2(q + 1), Pow2(q), x, y, inside);
    if k.cleanAnd == down {
      UniformIsBitonic(r, 2 * c + 1, q, t, !down);
    } else {
      UniformIsBitonic(r, 2 * c, q, t, down);
      assert k.x + Pow2(q) <= k.y + Pow2(q);
    }
  }

  lemma CleanOrder(s: int, w: int, x: int, y: int, inside: bool)
    requires x <= y
    ensures HalfClean(s, w, x, y, inside).x <= HalfClean(s, w, x, y, inside).y
  {
  }

  // ----- a phase: from bitonic blocks to sorted blocks -----

  /** Within a block of `2^p`, ascending where bit `p` is clear, descending where it is set. */
  ghost predicate InOrder(a: seq<nat>, p: nat, i: nat, j: nat)
    requires i < |a| && j < |a|
  {
    if Bit(i, p) then a[i] >= a[j] else a[i] <= a[j]
  }

  /** Phase `p` with stages `p - 1` down to `r` done: the sub-blocks of `2^r` are bitonic, and ordered among each other. */
  ghost predicate Merging(a: seq<nat>, p: nat, r: nat) {
    && (forall i: nat, t: int | i < |a| :: BitonicAt(a, Shr(i, r), r, t))
    && (forall i: nat, j: nat | i < |a| && j < |a| && Shr(i, p) == Shr(j, p) && Shr(i, r) < Shr(j, r) :: InOrder(a, p, i, j))
  }

  lemma SameDirection(i: nat, j: nat, r: nat, p: nat)
    requires r <= p && Shr(i, r) == Shr(j, r)
    ensures Shr(i, p) == Shr(j, p) && Bit(i, p) == Bit(j, p)
  {
    Coarser(i, j, r, p);
    Halving(i, p);
    Halving(j, p);
  }

  lemma StageSplits(a: seq<nat>, m: nat, p: nat, q: nat, i: nat, t: int)
    requires Shape(a, m, p, q) && q < p && Merging(a, p, q + 1) && i < |a|
    ensures Split(Stage(a, m, p, q), Shr(i, q + 1), q, t, Bit(i, p))
  {
    hide Shr, Bit, Shape, Stage, Split, BitonicAt;
    forall j: nat | Shr(j, q + 1) == Shr(i, q + 1)
      ensures Bit(j, p) == Bit(i, p)
    {
      SameDirection(j, i, q + 1, p);
    }
    CleanBlock(a, m, p, q, Shr(i, q + 1), t, Bit(i, p));
  }

  lemma StageBitonic(a: seq<nat>, m: nat, p: nat, q: nat, i: nat, t: int)
    requires Shape(a, m, p, q) && q < p && Merging(a, p, q + 1) && i < |a|
    ensures BitonicAt(Stage(a, m, p, q), Shr(i, q), q, t)
  {
    hide Shr, Bit, Shape, Stage, BitonicAt, Merging, Uniform;
    StageSplits(a, m, p, q, i, t);
    Halving(i, q);
  }

  /** Order between the two halves of one block. */
  lemma StageOrdersHalves(a: seq<nat>, m: nat, p: nat, q: nat, i: nat, j: nat)
    requires Shape(a, m, p, q) && q < p && Merging(a, p, q + 1) && i < |a| && j < |a|
    requires Shr(i, q + 1) == Shr(j, q + 1) && Shr(i, q) < Shr(j, q)
    ensures InOrder(Stage(a, m, p, q), p, i, j)
  {
    hide Shr, Bit, Shape, Stage, BitonicAt, Merging;
    var r := Stage(a, m, p, q);
    Halving(i, q);
    Halving(j, q);
    if Bit(i, p) {
      StageSplits(a, m, p, q, i, r[i]);
    } else {
      StageSplits(a, m, p, q, i, r[j]);
    }
  }

  /** Order between blocks that were already in order: the stage moves values within blocks only. */
  lemma StageKeepsOrder(a: seq<nat>, m: nat, p: nat, q: nat, i: nat, j: nat)
    requires Shape(a, m, p, q) && q < p && Merging(a, p, q + 1) && i < |a| && j < |a|
    requires Shr(i, p) == Shr(j, p) && Shr(i, q + 1) < Shr(j, q + 1)
    ensures InOrder(Stage(a, m, p, q), p, i, j)
  {
    hide Shr, Bit, Shape, BitonicAt, Stage, Partner;
    var r := Stage(a, m, p, q);
    var i', j' := Partner(i, q), Partner(j, q);
    assert i' < |a| && j' < |a| && r[i] == StageAt(a, p, q, i) && r[j] == StageAt(a, p, q, j);
    PartnerFacts(i, q);
    PartnerFacts(j, q);
    PartnerCoarser(i, q, p);
    PartnerCoarser(j, q, p);
    assert InOrder(a, p, i, j) && InOrder(a, p, i', j) && InOrder(a, p, i, j') && InOrder(a, p, i', j');
  }

  lemma StageMerges(a: seq<nat>, m: nat, p: nat, q: nat)
    requires Shape(a, m, p, q) && q < p && Merging(a, p, q + 1)
    ensures Merging(Stage(a, m, p, q), p, q)
  {
    hide Shr, Bit, Shape, BitonicAt, Stage, InOrder;
    var r := Stage(a, m, p, q);
    forall i: nat, t: int | i < |r|
      ensures BitonicAt(r, Shr(i, q), q, t)
    {
      StageBitonic(a, m, p, q, i, t);
    }
    forall i: nat, j: nat | i < |r| && j < |r| && Shr(i, p) == Shr(j, p) && Shr(i, q) < Shr(j, q)
      ensures InOrder(r, p, i, j)
    {
      Halving(i, q);
      Halving(j, q);
      if Shr(i, q + 1) == Shr(j, q + 1) {
        StageOrdersHalves(a, m, p, q, i, j);
      } else {
        StageKeepsOrder(a, m, p, q, i, j);
      }
    }
  }

  // ----- from phase to phase -----

  lemma CutUp(a: seq<nat>, lo: nat, hi: nat, t: int) returns (x: nat)
    requires lo <= hi <= |a| && (forall i: nat, j: nat | lo <= i < j < hi :: a[i] <= a[j])
    ensures lo <= x <= hi && forall i: nat | lo <= i < hi :: (a[i] > t) == (x <= i)
  {
    x := lo;
    while x < hi && a[x] <= t
      invariant lo <= x <= hi && forall i | lo <= i < x :: a[i] <= t
    {
      x := x + 1;
    }
  }

  lemma CutDown(a: seq<nat>, lo: nat, hi: nat, t: int) returns (y: nat)
    requires lo <= hi <= |a| && (forall i: nat, j: nat | lo <= i < j < hi :: a[i] >= a[j])
    ensures lo <= y <= hi && forall i: nat | lo <= i < hi :: (a[i] > t) == (i < y)
  {
    y := lo;
    while y < hi && a[y] > t
      invariant lo <= y <= hi && forall i | lo <= i < y :: a[i] > t
    {
      y := y + 1;
    }
  }

  lemma ShrZero(i: nat)
    ensures Shr(i, 0) == i
  {
  }

  /** Where the two halves of block `c` lie. */
  lemma HalvesAt(c: nat, p: nat, k: nat)
    ensures var s, w := c * Pow2(p + 1), Pow2(p);
            && (s <= k < s + w ==> Shr(k, p) == 2 * c && Shr(k, p + 1) == c && !Bit(k, p))
            && (s + w <= k < s + 2 * w ==> Shr(k, p) == 2 * c + 1 && Shr(k, p + 1) == c && Bit(k, p))
            && (Shr(k, p + 1) == c ==> s <= k < s + 2 * w)
  {
    hide Shr, Bit;
    var s, w := c * Pow2(p + 1), Pow2(p);
    assert s == 2 * c * w && s + w == (2 * c + 1) * w;
    if s <= k < s + w { BlockOf(k, p, 2 * c); }
    if s + w <= k < s + 2 * w { BlockOf(k, p, 2 * c + 1); }
    HalvesOf(c, p, k);
    InBlock(k, p + 1);
  }

  lemma BlockFits(i: nat, p: nat, m: nat)
    requires p < m && i < Pow2(m)
    ensures Shr(i, p + 1) * Pow2(p + 1) + 2 * Pow2(p) <= Pow2(m)
  {
    hide Shr, Bit;
    var c := Shr(i, p + 1);
    var last := c * Pow2(p + 1) + 2 * Pow2(p) - 1;
    HalvesAt(c, p, last);
    Coarser(last, i, p + 1, m);
    InRange(i, m);
    InRange(last, m);
  }

  /** An ascending block followed by a descending one is bitonic. */
  lemma HalvesBitonic(a: seq<nat>, m: nat, p: nat, i: nat, t: int)
    requires |a| == Pow2(m) && p < m && Merging(a, p, 0) && i < |a|
    ensures BitonicAt(a, Shr(i, p + 1), p + 1, t)
  {
    hide Shr, Bit, Pow2, BitonicAt;
    BlockFits(i, p, m);
    var c := Shr(i, p + 1);
    var s, w := c * Pow2(p + 1), Pow2(p);
    forall k: nat, l: nat | s <= k < l < s + w ensures a[k] <= a[l] {
      SortedPair(a, p, c, k, l);
    }
    forall k: nat, l: nat | s + w <= k < l < s + 2 * w ensures a[k] >= a[l] {
      SortedPair(a, p, c, k, l);
    }
    var x := CutUp(a, s, s + w, t);
    var y := CutDown(a, s + w, s + 2 * w, t);
    forall k: nat | k < |a| && Shr(k, p + 1) == c ensures (a[k] > t) == Arc(x, y, true, k) {
      HalvesAt(c, p, k);
    }
    BitonicIntro(a, c, p + 1, t, x, y, true);
  }

  lemma BitonicIntro(a: seq<nat>, c: nat, r: nat, t: int, x: int, y: int, inside: bool)
    requires x <= y && (forall k: nat | k < |a| && Shr(k, r) == c :: (a[k] > t) == Arc(x, y, inside, k))
    ensures BitonicAt(a, c, r, t)
  {
    hide Shr;
    assert ArcBlock(a, c, r, t, x, y, inside);
  }

  lemma SortedPair(a: seq<nat>, p: nat, c: nat, k: nat, l: nat)
    requires Merging(a, p, 0) && k < l < |a|
    ensures var s, w := c * Pow2(p + 1), Pow2(p);
            (s <= k && l < s + w ==> a[k] <= a[l]) && (s + w <= k && l < s + 2 * w ==> a[k] >= a[l])
  {
    hide Shr, Bit, Pow2, BitonicAt;
    HalvesAt(c, p, k);
    HalvesAt(c, p, l);
    ShrZero(k);
    ShrZero(l);
    assert Shr(k, p) == Shr(l, p) ==> InOrder(a, p, k, l);
  }

  lemma FirstPhase(a: seq<nat>)
    ensures Merging(a, 0, 0)
  {
    forall i: nat, t: int | i < |a| ensures BitonicAt(a, Shr(i, 0), 0, t) {
      assert Uniform(a, i, 0, t, a[i] > t);
      UniformIsBitonic(a, i, 0, t, a[i] > t);
    }
  }

  lemma NextPhase(a: seq<nat>, m: nat, p: nat)
    requires |a| == Pow2(m) && p < m && Merging(a, p, 0)
    ensures Merging(a, p + 1, p + 1)
  {
    hide Shr, Bit, Pow2, BitonicAt, InOrder;
    var r := p + 1;
    forall i: nat, t: int | i < |a| ensures BitonicAt(a, Shr(i, r), r, t) {
      HalvesBitonic(a, m, p, i, t);
    }
  }

  ghost predicate Ascending(a: seq<nat>) {
    forall i, j | 0 <= i < j < |a| :: a[i] <= a[j]
  }

  lemma LastPhase(a: seq<nat>, m: nat)
    requires |a| == Pow2(m) && Merging(a, m, 0)
    ensures Ascending(a)
  {
    hide Shr, Bit, Pow2, BitonicAt;
    forall i: nat, j: nat | i < j < |a| ensures a[i] <= a[j] {
      InRange(i, m);
      InRange(j, m);
      Halving(i, m);
      ShrZero(i);
      ShrZero(j);
      assert InOrder(a, m, i, j);
    }
  }

  // ----- the loop itself -----

  lemma SwapKeepsPermutation(perm: seq<nat>, i: nat, j: nat)
    requires IsPermutation(perm) && i < |perm| && j < |perm|
    ensures IsPermutation(perm[i := perm[j]][j := perm[i]])
  {
    var r := perm[i := perm[j]][j := perm[i]];
    forall x | 0 <= x < |perm| ensures x in r {
      assert x in perm;
      var a :| 0 <= a < |perm| && perm[a] == x;
      assert r[if a == i then j else if a == j then i else a] == x;
    }
  }

  /** Lower index of the pair of `i`. */
  function Lower(i: nat, q: nat): nat {
    if Bit(i, q) then Partner(i, q) else i
  }

  /** `a` with the pairs of the indices handled so far compared and exchanged. */
  ghost predicate Partial(a: seq<nat>, cur: seq<nat>, m: nat, p: nat, q: nat, handled: seq<nat>)
    requires Shape(a, m, p, q)
  {
    && |cur| == |a|
    && forall i | 0 <= i < |a| :: cur[i] == if Lower(i, q) in handled then Stage(a, m, p, q)[i] else a[i]
  }

  /** One compare-exchange, by whichever thread owns `ix`. */
  function Exchanged(a: seq<nat>, p: nat, q: nat, ix: nat): (r: seq<nat>)
    requires ix < |a| && Partner(ix, q) < |a|
    ensures |r| == |a|
  {
    var ixj := Partner(ix, q);
    if Bit(ix, q) then a
    else if Bit(ix, p) then a[ix := Max(a[ix], a[ixj])][ixj := Min(a[ix], a[ixj])]
    else a[ix := Min(a[ix], a[ixj])][ixj := Max(a[ix], a[ixj])]
  }

  lemma PartialNext(a: seq<nat>, cur: seq<nat>, m: nat, p: nat, q: nat, handled: seq<nat>, ix: nat)
    requires Shape(a, m, p, q) && q < p && Partial(a, cur, m, p, q, handled)
    requires ix < |a| && ix !in handled && Partner(ix, q) < |cur|
    ensures Partial(a, Exchanged(cur, p, q, ix), m, p, q, handled + [ix])
  {
    hide Shr, Bit, Xor, Pow2, Shape, Stage;
    var ixj, r := Partner(ix, q), Exchanged(cur, p, q, ix);
    PartnerFacts(ix, q);
    PartnerCoarser(ix, q, p);
    forall i | 0 <= i < |a|
      ensures r[i] == if Lower(i, q) in handled + [ix] then Stage(a, m, p, q)[i] else a[i]
    {
      PartnerFacts(i, q);
      assert Lower(i, q) in handled + [ix] <==> Lower(i, q) in handled || Lower(i, q) == ix;
    }
  }

  lemma PartialStart(a: seq<nat>, m: nat, p: nat, q: nat)
    requires Shape(a, m, p, q)
    ensures Partial(a, a, m, p, q, [])
  {
  }

  lemma PartialEnd(a: seq<nat>, cur: seq<nat>, m: nat, p: nat, q: nat, handled: seq<nat>)
    requires Shape(a, m, p, q) && q < p && Partial(a, cur, m, p, q, handled)
    requires IsPermutation(handled) && |handled| == |a|
    ensures cur == Stage(a, m, p, q)
  {
    hide Shr, Bit, Xor, Pow2, Shape, Stage;
    var r := Stage(a, m, p, q);
    forall i | 0 <= i < |a| ensures cur[i] == r[i] {
      assert Partner(i, q) < |a| && r[i] == StageAt(a, p, q, i);
      assert Lower(i, q) in handled;
    }
  }

  /** What the array holds, as a rearrangement of what it held at the start. */
  ghost predicate Rearranged(a0: seq<nat>, perm: seq<nat>, a: seq<nat>) {
    IsPermutation(perm) && |perm| == |a0| && a == Gather(a0, perm)
  }

  /** The body of the inner loop for one index, as each thread runs it. */
  method CompareExchange(keys: array<nat>, ix: nat, k: nat, j: nat, ghost m: nat, ghost p: nat, ghost q: nat,
                         ghost a0: seq<nat>, ghost perm: seq<nat>)
    returns (ghost perm': seq<nat>)
    requires keys.Length == Pow2(m) && q < p <= m && k == Pow2(p) && j == Pow2(q)
    requires ix < keys.Length && Partner(ix, q) < keys.Length && Rearranged(a0, perm, keys[..])
    modifies keys
    ensures keys[..] == Exchanged(old(keys[..]), p, q, ix) && Rearranged(a0, perm', keys[..])
  {
    hide Xor, And, Bit, Shr, Pow2, IsPermutation, Exchanged;
    PartnerFacts(ix, q);
    AndPow2(ix, p);
    ghost var before := keys[..];
    perm' := perm;
    var ixj := Xor(ix, j);
    if ixj > ix {
      var up := And(ix, k) == 0;
      var a, b := keys[ix], keys[ixj];
      if (a > b) == up {
        keys[ix] := b;
        keys[ixj] := a;
        SwapKeepsPermutation(perm, ix, ixj);
        perm' := perm[ix := perm[ixj]][ixj := perm[ix]];
        assert keys[..] == before[ix := b][ixj := a];
      }
      ExchangedValue(before, keys[..], p, q, ix, ixj);
    } else {
      ExchangedNone(before, p, q, ix);
    }
  }

  lemma ExchangedNone(a: seq<nat>, p: nat, q: nat, ix: nat)
    requires ix < |a| && Partner(ix, q) < |a| && Bit(ix, q)
    ensures Exchanged(a, p, q, ix) == a
  {
  }

  lemma ExchangedValue(a: seq<nat>, r: seq<nat>, p: nat, q: nat, ix: nat, ixj: nat)
    requires ix < |a| && ixj == Partner(ix, q) < |a| && !Bit(ix, q) && ix < ixj
    requires r == if (a[ix] > a[ixj]) == !Bit(ix, p) then a[ix := a[ixj]][ixj := a[ix]] else a
    ensures r == Exchanged(a, p, q, ix)
  {
  }

  /** One stage: every index is handled by exactly one thread, in any order. */
  method BitonicStage(keys: array<nat>, k: nat, j: nat, order: seq<nat>, ghost m: nat, ghost p: nat, ghost q: nat,
                      ghost a0: seq<nat>, ghost perm: seq<nat>)
    returns (ghost perm': seq<nat>)
    requires keys.Length == Pow2(m) && q < p <= m && k == Pow2(p) && j == Pow2(q)
    requires IsPermutation(order) && |order| == keys.Length && Rearranged(a0, perm, keys[..])
    modifies keys
    ensures keys[..] == Stage(old(keys[..]), m, p, q) && Rearranged(a0, perm', keys[..])
  {
    hide Xor, And, Bit, Shr, Pow2, Stage, Exchanged, Partial, Rearranged;
    ghost var a: seq<nat> := keys[..];
    PartnersInRange(q, m);
    PartialStart(a, m, p, q);
    perm' := perm;
    for z := 0 to |order|
      invariant Partial(a, keys[..], m, p, q, order[..z]) && Rearranged(a0, perm', keys[..])
    {
      PartialNext(a, keys[..], m, p, q, order[..z], order[z]);
      perm' := CompareExchange(keys, order[z], k, j, m, p, q, a0, perm');
      assert order[..z + 1] == order[..z] + [order[z]];
    }
    assert order[..|order|] == order;
    PartialEnd(a, keys[..], m, p, q, order);
  }

  /** `io_sched_bitonic_sort` for `2^m` keys; `orders` says in which order the threads get to
      their pairs between two barriers. */
  method BitonicSort(keys: array<nat>, m: nat, orders: (nat, nat) -> seq<nat>) returns (ghost perm: seq<nat>)
    requires keys.Length == Pow2(m)
    requires forall k, j :: IsPermutation(orders(k, j)) && |orders(k, j)| == Pow2(m)
    modifies keys
    ensures Ascending(keys[..]) && Rearranged(old(keys[..]), perm, keys[..])
  {
    hide Xor, And, Bit, Shr, Stage, Rearranged, Merging, IsPermutation, Ascending;
    ghost var a0: seq<nat> := keys[..];
    perm := Identity(keys.Length);
    RearrangedStart(a0);
    FirstPhase(a0);
    var k := 2;
    ghost var p := 0;
    while k <= keys.Length
      invariant p <= m && k == Pow2(p + 1)
      invariant Merging(keys[..], p, 0) && Rearranged(a0, perm, keys[..])
      decreases m - p
    {
      PhaseBound(p + 1, m);
      NextPhase(keys[..], m, p);
      p := p + 1;
      var j := k / 2;
      ghost var r: nat := p;
      while j > 0
        invariant r <= p && (if r == 0 then j == 0 else j == Pow2(r - 1))
        invariant Merging(keys[..], p, r) && Rearranged(a0, perm, keys[..])
        decreases r
      {
        StageMerges(keys[..], m, p, r - 1);
        perm := BitonicStage(keys, k, j, orders(k, j), m, p, r - 1, a0, perm);
        j := j / 2;
        r := r - 1;
      }
      k := k * 2;
    }
    PhaseBound(p + 1, m);
    LastPhase(keys[..], m);
  }

  lemma RearrangedStart(a: seq<nat>)
    ensures Rearranged(a, Identity(|a|), a)
  {
    StartsInOrder(a);
  }

  lemma PhaseBound(p: nat, m: nat)
    ensures Pow2(p) <= Pow2(m) <==> p <= m
  {
    if p < m { Pow2Monotone(p, m); }
    if m < p { Pow2Monotone(m, p); }
  }
}

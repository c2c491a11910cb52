// Counting sort, as mathematics: where a stable counting sort puts each element of
// a sequence of digits, and what least-significant-digit-first passes add up to.
module StableCount {
  import opened Bits

  /** The number of occurrences of `d` among the first `i` digits. */
  function Count(ds: seq<nat>, d: nat, i: nat): nat
    requires i <= |ds|
  {
    if i == 0 then 0 else Count(ds, d, i - 1) + (if ds[i - 1] == d then 1 else 0)
  }

  /** The number of digits smaller than `d`: where bucket `d` starts. */
  function Base(ds: seq<nat>, d: nat): nat {
    if d == 0 then 0 else Base(ds, d - 1) + Count(ds, d - 1, |ds|)
  }

  /** The output position of element `i`. */
  function Pos(ds: seq<nat>, i: nat): nat
    requires i < |ds|
  {
    Base(ds, ds[i]) + Count(ds, ds[i], i)
  }

  lemma {:induction false} CountMonotone(ds: seq<nat>, d: nat, i: nat, j: nat)
    requires i <= j <= |ds|
    ensures Count(ds, d, i) <= Count(ds, d, j)
    ensures i < j && ds[i] == d ==> Count(ds, d, i) < Count(ds, d, j)
  {
    if i < j { CountMonotone(ds, d, i, j - 1); }
  }

  lemma {:induction false} BaseMonotone(ds: seq<nat>, d: nat, e: nat)
    requires d < e
    ensures Base(ds, d) + Count(ds, d, |ds|) <= Base(ds, e)
  {
    if d + 1 < e { BaseMonotone(ds, d, e - 1); }
  }

  /** The digits below `bound` among the first `i`. */
  function CountBelow(ds: seq<nat>, bound: nat, i: nat): nat
    requires i <= |ds|
  {
    if i == 0 then 0 else CountBelow(ds, bound, i - 1) + (if ds[i - 1] < bound then 1 else 0)
  }

  lemma {:induction false} CountBelowStep(ds: seq<nat>, bound: nat, i: nat)
    requires i <= |ds| && bound > 0
    ensures CountBelow(ds, bound, i) == CountBelow(ds, bound - 1, i) + Count(ds, bound - 1, i)
  {
    if i > 0 { CountBelowStep(ds, bound, i - 1); }
  }

  lemma {:induction false} CountBelowEnds(ds: seq<nat>, bound: nat, i: nat)
    requires i <= |ds|
    ensures CountBelow(ds, 0, i) == 0
    ensures (forall k | 0 <= k < |ds| :: ds[k] < bound) ==> CountBelow(ds, bound, i) == i
  {
    if i > 0 { CountBelowEnds(ds, bound, i - 1); }
  }

  lemma {:induction false} BaseIsCountBelow(ds: seq<nat>, d: nat)
    ensures Base(ds, d) == CountBelow(ds, d, |ds|)
  {
    if d == 0 {
      CountBelowEnds(ds, 0, |ds|);
    } else {
      BaseIsCountBelow(ds, d - 1);
      CountBelowStep(ds, d, |ds|);
    }
  }

  ghost predicate DigitsBelow(ds: seq<nat>, radix: nat) {
    forall k | 0 <= k < |ds| :: ds[k] < radix
  }

  lemma BaseTotal(ds: seq<nat>, radix: nat)
    requires DigitsBelow(ds, radix)
    ensures Base(ds, radix) == |ds|
  {
    BaseIsCountBelow(ds, radix);
    CountBelowEnds(ds, radix, |ds|);
  }

  lemma PosBound(ds: seq<nat>, radix: nat, i: nat)
    requires DigitsBelow(ds, radix) && i < |ds|
    ensures Pos(ds, i) < |ds|
  {
    CountMonotone(ds, ds[i], i, |ds|);
    BaseMonotone(ds, ds[i], radix);
    BaseTotal(ds, radix);
  }

  ghost predicate Before(ds: seq<nat>, i: nat, j: nat)
    requires i < |ds| && j < |ds|
  {
    ds[i] < ds[j] || (ds[i] == ds[j] && i < j)
  }

  lemma PosOrder(ds: seq<nat>, i: nat, j: nat)
    requires i < |ds| && j < |ds|
    ensures Before(ds, i, j) <==> Pos(ds, i) < Pos(ds, j)
    ensures i == j <==> Pos(ds, i) == Pos(ds, j)
  {
    if ds[i] == ds[j] {
      if i < j {
        CountMonotone(ds, ds[i], i, j);
      } else if j < i {
        CountMonotone(ds, ds[i], j, i);
      }
    } else if ds[i] < ds[j] {
      CountMonotone(ds, ds[i], i, |ds|);
      BaseMonotone(ds, ds[i], ds[j]);
    } else {
      CountMonotone(ds, ds[j], j, |ds|);
      BaseMonotone(ds, ds[j], ds[i]);
    }
  }

  // ----- every output position is filled -----

  function BucketOf(ds: seq<nat>, p: nat, d: nat): (r: nat)
    requires p < Base(ds, d)
    ensures r < d && Base(ds, r) <= p < Base(ds, r) + Count(ds, r, |ds|)
  {
    if Base(ds, d - 1) <= p then d - 1 else BucketOf(ds, p, d - 1)
  }

  function NthOf(ds: seq<nat>, d: nat, c: nat, i: nat): (r: nat)
    requires i <= |ds| && c < Count(ds, d, i)
    ensures r < i && ds[r] == d && Count(ds, d, r) == c
  {
    if Count(ds, d, i - 1) == c && ds[i - 1] == d then i - 1 else NthOf(ds, d, c, i - 1)
  }

  /** The element that lands at output position `p`. */
  function Origin(ds: seq<nat>, radix: nat, p: nat): (i: nat)
    requires DigitsBelow(ds, radix) && p < |ds|
    ensures i < |ds| && Pos(ds, i) == p
  {
    BaseTotal(ds, radix);
    var d := BucketOf(ds, p, radix);
    NthOf(ds, d, p - Base(ds, d), |ds|)
  }

  /** The result of one stable pass over `s`, whose digits are `ds`. */
  function StablePass<T>(s: seq<T>, ds: seq<nat>, radix: nat): (r: seq<T>)
    requires |s| == |ds| && DigitsBelow(ds, radix)
    ensures |r| == |s|
  {
    seq(|s|, p requires 0 <= p < |s| => s[Origin(ds, radix, p)])
  }

  /** Writing element `i` to position `Pos(i)` for every `i` is the stable pass. */
  lemma ScatterIsStablePass<T>(s: seq<T>, ds: seq<nat>, radix: nat, out: seq<T>)
    requires |s| == |ds| == |out| && DigitsBelow(ds, radix)
    requires forall i | 0 <= i < |s| :: Pos(ds, i) < |s| && out[Pos(ds, i)] == s[i]
    ensures out == StablePass(s, ds, radix)
  {
    forall p | 0 <= p < |out|
      ensures out[p] == s[Origin(ds, radix, p)]
    {
      var i := Origin(ds, radix, p);
      assert Pos(ds, i) == p;
    }
  }

  // ----- least significant digit first -----

  function Digit(key: nat, pass: nat): (d: nat)
    ensures d < 256
  {
    Shr(key, 8 * pass) % 256
  }

  function Digits(keys: seq<nat>, pass: nat): (ds: seq<nat>)
    ensures |ds| == |keys| && DigitsBelow(ds, 256)
    ensures forall i | 0 <= i < |keys| :: ds[i] == Digit(keys[i], pass)
  {
    seq(|keys|, i requires 0 <= i < |keys| => Digit(keys[i], pass))
  }

  /** The value of the lowest `passes` bytes of a key. */
  function Low(key: nat, passes: nat): nat {
    if passes == 0 then 0 else Digit(key, passes - 1) * Pow2(8 * (passes - 1)) + Low(key, passes - 1)
  }

  lemma {:induction false} LowIsRemainder(key: nat, passes: nat)
    ensures Low(key, passes) == key % Pow2(8 * passes)
  {
    if passes > 0 {
      var p := passes - 1;
      LowIsRemainder(key, p);
      var m := Pow2(8 * p);
      ShrIsDiv(key, 8 * p);
      Pow2Add(8, 8 * p);
      assert Pow2(8) == 256;
      SplitByte(key, m);
    }
  }

  lemma SplitByte(key: nat, m: nat)
    requires m > 0
    ensures key % (256 * m) == (key / m % 256) * m + key % m
  {
    var q, r := key / m, key % m;
    var h, d := q / 256, q % 256;
    assert q == h * 256 + d;
    assert key == q * m + r;
    assert q * m == h * (256 * m) + d * m;
    MulMonotone(d, 255, m);
    DivModUnique(key, 256 * m, h, d * m + r);
  }

  ghost predicate IsPermutation(perm: seq<nat>) {
    && (forall a | 0 <= a < |perm| :: perm[a] < |perm|)
    && (forall a, b | 0 <= a < b < |perm| :: perm[a] != perm[b])
    && (forall i | 0 <= i < |perm| :: i in perm)
  }

  ghost predicate KeyBefore(keys: seq<nat>, passes: nat, i: nat, j: nat)
    requires i < |keys| && j < |keys|
  {
    Low(keys[i], passes) < Low(keys[j], passes) || (Low(keys[i], passes) == Low(keys[j], passes) && i < j)
  }

  /** `perm` lists the elements of `keys` in ascending order of their lowest
      `passes` bytes, equal ones in their original order: the stable sort. */
  ghost predicate StableOrder(keys: seq<nat>, passes: nat, perm: seq<nat>) {
    && |perm| == |keys| && IsPermutation(perm)
    && (forall a, b | 0 <= a < b < |perm| :: KeyBefore(keys, passes, perm[a], perm[b]))
  }

  function Gather<T>(s: seq<T>, perm: seq<nat>): (r: seq<T>)
    requires forall a | 0 <= a < |perm| :: perm[a] < |s|
    ensures |r| == |perm| && forall a | 0 <= a < |perm| :: r[a] == s[perm[a]]
  {
    seq(|perm|, a requires 0 <= a < |perm| => s[perm[a]])
  }

  function Identity(n: nat): (perm: seq<nat>)
    ensures |perm| == n && forall i | 0 <= i < n :: perm[i] == i
  {
    seq(n, i => i)
  }

  ghost predicate Ascends(s: seq<nat>) {
    forall a, b | 0 <= a < b < |s| :: s[a] <= s[b]
  }

  /** The low bytes the passes look at order any two keys as the whole keys do. */
  ghost predicate LowBytesDecide(keys: seq<nat>, passes: nat) {
    forall i, j | 0 <= i < |keys| && 0 <= j < |keys| && KeyBefore(keys, passes, i, j) :: keys[i] <= keys[j]
  }

  /** The stable order of the low bytes makes the keys ascend exactly when those bytes decide. */
  lemma AscendsIff(keys: seq<nat>, passes: nat, perm: seq<nat>)
    requires StableOrder(keys, passes, perm)
    ensures Ascends(Gather(keys, perm)) <==> LowBytesDecide(keys, passes)
  {
    hide Low;
    if Ascends(Gather(keys, perm)) {
      forall i, j | 0 <= i < |keys| && 0 <= j < |keys| && KeyBefore(keys, passes, i, j) ensures keys[i] <= keys[j] {
        var a := PlaceOf(perm, i);
        var b := PlaceOf(perm, j);
        if b < a { assert false; }
      }
    }
  }

  lemma PlaceOf(perm: seq<nat>, i: nat) returns (a: nat)
    requires IsPermutation(perm) && i < |perm|
    ensures a < |perm| && perm[a] == i
  {
    assert i in perm;
    a :| 0 <= a < |perm| && perm[a] == i;
  }

  lemma StartsInOrder(keys: seq<nat>)
    ensures StableOrder(keys, 0, Identity(|keys|))
    ensures Gather(keys, Identity(|keys|)) == keys
  {
    var perm := Identity(|keys|);
    forall i | 0 <= i < |perm| ensures i in perm {
      assert perm[i] == i;
    }
  }

  lemma PassKeepsPermutation(perm: seq<nat>, ds: seq<nat>)
    requires IsPermutation(perm) && |ds| == |perm| && DigitsBelow(ds, 256)
    ensures IsPermutation(StablePass(perm, ds, 256))
  {
    var out := StablePass(perm, ds, 256);
    forall a, b | 0 <= a < b < |out|
      ensures out[a] != out[b]
    {
      var i, j := Origin(ds, 256, a), Origin(ds, 256, b);
      assert i != j;
    }
    forall x | 0 <= x < |out|
      ensures x in out
    {
      assert x in perm;
      var i :| 0 <= i < |perm| && perm[i] == x;
      PosBound(ds, 256, i);
      var p := Pos(ds, i);
      PosOrder(ds, i, Origin(ds, 256, p));
      assert out[p] == x;
    }
  }

  /** One more pass refines the order by one more byte. */
  lemma PassRefinesOrder(keys: seq<nat>, passes: nat, perm: seq<nat>)
    requires StableOrder(keys, passes, perm)
    ensures StableOrder(keys, passes + 1, StablePass(perm, Digits(Gather(keys, perm), passes), 256))
  {
    var ds := Digits(Gather(keys, perm), passes);
    PassKeepsPermutation(perm, ds);
    var out := StablePass(perm, ds, 256);
    forall a, b | 0 <= a < b < |out|
      ensures KeyBefore(keys, passes + 1, out[a], out[b])
    {
      var i, j := Origin(ds, 256, a), Origin(ds, 256, b);
      PosOrder(ds, i, j);
      assert out[a] == perm[i] && out[b] == perm[j];
      if ds[i] == ds[j] {
        assert KeyBefore(keys, passes, perm[i], perm[j]);
      }
      NextByte(keys, passes, perm[i], perm[j]);
    }
  }

  lemma NextByte(keys: seq<nat>, passes: nat, i: nat, j: nat)
    requires i < |keys| && j < |keys|
    requires Digit(keys[i], passes) <= Digit(keys[j], passes)
    requires Digit(keys[i], passes) == Digit(keys[j], passes) ==> KeyBefore(keys, passes, i, j)
    ensures KeyBefore(keys, passes + 1, i, j)
  {
    var m, d, e := Pow2(8 * passes), Digit(keys[i], passes), Digit(keys[j], passes);
    assert Low(keys[i], passes + 1) == d * m + Low(keys[i], passes);
    assert Low(keys[j], passes + 1) == e * m + Low(keys[j], passes);
    LowBound(keys[i], passes);
    hide Low, Digit, Pow2;
    if d < e {
      MulMonotone(d + 1, e, m);
      assert (d + 1) * m == d * m + m;
    }
  }

  lemma LowBound(key: nat, passes: nat)
    ensures Low(key, passes) < Pow2(8 * passes)
  {
    LowIsRemainder(key, passes);
  }

  /** There is only one stable order, so two sorts that both produce it agree. */
  lemma StableOrderUnique(keys: seq<nat>, passes: nat, p: seq<nat>, q: seq<nat>)
    requires StableOrder(keys, passes, p) && StableOrder(keys, passes, q)
    ensures p == q
  {
    if p != q {
      var k := FirstDifference(p, q);
      // q[k] sits later in p, and p[k] sits later in q: both orders cannot hold
      var a := LaterOccurrence(p, q, k);
      var b := LaterOccurrence(q, p, k);
      NotBoth(keys, passes, p[k], p[a]);
    }
  }

  lemma NotBoth(keys: seq<nat>, passes: nat, i: nat, j: nat)
    requires i < |keys| && j < |keys| && KeyBefore(keys, passes, i, j)
    ensures !KeyBefore(keys, passes, j, i)
  {
    hide Low;
  }

  lemma FirstDifference(p: seq<nat>, q: seq<nat>) returns (k: nat)
    requires |p| == |q| && p != q
    ensures k < |p| && p[k] != q[k] && p[..k] == q[..k]
  {
    assert p[..|p|] == p && q[..|q|] == q;
    k := 0;
    while k < |p| && p[k] == q[k]
      invariant k <= |p| && p[..k] == q[..k]
    {
      k := k + 1;
    }
  }

  lemma LaterOccurrence(p: seq<nat>, q: seq<nat>, k: nat) returns (a: nat)
    requires |p| == |q| && k < |p| && p[k] != q[k] && p[..k] == q[..k]
    requires IsPermutation(p) && IsPermutation(q)
    ensures k < a < |p| && p[a] == q[k]
  {
    assert q[k] in p;
    a :| 0 <= a < |p| && p[a] == q[k];
    assert forall c | 0 <= c < k :: p[c] == p[..k][c] == q[..k][c] == q[c];
  }
}

// What commands and requests do to the SSD: block writes, their composition, and
// which reorderings leave the final contents alone.
module Disk {
  import opened StableCount

  type Block = nat

  /** Contents of the logical blocks that hold defined data. */
  type Contents = map<nat, Block>

  /** `blocks[i]` goes to logical block `lba + i`. */
  datatype Write = Write(lba: nat, blocks: seq<Block>)

  predicate Covers(w: Write, x: nat) {
    w.lba <= x < w.lba + |w.blocks|
  }

  ghost predicate Overlap(v: Write, w: Write) {
    exists x: nat :: Covers(v, x) && Covers(w, x)
  }

  function Apply(disk: Contents, w: Write): Contents {
    disk + map x: nat | w.lba <= x < w.lba + |w.blocks| && Covers(w, x) :: w.blocks[x - w.lba]
  }

  function ApplyAll(disk: Contents, ws: seq<Write>): Contents {
    if ws == [] then disk else Apply(ApplyAll(disk, ws[..|ws| - 1]), ws[|ws| - 1])
  }

  lemma {:induction false} ApplyAppend(disk: Contents, xs: seq<Write>, ys: seq<Write>)
    ensures ApplyAll(disk, xs + ys) == ApplyAll(ApplyAll(disk, xs), ys)
  {
    hide Apply;
    if ys == [] {
      assert xs + ys == xs;
    } else {
      ApplyAppend(disk, xs, ys[..|ys| - 1]);
      assert (xs + ys)[..|xs + ys| - 1] == xs + ys[..|ys| - 1];
    }
  }

  /** A long write is its first part followed by its second part. */
  lemma SplitWrite(disk: Contents, lba: nat, xs: seq<Block>, ys: seq<Block>)
    ensures Apply(disk, Write(lba, xs + ys)) == Apply(Apply(disk, Write(lba, xs)), Write(lba + |xs|, ys))
  {
    hide Apply;
    var whole, first, second := Write(lba, xs + ys), Write(lba, xs), Write(lba + |xs|, ys);
    var p, q := Apply(disk, whole), Apply(Apply(disk, first), second);
    forall x: nat
      ensures (x in p <==> x in q) && (x in p ==> p[x] == q[x])
    {
      ApplyAt(disk, whole, x);
      ApplyAt(disk, first, x);
      ApplyAt(Apply(disk, first), second, x);
    }
  }

  lemma ApplyAt(disk: Contents, w: Write, x: nat)
    ensures x in Apply(disk, w) <==> Covers(w, x) || x in disk
    ensures Covers(w, x) ==> Apply(disk, w)[x] == w.blocks[x - w.lba]
    ensures !Covers(w, x) && x in disk ==> Apply(disk, w)[x] == disk[x]
  {
  }

  function ConcatBlocks(ws: seq<Write>): seq<Block> {
    if ws == [] then [] else ConcatBlocks(ws[..|ws| - 1]) + ws[|ws| - 1].blocks
  }

  ghost predicate Adjacent(ws: seq<Write>) {
    forall i | 0 < i < |ws| :: ws[i].lba == ws[i - 1].lba + |ws[i - 1].blocks|
  }

  lemma {:induction false} AdjacentEnd(ws: seq<Write>)
    requires |ws| > 0 && Adjacent(ws)
    ensures ws[|ws| - 1].lba + |ws[|ws| - 1].blocks| == ws[0].lba + |ConcatBlocks(ws)|
  {
    if |ws| > 1 {
      AdjacentEnd(ws[..|ws| - 1]);
    } else {
      assert ConcatBlocks(ws[..0]) == [];
    }
  }

  /** One write of the concatenated blocks is the adjacent writes in order. */
  lemma {:induction false} MergedWrite(disk: Contents, ws: seq<Write>)
    requires |ws| > 0 && Adjacent(ws)
    ensures Apply(disk, Write(ws[0].lba, ConcatBlocks(ws))) == ApplyAll(disk, ws)
  {
    hide Apply;
    var front, last := ws[..|ws| - 1], ws[|ws| - 1];
    if |ws| == 1 {
      assert front == [] && ConcatBlocks(ws) == [] + last.blocks == last.blocks;
      assert last == Write(ws[0].lba, last.blocks);
    } else {
      assert ws[|ws| - 2] == front[|front| - 1] && front[0] == ws[0];
      AdjacentEnd(front);
      MergedWrite(disk, front);
      assert ConcatBlocks(ws) == ConcatBlocks(front) + last.blocks;
      assert last == Write(ws[0].lba + |ConcatBlocks(front)|, last.blocks);
      hide ConcatBlocks;
      SplitWrite(disk, ws[0].lba, ConcatBlocks(front), last.blocks);
    }
  }

  // ----- the last writer wins -----

  lemma {:induction false} Untouched(disk: Contents, ws: seq<Write>, x: nat)
    requires forall k | 0 <= k < |ws| :: !Covers(ws[k], x)
    ensures x in ApplyAll(disk, ws) <==> x in disk
    ensures x in disk ==> ApplyAll(disk, ws)[x] == disk[x]
  {
    hide Apply;
    if ws != [] {
      Untouched(disk, ws[..|ws| - 1], x);
      ApplyAt(ApplyAll(disk, ws[..|ws| - 1]), ws[|ws| - 1], x);
    }
  }

  lemma {:induction false} LastWriter(disk: Contents, ws: seq<Write>, k: nat, x: nat)
    requires k < |ws| && Covers(ws[k], x)
    requires forall j | k < j < |ws| :: !Covers(ws[j], x)
    ensures x in ApplyAll(disk, ws) && ApplyAll(disk, ws)[x] == ws[k].blocks[x - ws[k].lba]
  {
    hide Apply;
    var front := ws[..|ws| - 1];
    ApplyAt(ApplyAll(disk, front), ws[|ws| - 1], x);
    if k + 1 < |ws| {
      LastWriter(disk, front, k, x);
    }
  }

  lemma {:induction false} FindLast(ws: seq<Write>, x: nat, n: nat) returns (k: int)
    requires n <= |ws|
    ensures -1 <= k < n && (k >= 0 ==> Covers(ws[k], x))
    ensures forall j | k < j < n :: !Covers(ws[j], x)
  {
    if n == 0 {
      k := -1;
    } else if Covers(ws[n - 1], x) {
      k := n - 1;
    } else {
      k := FindLast(ws, x, n - 1);
    }
  }

  /** The permutation keeps the relative order of every two writes that overlap. */
  ghost predicate KeepsOverlaps(ws: seq<Write>, perm: seq<nat>) {
    && |perm| == |ws| && IsPermutation(perm)
    && forall a, b | 0 <= a < b < |perm| && Overlap(ws[perm[a]], ws[perm[b]]) :: perm[a] < perm[b]
  }

  lemma ReorderAt(disk: Contents, ws: seq<Write>, perm: seq<nat>, x: nat)
    requires KeepsOverlaps(ws, perm)
    ensures var p, q := ApplyAll(disk, Gather(ws, perm)), ApplyAll(disk, ws);
            (x in p <==> x in q) && (x in p ==> p[x] == q[x])
  {
    var gs := Gather(ws, perm);
    var k := FindLast(ws, x, |ws|);
    if k < 0 {
      Untouched(disk, ws, x);
      Untouched(disk, gs, x);
    } else {
      LastWriter(disk, ws, k, x);
      assert k in perm;
      var a :| 0 <= a < |perm| && perm[a] == k;
      forall b | a < b < |gs|
        ensures !Covers(gs[b], x)
      {
        if Covers(gs[b], x) {
          assert Overlap(ws[perm[a]], ws[perm[b]]);
        }
      }
      LastWriter(disk, gs, a, x);
    }
  }

  /** Such a reordering of writes leaves the same contents. */
  lemma Reorder(disk: Contents, ws: seq<Write>, perm: seq<nat>)
    requires KeepsOverlaps(ws, perm)
    ensures ApplyAll(disk, Gather(ws, perm)) == ApplyAll(disk, ws)
  {
    var p, q := ApplyAll(disk, Gather(ws, perm)), ApplyAll(disk, ws);
    forall x: nat
      ensures (x in p <==> x in q) && (x in p ==> p[x] == q[x])
    {
      ReorderAt(disk, ws, perm, x);
    }
  }

  // ----- when the order within sub-batches does not matter -----

  function BlockOf(w: Write, x: nat): Block
    requires Covers(w, x)
  {
    w.blocks[x - w.lba]
  }

  /** `sub(k)` names the sub-batch of write `k`; sub-batches follow one another. */
  ghost predicate Ascending(sub: nat -> nat) {
    forall i: nat, j: nat | i <= j :: sub(i) <= sub(j)
  }

  /** An order that only rearranges writes of the same sub-batch. */
  ghost predicate Within(order: seq<nat>, n: nat, sub: nat -> nat) {
    |order| == n && IsPermutation(order) && forall p | 0 <= p < n :: sub(order[p]) == sub(p)
  }

  ghost predicate LaterCovers(ws: seq<Write>, sub: nat -> nat, i: nat, x: nat)
    requires i < |ws|
  {
    exists k | 0 <= k < |ws| :: sub(i) < sub(k) && Covers(ws[k], x)
  }

  /** In every block, the writes of the last sub-batch that reaches it agree. */
  ghost predicate Settled(ws: seq<Write>, sub: nat -> nat) {
    forall i: nat, j: nat, x: nat | i < |ws| && j < |ws| && sub(i) == sub(j) && Covers(ws[i], x) && Covers(ws[j], x)
                                    && !LaterCovers(ws, sub, i, x) ::
      BlockOf(ws[i], x) == BlockOf(ws[j], x)
  }

  ghost predicate AnyOrderWithin(disk: Contents, ws: seq<Write>, sub: nat -> nat) {
    forall order | Within(order, |ws|, sub) :: ApplyAll(disk, Gather(ws, order)) == ApplyAll(disk, ws)
  }

  /** All of `[0, n)`, with `i` and `e` exchanged. */
  function Swapped(n: nat, i: nat, e: nat): (order: seq<nat>)
    requires i < n && e < n
    ensures |order| == n && forall a | 0 <= a < n :: order[a] == if a == i then e else if a == e then i else a
  {
    seq(n, a requires 0 <= a < n => if a == i then e else if a == e then i else a)
  }

  lemma SwappedWithin(n: nat, i: nat, e: nat, sub: nat -> nat)
    requires i < n && e < n && sub(i) == sub(e)
    ensures Within(Swapped(n, i, e), n, sub)
  {
    var order := Swapped(n, i, e);
    forall a | 0 <= a < n ensures a in order {
      assert order[if a == i then e else if a == e then i else a] == a;
    }
  }

  /** The last write of the sub-batch of `i`. */
  lemma {:induction false} LastOfSub(n: nat, i: nat, sub: nat -> nat) returns (e: nat)
    requires Ascending(sub) && i < n
    ensures i <= e < n && sub(e) == sub(i) && forall k: nat | e < k < n :: sub(i) < sub(k)
  {
    if sub(n - 1) == sub(i) {
      e := n - 1;
    } else {
      e := LastOfSub(n - 1, i, sub);
    }
  }

  lemma OrderWithinAgrees(disk: Contents, ws: seq<Write>, order: seq<nat>, sub: nat -> nat)
    requires AnyOrderWithin(disk, ws, sub) && Within(order, |ws|, sub)
    ensures IsPermutation(order) && ApplyAll(disk, Gather(ws, order)) == ApplyAll(disk, ws)
  {
    hide ApplyAll;
  }

  /** Any write of the last sub-batch that reaches a block may be the one that stays. */
  lemma MayStay(disk: Contents, ws: seq<Write>, sub: nat -> nat, i: nat, x: nat)
    requires Ascending(sub) && AnyOrderWithin(disk, ws, sub) && i < |ws| && Covers(ws[i], x) && !LaterCovers(ws, sub, i, x)
    ensures x in ApplyAll(disk, ws) && ApplyAll(disk, ws)[x] == BlockOf(ws[i], x)
  {
    hide ApplyAll, Covers, AnyOrderWithin, Within, Ascending, Swapped;
    var e := LastOfSub(|ws|, i, sub);
    var order := Swapped(|ws|, i, e);
    SwappedWithin(|ws|, i, e, sub);
    OrderWithinAgrees(disk, ws, order, sub);
    var gs := Gather(ws, order);
    assert gs[e] == ws[i];
    forall j | e < j < |gs| ensures !Covers(gs[j], x) {
      assert gs[j] == ws[j] && sub(i) < sub(j);
    }
    LastWriter(disk, gs, e, x);
  }

  /** Every order within sub-batches leaves the same contents exactly when the writes are settled. */
  lemma SettledIff(disk: Contents, ws: seq<Write>, sub: nat -> nat)
    requires Ascending(sub)
    ensures AnyOrderWithin(disk, ws, sub) <==> Settled(ws, sub)
  {
    if AnyOrderWithin(disk, ws, sub) {
      hide ApplyAll, AnyOrderWithin, Covers, BlockOf;
      forall i: nat, j: nat, x: nat | i < |ws| && j < |ws| && sub(i) == sub(j) && Covers(ws[i], x) && Covers(ws[j], x)
                                      && !LaterCovers(ws, sub, i, x)
        ensures BlockOf(ws[i], x) == BlockOf(ws[j], x)
      {
        MayStay(disk, ws, sub, i, x);
        MayStay(disk, ws, sub, j, x);
      }
    }
    if Settled(ws, sub) {
      forall order | Within(order, |ws|, sub) ensures ApplyAll(disk, Gather(ws, order)) == ApplyAll(disk, ws) {
        SettledReorder(disk, ws, order, sub);
      }
    }
  }

  lemma SettledReorder(disk: Contents, ws: seq<Write>, order: seq<nat>, sub: nat -> nat)
    requires Ascending(sub) && Settled(ws, sub) && Within(order, |ws|, sub)
    ensures ApplyAll(disk, Gather(ws, order)) == ApplyAll(disk, ws)
  {
    hide ApplyAll, Covers, Settled;
    var p, q := ApplyAll(disk, Gather(ws, order)), ApplyAll(disk, ws);
    forall x: nat ensures (x in p <==> x in q) && (x in p ==> p[x] == q[x]) {
      SettledAt(disk, ws, order, sub, x);
    }
  }

  lemma SettledAt(disk: Contents, ws: seq<Write>, order: seq<nat>, sub: nat -> nat, x: nat)
    requires Ascending(sub) && Settled(ws, sub) && Within(order, |ws|, sub)
    ensures var p, q := ApplyAll(disk, Gather(ws, order)), ApplyAll(disk, ws);
            (x in p <==> x in q) && (x in p ==> p[x] == q[x])
  {
    hide ApplyAll;
    var gs := Gather(ws, order);
    var k := FindLast(ws, x, |ws|);
    var p := FindLast(gs, x, |gs|);
    if k < 0 {
      Untouched(disk, ws, x);
      Untouched(disk, gs, x);
    } else {
      LastWriter(disk, ws, k, x);
      assert k in order;
      var a :| 0 <= a < |order| && order[a] == k;
      assert a <= p;
      LastWriter(disk, gs, p, x);
      LastAgree(ws, sub, order[p], k, a, p, x);
    }
  }

  lemma LastAgree(ws: seq<Write>, sub: nat -> nat, i: nat, k: nat, a: nat, p: nat, x: nat)
    requires Ascending(sub) && Settled(ws, sub) && i <= k < |ws| && a <= p && sub(a) == sub(k) && sub(p) == sub(i)
    requires Covers(ws[i], x) && Covers(ws[k], x) && forall j | k < j < |ws| :: !Covers(ws[j], x)
    ensures BlockOf(ws[i], x) == BlockOf(ws[k], x)
  {
    assert sub(i) == sub(k);
    assert !LaterCovers(ws, sub, i, x);
  }
}

// Ring and write path together: what a whole run of producers and scheduler leaves on the SSD.
module EndToEnd {
  import opened Disk
  import opened WriteBatch
  import opened StableCount
  import opened Bits
  import opened WriteSchedule
  import Ring
  import Radix
  import Merge
  import NvmCmd
  import ExclusiveQueue

  function Offsets(rs: seq<Ring.Request>): (s: seq<nat>)
    ensures |s| == |rs| && forall i | 0 <= i < |rs| :: s[i] == rs[i].offset
  {
    seq(|rs|, i requires 0 <= i < |rs| => rs[i].offset)
  }

  function Entries(rs: seq<Ring.Request>): (s: seq<nat>)
    ensures |s| == |rs| && forall i | 0 <= i < |rs| :: s[i] == rs[i].pcEntry
  {
    seq(|rs|, i requires 0 <= i < |rs| => rs[i].pcEntry)
  }

  /** What the write scheduler takes for granted of a request: it covers one whole cache entry that has pages. It never
      looks at the opcode. */
  ghost predicate Proper(t: Tables, r: Ring.Request) {
    t.ppe > 0 && t.Has(r.pcEntry) && r.offset % (t.ppe * PAGE) == 0 && Pow2(r.sizeLog) == t.ppe * PAGE
  }

  ghost predicate AllProper(t: Tables, rs: seq<Ring.Request>) {
    forall i | 0 <= i < |rs| :: Proper(t, rs[i])
  }

  ghost predicate ProperBatches(t: Tables, batches: seq<seq<Ring.Request>>) {
    t.ppe > 0 && forall k | 0 <= k < |batches| :: AllProper(t, batches[k])
  }

  lemma ProperHas(t: Tables, rs: seq<Ring.Request>)
    requires t.ppe > 0 && AllProper(t, rs)
    ensures HasAll(t, Entries(rs)) && Aligned(Offsets(rs), t.ppe * PAGE)
  {
    forall i | 0 <= i < |rs| ensures t.Has(rs[i].pcEntry) && rs[i].offset % (t.ppe * PAGE) == 0 {
      assert Proper(t, rs[i]);
    }
  }

  /** What one batch writes, in slot order, from the memory it finds. */
  function BatchWrites(mem: Memory, t: Tables, geo: Geometry, batch: seq<Ring.Request>): (ws: seq<Write>)
    requires geo.Valid() && t.ppe > 0 && AllProper(t, batch)
    ensures |ws| == |batch|
  {
    ProperHas(t, batch);
    RequestWrites(mem, t, geo, Offsets(batch), Entries(batch))
  }

  /** The requests of all batches as single writes, in slot order, each with the memory of its own batch. */
  ghost function SlotWrites(mems: seq<Memory>, t: Tables, geo: Geometry, batches: seq<seq<Ring.Request>>): (ws: seq<Write>)
    requires geo.Valid() && ProperBatches(t, batches) && |mems| == |batches|
    ensures |ws| == |Ring.Concat(batches)|
  {
    if batches == [] then []
    else
      var n := |batches| - 1;
      SlotWrites(mems[..n], t, geo, batches[..n]) + BatchWrites(mems[n], t, geo, batches[n])
  }

  /** Where slot `k` stands among the batches. */
  lemma {:induction false} SlotWriteAt(mems: seq<Memory>, t: Tables, geo: Geometry, batches: seq<seq<Ring.Request>>, k: nat)
    returns (b: nat)
    requires geo.Valid() && ProperBatches(t, batches) && |mems| == |batches| && k < |Ring.Concat(batches)|
    ensures b < |batches| && t.Has(Ring.Concat(batches)[k].pcEntry)
    ensures SlotWrites(mems, t, geo, batches)[k]
         == RequestWrite(mems[b], t, geo, Ring.Concat(batches)[k].offset, Ring.Concat(batches)[k].pcEntry)
  {
    hide RequestWrite, Pow2;
    var n := |batches| - 1;
    var front := Ring.Concat(batches[..n]);
    if k < |front| {
      b := SlotWriteAt(mems[..n], t, geo, batches[..n], k);
    } else {
      b := n;
      ProperHas(t, batches[n]);
      assert batches[n][k - |front|] == Ring.Concat(batches)[k];
    }
  }

  lemma ServedIs(cap: nat, actions: seq<Ring.Action>)
    requires cap > 0 && Ring.Run(cap, actions).Some?
    ensures var s := Ring.Run(cap, actions).value; s.served == Ring.Concat(s.batches)
  {
    hide Ring.Run;
    Ring.RunInv(cap, actions);
  }

  /** Slot `k` of a run is written with its own producer's offset and entry. */
  lemma SlotIsProducers(cap: nat, actions: seq<Ring.Action>, mems: seq<Memory>, t: Tables, geo: Geometry, k: nat) returns (b: nat)
    requires cap > 0 && Ring.Run(cap, actions).Some? && geo.Valid()
    requires var s := Ring.Run(cap, actions).value;
             ProperBatches(t, s.batches) && |mems| == |s.batches| && k < |s.served|
    ensures var s := Ring.Run(cap, actions).value;
            && |SlotWrites(mems, t, geo, s.batches)| == |s.served| && k < |s.producers|
            && b < |mems| && t.Has(s.producers[k].req.pcEntry)
            && SlotWrites(mems, t, geo, s.batches)[k]
               == RequestWrite(mems[b], t, geo, s.producers[k].req.offset, s.producers[k].req.pcEntry)
  {
    hide Ring.Run, RequestWrite, SlotWrites, ProperBatches;
    Ring.RingSafety(cap, actions);
    var s := Ring.Run(cap, actions).value;
    ServedIs(cap, actions);
    b := SlotWriteAt(mems, t, geo, s.batches, k);
    assert s.served[k] == Ring.Requests(s.producers)[..|s.served|][k];
  }

  // ----- the batches of a run -----

  ghost predicate Fit(batches: seq<seq<Ring.Request>>, cap: nat) {
    forall k | 0 <= k < |batches| :: |batches[k]| <= cap
  }

  lemma FitStep(s: Ring.State, a: Ring.Action, cap: nat)
    requires Ring.Sized(s) && Fit(s.batches, cap) && |s.batch| <= cap && Ring.Step(s, a).Some?
    ensures Fit(Ring.Step(s, a).value.batches, cap)
  {
    hide Bits.Mod, Ring.Prefix;
  }

  /** No batch exceeds the capacity, so it fits the sort buffers. */
  lemma {:induction false} BatchesFit(cap: nat, actions: seq<Ring.Action>)
    requires cap > 0 && Ring.Run(cap, actions).Some?
    ensures Fit(Ring.Run(cap, actions).value.batches, cap)
  {
    hide Ring.Step;
    if actions != [] {
      var n := |actions| - 1;
      BatchesFit(cap, actions[..n]);
      Ring.RingSafety(cap, actions[..n]);
      FitStep(Ring.Run(cap, actions[..n]).value, actions[n], cap);
    }
  }

  /** Batches consist of producers' requests. */
  lemma {:induction false} InConcat(batches: seq<seq<Ring.Request>>, t: Tables)
    requires t.ppe > 0 && AllProper(t, Ring.Concat(batches))
    ensures ProperBatches(t, batches)
  {
    hide Proper;
    if batches != [] {
      var n := |batches| - 1;
      var front := Ring.Concat(batches[..n]);
      assert Ring.Concat(batches) == front + batches[n];
      forall i | 0 <= i < |front| ensures Proper(t, front[i]) {
        assert front[i] == Ring.Concat(batches)[i];
      }
      forall i | 0 <= i < |batches[n]| ensures Proper(t, batches[n][i]) {
        assert batches[n][i] == Ring.Concat(batches)[|front| + i];
      }
      InConcat(batches[..n], t);
      forall k | 0 <= k < |batches| ensures AllProper(t, batches[k]) {
        if k < n { assert batches[k] == batches[..n][k]; }
      }
    }
  }

  lemma RunProper(cap: nat, actions: seq<Ring.Action>, t: Tables)
    requires cap > 0 && Ring.Run(cap, actions).Some? && t.ppe > 0
    requires forall k | 0 <= k < |Ring.Run(cap, actions).value.producers| :: Proper(t, Ring.Run(cap, actions).value.producers[k].req)
    ensures ProperBatches(t, Ring.Run(cap, actions).value.batches)
  {
    hide Ring.Run, Proper, ProperBatches;
    var s := Ring.Run(cap, actions).value;
    Ring.RingSafety(cap, actions);
    ServedIs(cap, actions);
    forall i | 0 <= i < |s.served| ensures Proper(t, s.served[i]) {
      assert s.served[i] == Ring.Requests(s.producers)[..|s.served|][i] == s.producers[i].req;
    }
    InConcat(s.batches, t);
  }

  // ----- the scheduler over a whole run -----

  /** The buffers one scheduler works with, all of the ring's capacity. */
  ghost predicate Buffers(cap: nat, keys: array<nat>, vals: array<nat>, keysA: array<nat>, valsA: array<nat>, starts: array<nat>) {
    && keys.Length == vals.Length == keysA.Length == valsA.Length == starts.Length == cap
    && Radix.Distinct(keys, vals, keysA, valsA) && starts !in {keys, vals, keysA, valsA}
  }

  /** The fused drain: offsets, entries and positions in slot order. */
  method Drain(batch: seq<Ring.Request>, keys: array<nat>, vals: array<nat>) returns (pc: seq<nat>)
    requires |batch| <= keys.Length && |batch| <= vals.Length && keys != vals
    modifies keys, vals
    ensures keys[..|batch|] == Offsets(batch) && vals[..|batch|] == Identity(|batch|) && pc == Entries(batch)
  {
    pc := [];
    for i := 0 to |batch|
      invariant |pc| == i
      invariant forall k | 0 <= k < i :: keys[k] == batch[k].offset && vals[k] == k && pc[k] == batch[k].pcEntry
    {
      keys[i], vals[i] := batch[i].offset, i;
      pc := pc + [batch[i].pcEntry];
    }
  }

  lemma DrainedBatch(t: Tables, geo: Geometry, batch: seq<Ring.Request>)
    requires geo.Valid() && 0 < t.ppe && t.ppe * PAGE <= Merge.MERGE_TARGET && AllProper(t, batch)
    ensures Drained(t, geo, Offsets(batch), Entries(batch))
  {
    ProperHas(t, batch);
  }

  /** The commands of batch `k` were executed in submission order, or their order made no difference. */
  ghost predicate Kept(mem: Memory, t: Tables, geo: Geometry, batch: seq<Ring.Request>, slots: nat, order: seq<nat>)
    requires geo.Valid() && 0 < t.ppe && t.ppe * PAGE <= Merge.MERGE_TARGET && AllProper(t, batch)
  {
    DrainedBatch(t, geo, batch);
    order == Identity(|order|) || SettledBatch(mem, t, geo, Offsets(batch), Entries(batch), slots)
  }

  /** One turn of the scheduler's loop. */
  method ScheduleOne(batch: seq<Ring.Request>, mem: Memory, device: Device, t: Tables, geo: Geometry, keys: array<nat>,
                     vals: array<nat>, keysA: array<nat>, valsA: array<nat>, starts: array<nat>, pool: array<seq<nat>>,
                     ios: seq<nat>, merged: array<Merged>, qp: ExclusiveQueue.QueuePair, parallelSort: bool, ns: nat, disk: Contents)
    returns (overflow: bool, order: seq<nat>, disk': Contents)
    requires Buffers(keys.Length, keys, vals, keysA, valsA, starts) && |batch| <= keys.Length
    requires geo.Valid() && 0 < t.ppe && t.ppe * PAGE <= Merge.MERGE_TARGET && AllProper(t, batch)
    requires 0 < pool.Length == |ios| && merged.Length == MAX_BATCH
    requires NvmCmd.PageShape(pool[..], LAST) && NvmCmd.DistinctAddresses(ios)
    requires qp.Valid() && Roomy(qp) && device.Able()
    modifies keys, vals, keysA, valsA, starts, pool, merged, qp
    ensures NvmCmd.PageShape(pool[..], LAST) && qp.Valid()
    ensures overflow <==> !ScratchFits(Offsets(batch), t.ppe * PAGE, starts.Length)
    ensures !overflow && Kept(mem, t, geo, batch, pool.Length, order) ==> disk' == ApplyAll(disk, BatchWrites(mem, t, geo, batch))
  {
    hide AllProper, ScratchFits, SettledBatch, Drained, ApplyAll, RequestWrites, NvmCmd.PageShape, NvmCmd.DistinctAddresses,
      ExclusiveQueue.QueuePair.Valid, Roomy, Device.Able, Commands, Done, StableOrder, Identity, Offsets, Entries;
    var pc := Drain(batch, keys, vals);
    DrainedBatch(t, geo, batch);
    ProperHas(t, batch);
    overflow, order, disk' :=
      ScheduleBatch(mem, t, geo, keys, vals, keysA, valsA, pc, starts, pool, ios, merged, qp, parallelSort, ns, device, disk);
  }

  /** Each of the first `n` batches kept slot order. */
  ghost predicate KeptAll(mems: seq<Memory>, t: Tables, geo: Geometry, batches: seq<seq<Ring.Request>>, slots: nat,
                          orders: seq<seq<nat>>, n: nat)
    requires geo.Valid() && t.ppe * PAGE <= Merge.MERGE_TARGET && ProperBatches(t, batches)
    requires n <= |batches| == |mems| && n <= |orders|
  {
    forall k | 0 <= k < n :: Kept(mems[k], t, geo, batches[k], slots, orders[k])
  }

  /** Some of the first `n` batches has no room for its split. */
  ghost predicate SomeOverflow(t: Tables, batches: seq<seq<Ring.Request>>, cap: nat, n: nat)
    requires t.ppe > 0 && n <= |batches|
  {
    exists k | 0 <= k < n :: !ScratchFits(Offsets(batches[k]), t.ppe * PAGE, cap)
  }

  /** The disk after the first `n` batches. */
  ghost predicate Reached(disk: Contents, mems: seq<Memory>, t: Tables, geo: Geometry, batches: seq<seq<Ring.Request>>, n: nat,
                          disk': Contents)
    requires geo.Valid() && ProperBatches(t, batches) && n <= |batches| == |mems|
  {
    disk' == ApplyAll(disk, SlotWrites(mems[..n], t, geo, batches[..n]))
  }

  lemma ReachedNext(disk: Contents, mems: seq<Memory>, t: Tables, geo: Geometry, batches: seq<seq<Ring.Request>>, n: nat, d: Contents,
                    disk': Contents)
    requires geo.Valid() && ProperBatches(t, batches) && n < |batches| == |mems| && Reached(disk, mems, t, geo, batches, n, d)
    requires disk' == ApplyAll(d, BatchWrites(mems[n], t, geo, batches[n]))
    ensures Reached(disk, mems, t, geo, batches, n + 1, disk')
  {
    hide ApplyAll, BatchWrites, AllProper;
    assert mems[..n + 1][..n] == mems[..n] && batches[..n + 1][..n] == batches[..n];
    ApplyAppend(disk, SlotWrites(mems[..n], t, geo, batches[..n]), BatchWrites(mems[n], t, geo, batches[n]));
  }

  lemma ReachedNone(disk: Contents, mems: seq<Memory>, t: Tables, geo: Geometry, batches: seq<seq<Ring.Request>>)
    requires geo.Valid() && ProperBatches(t, batches) && |batches| == |mems|
    ensures Reached(disk, mems, t, geo, batches, 0, disk)
  {
    assert mems[..0] == [] && batches[..0] == [];
  }

  /** The scheduler over all batches of a run of the ring. `mems[k]` is DMA memory and `devices[k]` the controller during
      batch `k`. Unless a batch overflows its list of starts, which is known from the batches alone, and as long as no
      batch leaves a conflict to the controller's order, the SSD ends as if the producers' requests had been written
      one by one in slot order. */
  method ScheduleRun(cap: nat, ghost actions: seq<Ring.Action>, batches: seq<seq<Ring.Request>>, mems: seq<Memory>,
                     devices: seq<Device>, t: Tables, geo: Geometry, keys: array<nat>, vals: array<nat>, keysA: array<nat>,
                     valsA: array<nat>, starts: array<nat>, pool: array<seq<nat>>, ios: seq<nat>, merged: array<Merged>,
                     qp: ExclusiveQueue.QueuePair, parallelSort: bool, ns: nat, disk: Contents)
    returns (overflow: bool, orders: seq<seq<nat>>, disk': Contents)
    requires cap > 0 && Ring.Run(cap, actions).Some? && batches == Ring.Run(cap, actions).value.batches
    requires |mems| == |devices| == |batches| && forall k | 0 <= k < |devices| :: devices[k].Able()
    requires geo.Valid() && 0 < t.ppe && t.ppe * PAGE <= Merge.MERGE_TARGET
    requires forall k | 0 <= k < |Ring.Run(cap, actions).value.producers| :: Proper(t, Ring.Run(cap, actions).value.producers[k].req)
    requires Buffers(cap, keys, vals, keysA, valsA, starts) && 0 < pool.Length == |ios| && merged.Length == MAX_BATCH
    requires NvmCmd.PageShape(pool[..], LAST) && NvmCmd.DistinctAddresses(ios) && qp.Valid() && Roomy(qp)
    modifies keys, vals, keysA, valsA, starts, pool, merged, qp
    ensures ProperBatches(t, batches) && qp.Valid()
    ensures overflow <==> SomeOverflow(t, batches, cap, |batches|)
    ensures !overflow ==> |orders| == |batches|
    ensures !overflow && KeptAll(mems, t, geo, batches, pool.Length, orders, |batches|) ==>
              disk' == ApplyAll(disk, SlotWrites(mems, t, geo, batches))
  {
    hide Ring.Run, Proper, ProperBatches, Buffers, ScratchFits, Kept, ApplyAll, SlotWrites, BatchWrites, NvmCmd.PageShape,
      NvmCmd.DistinctAddresses, ExclusiveQueue.QueuePair.Valid, Roomy, Device.Able, Reached;
    RunProper(cap, actions, t);
    BatchesFit(cap, actions);
    ReachedNone(disk, mems, t, geo, batches);
    overflow, orders, disk' := false, [], disk;
    for k := 0 to |batches|
      invariant !overflow && |orders| == k && NvmCmd.PageShape(pool[..], LAST) && qp.Valid()
      invariant !SomeOverflow(t, batches, cap, k)
      invariant KeptAll(mems, t, geo, batches, pool.Length, orders, k) ==> Reached(disk, mems, t, geo, batches, k, disk')
    {
      ghost var before := disk';
      var order;
      BatchFacts(t, batches, cap, keys, vals, keysA, valsA, starts, k);
      overflow, order, disk' := ScheduleOne(batches[k], mems[k], devices[k], t, geo, keys, vals, keysA, valsA, starts, pool, ios,
                                            merged, qp, parallelSort, ns, disk');
      if overflow {
        return;
      }
      orders := orders + [order];
      if KeptAll(mems, t, geo, batches, pool.Length, orders, k + 1) {
        KeptLast(mems, t, geo, batches, pool.Length, orders, k);
        ReachedNext(disk, mems, t, geo, batches, k, before, disk');
      }
    }
    if KeptAll(mems, t, geo, batches, pool.Length, orders, |batches|) {
      ReachedAll(disk, mems, t, geo, batches, disk');
    }
  }

  lemma BatchFacts(t: Tables, batches: seq<seq<Ring.Request>>, cap: nat, keys: array<nat>, vals: array<nat>, keysA: array<nat>,
                   valsA: array<nat>, starts: array<nat>, k: nat)
    requires ProperBatches(t, batches) && Fit(batches, cap) && Buffers(cap, keys, vals, keysA, valsA, starts) && k < |batches|
    ensures t.ppe > 0 && AllProper(t, batches[k]) && |batches[k]| <= cap == keys.Length == starts.Length
    ensures Buffers(keys.Length, keys, vals, keysA, valsA, starts)
  {
  }

  lemma KeptLast(mems: seq<Memory>, t: Tables, geo: Geometry, batches: seq<seq<Ring.Request>>, slots: nat, orders: seq<seq<nat>>, k: nat)
    requires geo.Valid() && t.ppe * PAGE <= Merge.MERGE_TARGET && ProperBatches(t, batches)
    requires k < |batches| == |mems| && |orders| == k + 1 && KeptAll(mems, t, geo, batches, slots, orders, k + 1)
    ensures t.ppe > 0 && AllProper(t, batches[k]) && Kept(mems[k], t, geo, batches[k], slots, orders[k])
    ensures KeptAll(mems, t, geo, batches, slots, orders[..k], k)
  {
    hide Kept, AllProper;
    forall i | 0 <= i < k ensures t.ppe > 0 && AllProper(t, batches[i]) && Kept(mems[i], t, geo, batches[i], slots, orders[..k][i]) {
      assert Kept(mems[i], t, geo, batches[i], slots, orders[i]);
    }
  }

  lemma ReachedAll(disk: Contents, mems: seq<Memory>, t: Tables, geo: Geometry, batches: seq<seq<Ring.Request>>, disk': Contents)
    requires geo.Valid() && ProperBatches(t, batches) && |batches| == |mems| && Reached(disk, mems, t, geo, batches, |batches|, disk')
    ensures disk' == ApplyAll(disk, SlotWrites(mems, t, geo, batches))
  {
    assert mems[..|batches|] == mems && batches[..|batches|] == batches;
  }
}

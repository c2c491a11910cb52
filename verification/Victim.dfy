// The victim buffer (include/page_cache.h, include/io_scheduler.cuh, benchmarks/io_scheduler/io_scheduler_impl.cuh):
// eviction swaps the buffer of a cache slot with the buffer of a victim entry and hands the entry to the scheduler.
module Victim {
  import opened Bits
  import opened Options
  import opened StableCount
  import NvmCmd
  import Bitonic

  // ----- the pointer swap -----

  /** A DMA buffer: its virtual address and the IO addresses of its sub-pages. */
  datatype Buffer = Buffer(vaddr: nat, io: seq<nat>)

  /** Slot `k` of the tables holds buffer `b`. */
  ghost predicate Holds(vaddrs: seq<nat>, ios: seq<nat>, ppe: nat, k: nat, b: Buffer) {
    && k < |vaddrs| && |b.io| == ppe && (k + 1) * ppe <= |ios| && vaddrs[k] == b.vaddr
    && ios[k * ppe..(k + 1) * ppe] == b.io
  }

  /** The tables hold the buffers `bs`, virtual and IO addresses of a slot always of the same buffer. */
  ghost predicate Paired(vaddrs: seq<nat>, ios: seq<nat>, ppe: nat, bs: seq<Buffer>) {
    |vaddrs| == |bs| && |ios| == |bs| * ppe && forall k: nat | k < |bs| :: Holds(vaddrs, ios, ppe, k, bs[k])
  }

  lemma BlockBounds(k: nat, n: nat, ppe: nat)
    requires k < n
    ensures 0 <= k * ppe && (k + 1) * ppe == k * ppe + ppe <= n * ppe
  {
    MulMonotone(k + 1, n, ppe);
  }

  lemma BlocksApart(k: nat, l: nat, ppe: nat)
    requires k != l
    ensures (k + 1) * ppe <= l * ppe || (l + 1) * ppe <= k * ppe
  {
    if k < l { MulMonotone(k + 1, l, ppe); } else { MulMonotone(l + 1, k, ppe); }
  }

  /** Replacing one slot's block leaves every other slot's block alone. */
  lemma OtherBlocks(vaddrs: seq<nat>, ios: seq<nat>, ios': seq<nat>, ppe: nat, bs: seq<Buffer>, k: nat, b: Buffer)
    requires Paired(vaddrs, ios, ppe, bs) && k < |bs| && |b.io| == ppe && |ios'| == |ios| && (k + 1) * ppe <= |ios|
    requires ios'[k * ppe..(k + 1) * ppe] == b.io
    requires forall x | 0 <= x < |ios| && !(k * ppe <= x < (k + 1) * ppe) :: ios'[x] == ios[x]
    ensures Paired(vaddrs[k := b.vaddr], ios', ppe, bs[k := b])
  {
    var vaddrs', bs' := vaddrs[k := b.vaddr], bs[k := b];
    forall l: nat | l < |bs| ensures Holds(vaddrs', ios', ppe, l, bs'[l]) {
      if l != k {
        assert Holds(vaddrs, ios, ppe, l, bs[l]);
        BlocksApart(k, l, ppe);
        BlockBounds(l, |bs|, ppe);
        assert ios'[l * ppe..(l + 1) * ppe] == ios[l * ppe..(l + 1) * ppe];
      }
    }
  }

  /** The first `j` addresses of the two blocks are exchanged. */
  ghost predicate Exchanged(a: seq<nat>, b: seq<nat>, a0: seq<nat>, b0: seq<nat>, i: nat, k: nat, j: nat) {
    && |a| == |a0| && |b| == |b0| && i + j <= |a| && k + j <= |b|
    && (forall x | 0 <= x < |a| :: a[x] == if i <= x < i + j then b0[k + x - i] else a0[x])
    && (forall x | 0 <= x < |b| :: b[x] == if k <= x < k + j then a0[i + x - k] else b0[x])
  }

  lemma ExchangedBlock(a: seq<nat>, b: seq<nat>, a0: seq<nat>, b0: seq<nat>, i: nat, k: nat, n: nat)
    requires Exchanged(a, b, a0, b0, i, k, n)
    ensures a[i..i + n] == b0[k..k + n] && b[k..k + n] == a0[i..i + n]
  {
  }

  /** The swap of find_slot: virtual addresses, IO addresses sub-page by sub-page, then the PRP mirror of the slot. */
  method Swap(pageVaddrs: array<nat>, pageIos: array<nat>, entryVaddrs: array<nat>, entryIos: array<nat>, prp1: array<nat>,
              prp2: array<nat>, ppe: nat, page: nat, v: nat, ghost pages: seq<Buffer>, ghost entries: seq<Buffer>)
    requires ppe > 0 && page < |pages| && v < |entries| && prp1.Length == prp2.Length == |pages|
    requires Paired(pageVaddrs[..], pageIos[..], ppe, pages) && Paired(entryVaddrs[..], entryIos[..], ppe, entries)
    requires pageVaddrs !in {pageIos, entryVaddrs, entryIos, prp1, prp2} && pageIos !in {entryVaddrs, entryIos, prp1, prp2}
    requires entryVaddrs !in {entryIos, prp1, prp2} && entryIos !in {prp1, prp2} && prp1 != prp2
    modifies pageVaddrs, pageIos, entryVaddrs, entryIos, prp1, prp2
    ensures Paired(pageVaddrs[..], pageIos[..], ppe, pages[page := entries[v]])
    ensures Paired(entryVaddrs[..], entryIos[..], ppe, entries[v := pages[page]])
    ensures prp1[..] == old(prp1[..])[page := entries[v].io[0]]
    ensures prp2[..] == if ppe >= 2 then old(prp2[..])[page := entries[v].io[1]] else old(prp2[..])
  {
    hide Paired, Holds, Exchanged;
    ghost var pv0: seq<nat>, pi0: seq<nat>, ev0: seq<nat>, ei0: seq<nat> := pageVaddrs[..], pageIos[..], entryVaddrs[..], entryIos[..];
    SlotFacts(pv0, pi0, ppe, pages, page);
    SlotFacts(ev0, ei0, ppe, entries, v);
    var tmp := pageVaddrs[page];
    pageVaddrs[page] := entryVaddrs[v];
    entryVaddrs[v] := tmp;
    assert pageVaddrs[..] == pv0[page := entries[v].vaddr] && entryVaddrs[..] == ev0[v := pages[page].vaddr];
    SwapIos(pageIos, entryIos, page * ppe, v * ppe, ppe);
    SwapDone(pv0, pi0, ev0, ei0, pageIos[..], entryIos[..], ppe, page, v, pages, entries);
    prp1[page] := pageIos[page * ppe];
    if ppe >= 2 {
      prp2[page] := pageIos[page * ppe + 1];
    }
  }

  /** The inner loop: exchange `ppe` IO addresses. */
  method SwapIos(pageIos: array<nat>, entryIos: array<nat>, i: nat, k: nat, ppe: nat)
    requires pageIos != entryIos && i + ppe <= pageIos.Length && k + ppe <= entryIos.Length
    modifies pageIos, entryIos
    ensures Exchanged(pageIos[..], entryIos[..], old(pageIos[..]), old(entryIos[..]), i, k, ppe)
  {
    hide Exchanged;
    ghost var a0: seq<nat>, b0: seq<nat> := pageIos[..], entryIos[..];
    ExchangedNone(a0, b0, i, k);
    for j := 0 to ppe
      invariant Exchanged(pageIos[..], entryIos[..], a0, b0, i, k, j)
    {
      ghost var a: seq<nat>, b: seq<nat> := pageIos[..], entryIos[..];
      ExchangedNext(a, b, a0, b0, i, k, j);
      var t := pageIos[i + j];
      pageIos[i + j] := entryIos[k + j];
      entryIos[k + j] := t;
      assert pageIos[..] == a[i + j := b[k + j]] && entryIos[..] == b[k + j := a[i + j]];
    }
  }

  lemma SlotFacts(vaddrs: seq<nat>, ios: seq<nat>, ppe: nat, bs: seq<Buffer>, k: nat)
    requires Paired(vaddrs, ios, ppe, bs) && k < |bs|
    ensures |vaddrs| == |bs| && 0 <= k * ppe && (k + 1) * ppe == k * ppe + ppe <= |ios| == |bs| * ppe
    ensures vaddrs[k] == bs[k].vaddr && |bs[k].io| == ppe && ios[k * ppe..(k + 1) * ppe] == bs[k].io
  {
    assert Holds(vaddrs, ios, ppe, k, bs[k]);
    BlockBounds(k, |bs|, ppe);
  }

  lemma ExchangedNone(a: seq<nat>, b: seq<nat>, i: nat, k: nat)
    requires i <= |a| && k <= |b|
    ensures Exchanged(a, b, a, b, i, k, 0)
  {
  }

  lemma ExchangedNext(a: seq<nat>, b: seq<nat>, a0: seq<nat>, b0: seq<nat>, i: nat, k: nat, j: nat)
    requires Exchanged(a, b, a0, b0, i, k, j) && i + j < |a| && k + j < |b|
    ensures Exchanged(a[i + j := b[k + j]], b[k + j := a[i + j]], a0, b0, i, k, j + 1)
  {
  }

  lemma SwapDone(pv0: seq<nat>, pi0: seq<nat>, ev0: seq<nat>, ei0: seq<nat>, pi: seq<nat>, ei: seq<nat>, ppe: nat, page: nat, v: nat,
                 pages: seq<Buffer>, entries: seq<Buffer>)
    requires ppe > 0 && page < |pages| && v < |entries| && Paired(pv0, pi0, ppe, pages) && Paired(ev0, ei0, ppe, entries)
    requires Exchanged(pi, ei, pi0, ei0, page * ppe, v * ppe, ppe)
    ensures |pv0| == |pages| && |ev0| == |entries| && |entries[v].io| == ppe && page * ppe + ppe <= |pi|
    ensures Paired(pv0[page := entries[v].vaddr], pi, ppe, pages[page := entries[v]])
    ensures Paired(ev0[v := pages[page].vaddr], ei, ppe, entries[v := pages[page]])
    ensures pi[page * ppe] == entries[v].io[0] && (ppe >= 2 ==> pi[page * ppe + 1] == entries[v].io[1])
  {
    hide Paired;
    SlotFacts(pv0, pi0, ppe, pages, page);
    SlotFacts(ev0, ei0, ppe, entries, v);
    ExchangedBlock(pi, ei, pi0, ei0, page * ppe, v * ppe, ppe);
    OtherBlocks(pv0, pi0, pi, ppe, pages, page, entries[v]);
    OtherBlocks(ev0, ei0, ei, ppe, entries, v, pages[page]);
    assert pi[page * ppe] == pi[page * ppe..page * ppe + ppe][0];
    if ppe >= 2 { assert pi[page * ppe + 1] == pi[page * ppe..page * ppe + ppe][1]; }
  }

  /** Ownership is conserved: the buffers of slots and entries together stay the same buffers. */
  lemma SwapConserves(pages: seq<Buffer>, entries: seq<Buffer>, page: nat, v: nat)
    requires page < |pages| && v < |entries|
    ensures multiset(pages[page := entries[v]]) + multiset(entries[v := pages[page]]) == multiset(pages) + multiset(entries)
  {
  }

  /** What the mirror is good for: the PRP pair it leaves describes the slot's sub-pages exactly when a slot has at most
      two of them. With more, PRP2 would have to be the address of a list. */
  lemma MirrorDescribes(b: Buffer, lists: seq<seq<nat>>, listIos: seq<nat>)
    requires |b.io| > 0 && |lists| == |listIos| && NvmCmd.PageShape(lists, 511)
    requires forall j | 0 <= j < |b.io| :: b.io[j] !in listIos
    ensures NvmCmd.WalkData(lists, listIos, 511, b.io[0], if |b.io| >= 2 then b.io[1] else 0, |b.io|) == Some(b.io) <==> |b.io| <= 2
  {
    if |b.io| == 1 {
      assert b.io == [b.io[0]];
    } else if |b.io| == 2 {
      assert b.io == [b.io[0], b.io[1]];
    } else {
      assert NvmCmd.Find(listIos, b.io[1]) == |listIos|;
    }
  }

  // ----- the life of an entry -----

  type Data = nat

  /** What the scheduler is asked to write, and where the request stands. */
  datatype Pc =
    | Want                  // dirty page found, slot locked, page busy
    | Claimed(v: nat)       // COPYING
    | Swapped(v: nat)
    | Tagged(v: nat)        // byte offset stored
    | Occupying(v: nat)     // OCCUPIED stored, not yet enqueued
    | Queued(v: nat)        // in the scheduler's ring
    | Written(v: nat)       // the device has the data
    | Untagged(v: nat)      // byte offset cleared
    | Blocking              // entry not free: blocking write from the slot
    | Finished

  /** One eviction: slot, byte offset on the device, and the page's bytes when its eviction began. */
  datatype Eviction = Eviction(slot: nat, offset: nat, data: Data, pc: Pc)

  datatype EntryState = Free | Copying(t: nat) | Occupied(t: nat)

  datatype State = State(
    pageBuf: seq<nat>, entryBuf: seq<nat>,    // buffer numbers: who owns which
    bytes: seq<Data>,                         // by buffer
    states: seq<EntryState>,                  // VICTIM_FREE, VICTIM_COPYING, VICTIM_OCCUPIED
    tags: seq<Option<nat>>,                   // byte_offsets, None for UINT64_MAX
    locked: seq<bool>,                        // the slot's take-lock, held from eviction to enqueue
    evictions: seq<Eviction>,
    writes: seq<(nat, nat, Data)>)            // what the device was told: eviction, offset, bytes

  datatype Action =
    | Begin(slot: nat, offset: nat)
    | Claim(t: nat, v: nat)
    | Exchange(t: nat)
    | Tag(t: nat)
    | Occupy(t: nat)
    | Enqueue(t: nat)
    | Execute(t: nat)
    | Untag(t: nat)
    | Release(t: nat)
    | ExecuteBlocking(t: nat)
    | SlotWrite(slot: nat, d: Data)

  predicate Sized(s: State) {
    |s.states| == |s.tags| == |s.entryBuf| && |s.locked| == |s.pageBuf|
  }

  function At(s: State, t: nat, pc: Pc): State
    requires t < |s.evictions|
  {
    s.(evictions := s.evictions[t := s.evictions[t].(pc := pc)])
  }

  /** Steps of the evicting thread. */
  function EvictStep(s: State, a: Action): Option<State>
    requires Sized(s)
  {
    match a
    case Begin(slot, offset) =>
      if slot < |s.pageBuf| && !s.locked[slot] && s.pageBuf[slot] < |s.bytes| then
        Some(s.(locked := s.locked[slot := true], evictions := s.evictions + [Eviction(slot, offset, s.bytes[s.pageBuf[slot]], Want)]))
      else None
    case Claim(t, v) =>
      if t < |s.evictions| && s.evictions[t].pc.Want? && v < |s.states| then
        if s.states[v].Free? then Some(At(s, t, Claimed(v)).(states := s.states[v := Copying(t)])) else Some(At(s, t, Blocking))
      else None
    case Exchange(t) =>
      if t < |s.evictions| && s.evictions[t].pc.Claimed? && s.evictions[t].pc.v < |s.entryBuf| && s.evictions[t].slot < |s.pageBuf| then
        var v, p := s.evictions[t].pc.v, s.evictions[t].slot;
        Some(At(s, t, Swapped(v)).(pageBuf := s.pageBuf[p := s.entryBuf[v]], entryBuf := s.entryBuf[v := s.pageBuf[p]]))
      else None
    case Tag(t) =>
      if t < |s.evictions| && s.evictions[t].pc.Swapped? && s.evictions[t].pc.v < |s.tags| then
        Some(At(s, t, Tagged(s.evictions[t].pc.v)).(tags := s.tags[s.evictions[t].pc.v := Some(s.evictions[t].offset)]))
      else None
    case Occupy(t) =>
      if t < |s.evictions| && s.evictions[t].pc.Tagged? && s.evictions[t].pc.v < |s.states| then
        Some(At(s, t, Occupying(s.evictions[t].pc.v)).(states := s.states[s.evictions[t].pc.v := Occupied(t)]))
      else None
    case Enqueue(t) =>
      if t < |s.evictions| && s.evictions[t].pc.Occupying? && s.evictions[t].slot < |s.locked| then
        Some(At(s, t, Queued(s.evictions[t].pc.v)).(locked := s.locked[s.evictions[t].slot := false]))
      else None
    case _ => None
  }

  /** Steps of the scheduler and the device, and writes into cache slots by loaders and pinned writers. */
  function OtherStep(s: State, a: Action): Option<State>
    requires Sized(s)
  {
    match a
    case Execute(t) =>
      if t < |s.evictions| && s.evictions[t].pc.Queued? && s.evictions[t].pc.v < |s.entryBuf| && s.entryBuf[s.evictions[t].pc.v] < |s.bytes| then
        var v := s.evictions[t].pc.v;
        Some(At(s, t, Written(v)).(writes := s.writes + [(t, s.evictions[t].offset, s.bytes[s.entryBuf[v]])]))
      else None
    case Untag(t) =>
      if t < |s.evictions| && s.evictions[t].pc.Written? && s.evictions[t].pc.v < |s.tags| then
        Some(At(s, t, Untagged(s.evictions[t].pc.v)).(tags := s.tags[s.evictions[t].pc.v := None]))
      else None
    case Release(t) =>
      if t < |s.evictions| && s.evictions[t].pc.Untagged? && s.evictions[t].pc.v < |s.states| then
        Some(At(s, t, Finished).(states := s.states[s.evictions[t].pc.v := Free]))
      else None
    case ExecuteBlocking(t) =>
      if t < |s.evictions| && s.evictions[t].pc.Blocking? && s.evictions[t].slot < |s.pageBuf|
         && s.pageBuf[s.evictions[t].slot] < |s.bytes| then
        var p := s.evictions[t].slot;
        Some(At(s, t, Finished).(writes := s.writes + [(t, s.evictions[t].offset, s.bytes[s.pageBuf[p]])], locked := s.locked[p := false]))
      else None
    case SlotWrite(slot, d) =>
      if slot < |s.pageBuf| && !s.locked[slot] && s.pageBuf[slot] < |s.bytes|
      then Some(s.(bytes := s.bytes[s.pageBuf[slot] := d])) else None
    case _ => None
  }

  function Step(s: State, a: Action): Option<State>
    requires Sized(s)
  {
    if a.Execute? || a.Untag? || a.Release? || a.ExecuteBlocking? || a.SlotWrite? then OtherStep(s, a) else EvictStep(s, a)
  }

  // ----- the invariant -----

  /** Buffers of slots and entries are a permutation of all buffers. */
  ghost predicate Owned(pageBuf: seq<nat>, entryBuf: seq<nat>, buffers: nat) {
    IsPermutation(pageBuf + entryBuf) && buffers == |pageBuf| + |entryBuf|
  }

  predicate HasEntry(pc: Pc) {
    !pc.Want? && !pc.Blocking? && !pc.Finished?
  }

  predicate HasSlot(pc: Pc) {
    pc.Want? || pc.Claimed? || pc.Swapped? || pc.Tagged? || pc.Occupying? || pc.Blocking?
  }

  predicate Copies(pc: Pc) {
    pc.Claimed? || pc.Swapped? || pc.Tagged?
  }

  /** An entry in use belongs to exactly one eviction. */
  ghost predicate Entries(states: seq<EntryState>, evs: seq<Eviction>) {
    && (forall t | 0 <= t < |evs| && HasEntry(evs[t].pc) ::
          evs[t].pc.v < |states| && states[evs[t].pc.v] == if Copies(evs[t].pc) then Copying(t) else Occupied(t))
    && (forall v | 0 <= v < |states| && !states[v].Free? ::
          states[v].t < |evs| && HasEntry(evs[states[v].t].pc) && evs[states[v].t].pc.v == v)
  }

  /** A locked slot belongs to exactly one eviction. */
  ghost predicate Slots(locked: seq<bool>, evs: seq<Eviction>) {
    && (forall t | 0 <= t < |evs| && HasSlot(evs[t].pc) :: evs[t].slot < |locked| && locked[evs[t].slot])
    && (forall t, u | 0 <= t < |evs| && 0 <= u < |evs| && t != u && HasSlot(evs[t].pc) && HasSlot(evs[u].pc) :: evs[t].slot != evs[u].slot)
  }

  predicate InBuffer(bufs: seq<nat>, k: nat, bytes: seq<Data>, d: Data) {
    k < |bufs| && bufs[k] < |bytes| && bytes[bufs[k]] == d
  }

  /** Where the evicted bytes are. */
  predicate BytesOf(pageBuf: seq<nat>, entryBuf: seq<nat>, bytes: seq<Data>, e: Eviction) {
    if e.pc.Finished? then true
    else if e.pc.Want? || e.pc.Claimed? || e.pc.Blocking? then InBuffer(pageBuf, e.slot, bytes, e.data)
    else InBuffer(entryBuf, e.pc.v, bytes, e.data)
  }

  ghost predicate Carried(pageBuf: seq<nat>, entryBuf: seq<nat>, bytes: seq<Data>, evs: seq<Eviction>) {
    forall t | 0 <= t < |evs| :: BytesOf(pageBuf, entryBuf, bytes, evs[t])
  }

  /** The tag of an entry that awaits its write is the offset of its eviction. */
  ghost predicate TagsOk(tags: seq<Option<nat>>, evs: seq<Eviction>) {
    forall t | 0 <= t < |evs| ::
      (evs[t].pc.Tagged? || evs[t].pc.Occupying? || evs[t].pc.Queued? || evs[t].pc.Written?) ==>
        evs[t].pc.v < |tags| && tags[evs[t].pc.v] == Some(evs[t].offset)
  }

  predicate IsWritten(pc: Pc) {
    pc.Written? || pc.Untagged? || pc.Finished?
  }

  /** The device was told each eviction at most once, with its own offset and bytes. */
  ghost predicate WritesOk(writes: seq<(nat, nat, Data)>, evs: seq<Eviction>) {
    && (forall i | 0 <= i < |writes| ::
          && writes[i].0 < |evs| && IsWritten(evs[writes[i].0].pc)
          && writes[i].1 == evs[writes[i].0].offset && writes[i].2 == evs[writes[i].0].data)
    && (forall i, j | 0 <= i < j < |writes| :: writes[i].0 != writes[j].0)
  }

  ghost predicate Inv(s: State) {
    && Sized(s) && Owned(s.pageBuf, s.entryBuf, |s.bytes|) && Entries(s.states, s.evictions) && Slots(s.locked, s.evictions)
    && Carried(s.pageBuf, s.entryBuf, s.bytes, s.evictions) && TagsOk(s.tags, s.evictions) && WritesOk(s.writes, s.evictions)
  }

  ghost predicate Initial(s: State) {
    && Sized(s) && Owned(s.pageBuf, s.entryBuf, |s.bytes|) && s.evictions == [] && s.writes == []
    && (forall v | 0 <= v < |s.states| :: s.states[v].Free?) && (forall p | 0 <= p < |s.locked| :: !s.locked[p])
  }

  lemma InitialInv(s: State)
    requires Initial(s)
    ensures Inv(s)
  {
    hide IsPermutation;
  }

  // ----- every step keeps it -----

  lemma BuffersApart(s: State, p: nat, q: nat, v: nat)
    requires Owned(s.pageBuf, s.entryBuf, |s.bytes|) && p < |s.pageBuf|
    ensures s.pageBuf[p] < |s.bytes|
    ensures q < |s.pageBuf| && q != p ==> s.pageBuf[q] != s.pageBuf[p]
    ensures v < |s.entryBuf| ==> s.entryBuf[v] != s.pageBuf[p] && s.entryBuf[v] < |s.bytes|
  {
    var all := s.pageBuf + s.entryBuf;
    assert all[p] == s.pageBuf[p];
    if q < |s.pageBuf| { assert all[q] == s.pageBuf[q]; }
    if v < |s.entryBuf| { assert all[|s.pageBuf| + v] == s.entryBuf[v]; }
  }

  /** Entries and slots after one eviction moved on: nothing to do when it keeps what it has. */
  lemma MoveTables(s: State, t: nat, pc: Pc)
    requires Inv(s) && t < |s.evictions|
    requires HasEntry(pc) == HasEntry(s.evictions[t].pc) && (HasEntry(pc) ==> pc.v == s.evictions[t].pc.v)
    requires Copies(pc) == Copies(s.evictions[t].pc) && HasSlot(pc) == HasSlot(s.evictions[t].pc)
    ensures Entries(s.states, At(s, t, pc).evictions) && Slots(s.locked, At(s, t, pc).evictions)
  {
    hide Owned, Carried, TagsOk, WritesOk;
  }

  lemma BeginKeeps(s: State, slot: nat, offset: nat)
    requires Inv(s) && EvictStep(s, Begin(slot, offset)).Some?
    ensures Inv(EvictStep(s, Begin(slot, offset)).value)
  {
    hide Owned;
  }

  lemma MoveRest(s: State, t: nat, pc: Pc)
    requires Inv(s) && t < |s.evictions| && BytesOf(s.pageBuf, s.entryBuf, s.bytes, s.evictions[t].(pc := pc))
    requires !pc.Tagged? && !pc.Occupying? && !pc.Queued? && !pc.Written? && (IsWritten(s.evictions[t].pc) ==> IsWritten(pc))
    ensures var evs := At(s, t, pc).evictions;
            Carried(s.pageBuf, s.entryBuf, s.bytes, evs) && TagsOk(s.tags, evs) && WritesOk(s.writes, evs)
  {
    hide Owned, Entries, Slots, BytesOf, IsWritten;
  }

  lemma MoveSlots(s: State, t: nat, pc: Pc)
    requires Inv(s) && t < |s.evictions| && HasSlot(pc) == HasSlot(s.evictions[t].pc)
    ensures Slots(s.locked, At(s, t, pc).evictions)
  {
    hide Owned, Entries, Carried, TagsOk, WritesOk, HasSlot;
  }

  lemma ClaimEntries(s: State, t: nat, v: nat)
    requires Inv(s) && t < |s.evictions| && s.evictions[t].pc.Want? && v < |s.states| && s.states[v].Free?
    ensures Entries(s.states[v := Copying(t)], At(s, t, Claimed(v)).evictions)
  {
    hide Owned, Slots, Carried, TagsOk, WritesOk;
  }

  lemma ClaimKeeps(s: State, t: nat, v: nat)
    requires Inv(s) && EvictStep(s, Claim(t, v)).Some?
    ensures Inv(EvictStep(s, Claim(t, v)).value)
  {
    hide Owned, Slots, Carried, TagsOk, WritesOk, Entries;
    BytesAt(s, t);
    if s.states[v].Free? {
      ClaimEntries(s, t, v);
      MoveSlots(s, t, Claimed(v));
      MoveRest(s, t, Claimed(v));
    } else {
      MoveTables(s, t, Blocking);
      MoveRest(s, t, Blocking);
    }
  }

  lemma BytesAt(s: State, t: nat)
    requires Inv(s) && t < |s.evictions|
    ensures BytesOf(s.pageBuf, s.entryBuf, s.bytes, s.evictions[t])
  {
    hide Owned, Slots, TagsOk, WritesOk, Entries, BytesOf;
  }

  lemma SwapOwners(pageBuf: seq<nat>, entryBuf: seq<nat>, p: nat, v: nat)
    requires IsPermutation(pageBuf + entryBuf) && p < |pageBuf| && v < |entryBuf|
    ensures IsPermutation(pageBuf[p := entryBuf[v]] + entryBuf[v := pageBuf[p]])
  {
    hide IsPermutation;
    var all, n := pageBuf + entryBuf, |pageBuf|;
    Bitonic.SwapKeepsPermutation(all, p, n + v);
    assert pageBuf[p := entryBuf[v]] + entryBuf[v := pageBuf[p]] == all[p := all[n + v]][n + v := all[p]];
  }

  lemma ExchangeCarried(s: State, t: nat)
    requires Inv(s) && EvictStep(s, Exchange(t)).Some?
    ensures var s' := EvictStep(s, Exchange(t)).value; Carried(s'.pageBuf, s'.entryBuf, s'.bytes, s'.evictions)
  {
    hide Owned, TagsOk, WritesOk;
    var s' := EvictStep(s, Exchange(t)).value;
    forall u | 0 <= u < |s'.evictions| ensures BytesOf(s'.pageBuf, s'.entryBuf, s'.bytes, s'.evictions[u]) {
      assert BytesOf(s.pageBuf, s.entryBuf, s.bytes, s.evictions[u]);
      assert BytesOf(s.pageBuf, s.entryBuf, s.bytes, s.evictions[t]);
    }
  }

  lemma ExchangeKeeps(s: State, t: nat)
    requires Inv(s) && EvictStep(s, Exchange(t)).Some?
    ensures Inv(EvictStep(s, Exchange(t)).value)
  {
    hide Carried, IsPermutation, Entries, Slots;
    ExchangeCarried(s, t);
    MoveTables(s, t, Swapped(s.evictions[t].pc.v));
    SwapOwners(s.pageBuf, s.entryBuf, s.evictions[t].slot, s.evictions[t].pc.v);
  }

  lemma TagKeeps(s: State, t: nat)
    requires Inv(s) && EvictStep(s, Tag(t)).Some?
    ensures Inv(EvictStep(s, Tag(t)).value)
  {
    hide Owned, Slots;
    MoveTables(s, t, Tagged(s.evictions[t].pc.v));
  }

  lemma OccupyEntries(s: State, t: nat)
    requires Inv(s) && t < |s.evictions| && s.evictions[t].pc.Tagged? && s.evictions[t].pc.v < |s.states|
    ensures var v := s.evictions[t].pc.v; Entries(s.states[v := Occupied(t)], At(s, t, Occupying(v)).evictions)
  {
    hide Owned, Slots, Carried, TagsOk, WritesOk;
  }

  lemma OccupyKeeps(s: State, t: nat)
    requires Inv(s) && EvictStep(s, Occupy(t)).Some?
    ensures Inv(EvictStep(s, Occupy(t)).value)
  {
    hide Owned, Entries, Slots;
    OccupyEntries(s, t);
    MoveSlots(s, t, Occupying(s.evictions[t].pc.v));
  }

  lemma EnqueueKeeps(s: State, t: nat)
    requires Inv(s) && EvictStep(s, Enqueue(t)).Some?
    ensures Inv(EvictStep(s, Enqueue(t)).value)
  {
    hide Owned;
  }

  lemma ExecuteKeeps(s: State, t: nat)
    requires Inv(s) && OtherStep(s, Execute(t)).Some?
    ensures Inv(OtherStep(s, Execute(t)).value)
  {
    hide Owned, Entries, Slots;
    MoveTables(s, t, Written(s.evictions[t].pc.v));
    assert BytesOf(s.pageBuf, s.entryBuf, s.bytes, s.evictions[t]);
  }

  lemma UntagKeeps(s: State, t: nat)
    requires Inv(s) && OtherStep(s, Untag(t)).Some?
    ensures Inv(OtherStep(s, Untag(t)).value)
  {
    hide Owned, Slots;
    MoveTables(s, t, Untagged(s.evictions[t].pc.v));
  }

  lemma ReleaseKeeps(s: State, t: nat)
    requires Inv(s) && OtherStep(s, Release(t)).Some?
    ensures Inv(OtherStep(s, Release(t)).value)
  {
    hide Owned;
  }

  lemma BlockingSlots(s: State, t: nat)
    requires Inv(s) && t < |s.evictions| && s.evictions[t].pc.Blocking? && s.evictions[t].slot < |s.locked|
    ensures Slots(s.locked[s.evictions[t].slot := false], At(s, t, Finished).evictions)
  {
    hide Owned, Entries, Carried, TagsOk, WritesOk;
  }

  lemma BlockingWrites(s: State, t: nat)
    requires Inv(s) && t < |s.evictions| && s.evictions[t].pc.Blocking?
    ensures WritesOk(s.writes + [(t, s.evictions[t].offset, s.evictions[t].data)], At(s, t, Finished).evictions)
  {
    hide Owned, Entries, Slots, Carried, TagsOk;
  }

  lemma ExecuteBlockingKeeps(s: State, t: nat)
    requires Inv(s) && OtherStep(s, ExecuteBlocking(t)).Some?
    ensures Inv(OtherStep(s, ExecuteBlocking(t)).value)
  {
    hide Owned, Entries, Slots, Carried, TagsOk, WritesOk;
    BytesAt(s, t);
    BlockingSlots(s, t);
    BlockingWrites(s, t);
    MoveEntries(s, t, Finished);
    MoveRest(s, t, Finished);
  }

  lemma MoveEntries(s: State, t: nat, pc: Pc)
    requires Inv(s) && t < |s.evictions| && !HasEntry(s.evictions[t].pc) && !HasEntry(pc)
    ensures Entries(s.states, At(s, t, pc).evictions)
  {
    hide Owned, Slots, Carried, TagsOk, WritesOk;
  }

  lemma SlotWriteKeeps(s: State, slot: nat, d: Data)
    requires Inv(s) && OtherStep(s, SlotWrite(slot, d)).Some?
    ensures Inv(OtherStep(s, SlotWrite(slot, d)).value)
  {
    hide Entries, TagsOk, WritesOk, IsPermutation;
    var s' := OtherStep(s, SlotWrite(slot, d)).value;
    forall t | 0 <= t < |s'.evictions| ensures BytesOf(s'.pageBuf, s'.entryBuf, s'.bytes, s'.evictions[t]) {
      var e := s.evictions[t];
      assert BytesOf(s.pageBuf, s.entryBuf, s.bytes, e);
      BuffersApart(s, slot, e.slot, if HasEntry(e.pc) then e.pc.v else 0);
    }
  }

  lemma StepKeeps(s: State, a: Action)
    requires Inv(s) && Step(s, a).Some?
    ensures Inv(Step(s, a).value)
  {
    hide Inv, EvictStep, OtherStep;
    match a
    case Begin(slot, offset) => BeginKeeps(s, slot, offset);
    case Claim(t, v) => ClaimKeeps(s, t, v);
    case Exchange(t) => ExchangeKeeps(s, t);
    case Tag(t) => TagKeeps(s, t);
    case Occupy(t) => OccupyKeeps(s, t);
    case Enqueue(t) => EnqueueKeeps(s, t);
    case Execute(t) => ExecuteKeeps(s, t);
    case Untag(t) => UntagKeeps(s, t);
    case Release(t) => ReleaseKeeps(s, t);
    case ExecuteBlocking(t) => ExecuteBlockingKeeps(s, t);
    case SlotWrite(slot, d) => SlotWriteKeeps(s, slot, d);
  }

  ghost function Run(s0: State, actions: seq<Action>): Option<State> {
    if actions == [] then Some(s0)
    else
      match Run(s0, actions[..|actions| - 1])
      case None => None
      case Some(s) => if Sized(s) then Step(s, actions[|actions| - 1]) else None
  }

  ghost predicate Reaches(s0: State, actions: seq<Action>, s: State) {
    Initial(s0) && Run(s0, actions) == Some(s)
  }

  lemma {:induction false} RunInv(s0: State, actions: seq<Action>, s: State)
    requires Reaches(s0, actions, s)
    ensures Inv(s)
  {
    hide Inv, Step, Initial;
    if actions == [] {
      InitialInv(s0);
    } else {
      var before := actions[..|actions| - 1];
      RunInv(s0, before, Run(s0, before).value);
      StepKeeps(Run(s0, before).value, actions[|actions| - 1]);
    }
  }

  // ----- what every run guarantees -----

  /** Page and victim buffers together always are all buffers, each owned once. */
  lemma OwnershipConserved(s0: State, actions: seq<Action>, s: State)
    requires Reaches(s0, actions, s)
    ensures IsPermutation(s.pageBuf + s.entryBuf)
  {
    hide Reaches, Entries, Slots, Carried, TagsOk, WritesOk, IsPermutation;
    RunInv(s0, actions, s);
  }

  /** An occupied entry has at most one write in flight, and that write's request, tag and buffer are those of the
      evicted page: whenever the device executes it, it gets the bytes the page had when its eviction began. */
  lemma OccupiedCarries(s0: State, actions: seq<Action>, s: State, t: nat, u: nat)
    requires Reaches(s0, actions, s) && t < |s.evictions| && s.evictions[t].pc.Queued?
    ensures var e := s.evictions[t];
            && Sized(s) && e.pc.v < |s.states| && s.states[e.pc.v] == Occupied(t) && s.tags[e.pc.v] == Some(e.offset)
            && s.entryBuf[e.pc.v] < |s.bytes| && s.bytes[s.entryBuf[e.pc.v]] == e.data
            && (u < |s.evictions| && u != t && HasEntry(s.evictions[u].pc) ==> s.evictions[u].pc.v != e.pc.v)
  {
    hide Reaches, Owned, Slots, WritesOk;
    RunInv(s0, actions, s);
    assert BytesOf(s.pageBuf, s.entryBuf, s.bytes, s.evictions[t]);
  }

  /** Every write the device was ever told is one eviction's, with that page's offset and bytes, and no eviction is
      written twice. */
  lemma WritesAreEvictions(s0: State, actions: seq<Action>, s: State, i: nat, j: nat)
    requires Reaches(s0, actions, s) && i < |s.writes| && j < |s.writes| && i != j
    ensures s.writes[i].0 < |s.evictions| && s.writes[i].0 != s.writes[j].0
    ensures s.writes[i].1 == s.evictions[s.writes[i].0].offset && s.writes[i].2 == s.evictions[s.writes[i].0].data
  {
    hide Reaches, Owned, Slots, Entries, Carried, TagsOk;
    RunInv(s0, actions, s);
  }

  /** What happens next to an eviction. */
  function NextOf(e: Eviction, t: nat): Action {
    match e.pc
    case Want => Claim(t, 0)
    case Claimed(_) => Exchange(t)
    case Swapped(_) => Tag(t)
    case Tagged(_) => Occupy(t)
    case Occupying(_) => Enqueue(t)
    case Queued(_) => Execute(t)
    case Written(_) => Untag(t)
    case Untagged(_) => Release(t)
    case Blocking => ExecuteBlocking(t)
    case Finished => Begin(e.slot, e.offset)
  }

  /** No eviction ever gets stuck: its next step is always possible, so its entry and its slot come free again. */
  lemma NeverStuck(s0: State, actions: seq<Action>, s: State, t: nat)
    requires Reaches(s0, actions, s) && t < |s.evictions| && !s.evictions[t].pc.Finished? && |s.states| > 0
    ensures Sized(s) && Step(s, NextOf(s.evictions[t], t)).Some?
  {
    hide Reaches, Owned, WritesOk, TagsOk;
    RunInv(s0, actions, s);
    BytesAt(s, t);
    if s.evictions[t].pc.Claimed? { assert HasEntry(s.evictions[t].pc); }
  }
}

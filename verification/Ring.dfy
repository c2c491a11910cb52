// The request ring between producers and the scheduler (include/io_scheduler.cuh,
// benchmarks/io_scheduler/io_scheduler_impl.cuh) as a state machine: any number of producers, one
// scheduler block, every shared-memory access a step of its own.
module Ring {
  import opened Bits
  import opened Options

  const THREADS: nat := 128

  datatype Request = Request(offset: nat, pcEntry: nat, opcode: nat, sizeLog: nat)

  /** Where the producer that claimed a slot stands. */
  datatype Phase =
    | Claimed                 // owns the slot number, waits until the ring has room
    | Writing(fields: nat)    // that many of the four fields are stored
    | Published               // prod_seq stored, waits for done_seq
    | Left                    // saw its completion

  datatype Producer = Producer(req: Request, phase: Phase)

  /** Where the scheduler stands. */
  datatype Sched =
    | Idle
    | Probing(limit: nat, ready: map<nat, bool>)    // threads test prod_seq, each in its own time
    | Loading(avail: nat, got: map<nat, Request>)   // ready threads copy their entry
    | Notifying(told: set<nat>)                     // done_seq stored for these so far
    | Accounted                                     // submitted_ios raised, cons_head not yet
    | SawShutdown
    | Scanned(pending: nat)
    | Returned

  datatype State = State(
    cap: nat, tail: nat, head: nat,
    entries: seq<Request>, prodSeq: seq<nat>, doneSeq: seq<nat>, submitted: nat,
    shutdown: bool,
    early: bool,               // some request was not yet published when shutdown was stored
    producers: seq<Producer>,  // by slot
    batch: seq<Request>,       // the gsort buffers, in accumulation order
    sched: Sched,
    served: seq<Request>,      // requests the device completed, in slot order
    batches: seq<seq<Request>>) // the same, batch by batch

  datatype Action =
    | Claim(req: Request)
    | Admit(slot: nat)
    | StoreField(slot: nat)
    | Publish(slot: nat)
    | Leave(slot: nat)
    | Shutdown
    | StartRound
    | Probe(thread: nat)
    | CountRound
    | Load(thread: nat)
    | CloseRound
    | Submit
    | Notify(i: nat)
    | Account
    | Advance
    | CheckShutdown
    | ScanTail
    | ScanFirst

  function Init(cap: nat): State {
    State(cap, 0, 0, seq(cap, _ => Request(0, 0, 0, 0)), seq(cap, _ => 0), seq(cap, _ => 0), 0, false, false, [], [], Idle, [], [])
  }

  predicate Sized(s: State) {
    s.cap > 0 && |s.entries| == |s.prodSeq| == |s.doneSeq| == s.cap && |s.producers| == s.tail
  }

  function Index(s: State, slot: nat): (p: nat)
    requires Sized(s)
    ensures p < s.cap
  {
    Mod(slot, s.cap)
  }

  predicate IsPublished(p: Producer) {
    p.phase.Published? || p.phase.Left?
  }

  function StoreOne(e: Request, req: Request, k: nat): Request {
    if k == 0 then e.(offset := req.offset)
    else if k == 1 then e.(pcEntry := req.pcEntry)
    else if k == 2 then e.(opcode := req.opcode)
    else e.(sizeLog := req.sizeLog)
  }

  function Least(a: int, b: int): int { if a < b then a else b }

  /** Length of the run of true at the front: what the ballot of the four warps counts. */
  function Prefix(ready: map<nat, bool>, n: nat, i: nat): (r: nat)
    requires i <= n
    ensures i <= r <= n && (forall t | i <= t < r :: t in ready && ready[t])
    decreases n - i
  {
    if i < n && i in ready && ready[i] then Prefix(ready, n, i + 1) else i
  }

  // ----- steps of producers -----

  function WithPhase(s: State, slot: nat, phase: Phase): State
    requires slot < |s.producers|
  {
    s.(producers := s.producers[slot := s.producers[slot].(phase := phase)])
  }

  /** io_sched_enqueue, the waiters of io_sched_read and io_sched_write, and io_sched_shutdown. */
  function ProducerStep(s: State, a: Action): Option<State>
    requires Sized(s)
  {
    match a
    case Claim(req) =>
      Some(s.(tail := s.tail + 1, producers := s.producers + [Producer(req, Claimed)], early := s.early || s.shutdown))
    case Admit(slot) =>
      if slot < s.tail && s.producers[slot].phase.Claimed? && slot - s.head < s.cap
      then Some(WithPhase(s, slot, Writing(0))) else None
    case StoreField(slot) =>
      if slot < s.tail && s.producers[slot].phase.Writing? && s.producers[slot].phase.fields < 4 then
        var k, p := s.producers[slot].phase.fields, Index(s, slot);
        Some(WithPhase(s, slot, Writing(k + 1)).(entries := s.entries[p := StoreOne(s.entries[p], s.producers[slot].req, k)]))
      else None
    case Publish(slot) =>
      if slot < s.tail && s.producers[slot].phase == Writing(4)
      then Some(WithPhase(s, slot, Published).(prodSeq := s.prodSeq[Index(s, slot) := slot + 1])) else None
    case Leave(slot) =>
      if slot < s.tail && s.producers[slot].phase.Published? && s.doneSeq[Index(s, slot)] >= slot + 1
      then Some(WithPhase(s, slot, Left)) else None
    case Shutdown =>
      Some(s.(shutdown := true, early := s.early || exists k | 0 <= k < s.tail :: !IsPublished(s.producers[k])))
    case _ => None
  }

  // ----- steps of the scheduler -----

  function ReadyAt(s: State, slot: nat): bool
    requires Sized(s)
  {
    s.prodSeq[Index(s, slot)] == slot + 1
  }

  /** Draining: rounds of 128 threads. */
  function DrainStep(s: State, a: Action): Option<State>
    requires Sized(s)
  {
    match a
    case StartRound =>
      if s.sched.Idle? then
        var limit := Least(Least(s.tail - (s.head + |s.batch|), s.cap - |s.batch|), THREADS);
        if limit >= 0 then Some(s.(sched := Probing(limit, map[]))) else None
      else None
    case Probe(t) =>
      if s.sched.Probing? && t < THREADS && t !in s.sched.ready then
        var ready := t < s.sched.limit && ReadyAt(s, s.head + |s.batch| + t);
        Some(s.(sched := Probing(s.sched.limit, s.sched.ready[t := ready])))
      else None
    case CountRound =>
      if s.sched.Probing? && forall t | 0 <= t < THREADS :: t in s.sched.ready
      then Some(s.(sched := Loading(Least(Prefix(s.sched.ready, THREADS, 0), s.sched.limit), map[]))) else None
    case Load(t) =>
      if s.sched.Loading? && t < s.sched.avail && t !in s.sched.got
      then Some(s.(sched := Loading(s.sched.avail, s.sched.got[t := s.entries[Index(s, s.head + |s.batch| + t)]]))) else None
    case CloseRound =>
      if s.sched.Loading? && (forall t | 0 <= t < s.sched.avail :: t in s.sched.got)
      then Some(s.(sched := Idle, batch := s.batch + seq(s.sched.avail, t requires 0 <= t < s.sched.avail => s.sched.got[t])))
      else None
    case _ => None
  }

  /** Submission of the batch, notification in any order, advancing the head, and the shutdown check. */
  function SubmitStep(s: State, a: Action): Option<State>
    requires Sized(s)
  {
    match a
    case Submit =>
      if s.sched.Idle? && |s.batch| > 0
      then Some(s.(sched := Notifying({}), served := s.served + s.batch, batches := s.batches + [s.batch])) else None
    case Notify(i) =>
      if s.sched.Notifying? && i < |s.batch| && i !in s.sched.told then
        var slot := s.head + i;
        Some(s.(sched := Notifying(s.sched.told + {i}), doneSeq := s.doneSeq[Index(s, slot) := slot + 1]))
      else None
    case Account =>
      if s.sched.Notifying? && forall i | 0 <= i < |s.batch| :: i in s.sched.told
      then Some(s.(sched := Accounted, submitted := s.submitted + |s.batch|)) else None
    case Advance =>
      if s.sched.Accounted? then Some(s.(sched := Idle, head := s.head + |s.batch|, batch := [])) else None
    case CheckShutdown =>
      if s.sched.Idle? && |s.batch| == 0 && s.shutdown then Some(s.(sched := SawShutdown)) else None
    case ScanTail =>
      if s.sched.SawShutdown? && s.tail >= s.head
      then Some(s.(sched := Scanned(Least(s.tail - s.head, s.cap)))) else None
    case ScanFirst =>
      if s.sched.Scanned?
      then Some(s.(sched := if s.sched.pending > 0 && ReadyAt(s, s.head) then Idle else Returned)) else None
    case _ => None
  }

  function Step(s: State, a: Action): Option<State>
    requires Sized(s)
  {
    if a.Claim? || a.Admit? || a.StoreField? || a.Publish? || a.Leave? || a.Shutdown? then ProducerStep(s, a)
    else if a.StartRound? || a.Probe? || a.CountRound? || a.Load? || a.CloseRound? then DrainStep(s, a)
    else SubmitStep(s, a)
  }

  // ----- the invariant, one predicate per part of the state -----

  /** All slots below `n` are published. */
  ghost predicate PublishedBelow(ps: seq<Producer>, n: nat) {
    n <= |ps| && forall k | 0 <= k < n :: IsPublished(ps[k])
  }

  /** Nobody writes more than one lap ahead of the consumer. */
  ghost predicate Admitted(ps: seq<Producer>, limit: nat) {
    forall k | 0 <= k < |ps| :: !ps[k].phase.Claimed? ==> k < limit
  }

  predicate Holds(e: Request, p: Producer) {
    match p.phase
    case Claimed => true
    case Writing(k) =>
      && k <= 4 && (k > 0 ==> e.offset == p.req.offset) && (k > 1 ==> e.pcEntry == p.req.pcEntry)
      && (k > 2 ==> e.opcode == p.req.opcode) && (k > 3 ==> e.sizeLog == p.req.sizeLog)
    case _ => e == p.req
  }

  /** Every slot not yet consumed holds what its producer stored. */
  ghost predicate Stored(cap: nat, head: nat, entries: seq<Request>, ps: seq<Producer>)
    requires 0 < cap == |entries|
  {
    forall k | head <= k < |ps| :: Holds(entries[Mod(k, cap)], ps[k])
  }

  /** prod_seq marks the published slots ... */
  ghost predicate Marked(cap: nat, head: nat, prodSeq: seq<nat>, ps: seq<Producer>)
    requires 0 < cap == |prodSeq|
  {
    forall k | head <= k < |ps| && IsPublished(ps[k]) :: prodSeq[Mod(k, cap)] == k + 1
  }

  /** ... and only those. */
  ghost predicate Stamped(prodSeq: seq<nat>, ps: seq<Producer>) {
    forall p | 0 <= p < |prodSeq| :: prodSeq[p] > 0 ==> prodSeq[p] <= |ps| && IsPublished(ps[prodSeq[p] - 1])
  }

  /** `rs` are the requests of the slots from `from` on. */
  ghost predicate Copied(rs: seq<Request>, ps: seq<Producer>, from: nat) {
    from + |rs| <= |ps| && forall i | 0 <= i < |rs| :: rs[i] == ps[from + i].req
  }

  ghost predicate RoundOk(sched: Sched, ps: seq<Producer>, first: nat, room: nat) {
    match sched
    case Probing(limit, ready) =>
      && limit <= room && first + limit <= |ps|
      && (forall t | t in ready && ready[t] :: t < limit && IsPublished(ps[first + t]))
    case Loading(avail, got) =>
      && avail <= room && PublishedBelow(ps, first + avail)
      && (forall t | t in got :: t < avail && got[t] == ps[first + t].req)
    case _ => true
  }

  /** done_seq is at least `k + 1` at the index of slot `k`. */
  predicate Told(cap: nat, doneSeq: seq<nat>, k: nat)
    requires 0 < cap == |doneSeq|
  {
    doneSeq[Mod(k, cap)] >= k + 1
  }

  ghost predicate ToldBelow(cap: nat, doneSeq: seq<nat>, n: nat)
    requires 0 < cap == |doneSeq|
  {
    forall k: nat | k < n :: Told(cap, doneSeq, k)
  }

  /** done_seq never runs ahead of the completions, and holds only slots of its own index. */
  ghost predicate Truthful(cap: nat, doneSeq: seq<nat>, completed: nat)
    requires 0 < cap == |doneSeq|
  {
    forall p | 0 <= p < cap :: doneSeq[p] <= completed && (doneSeq[p] > 0 ==> Mod(doneSeq[p] - 1, cap) == p)
  }

  ghost predicate ToldBatch(s: State)
    requires 0 < s.cap == |s.doneSeq|
  {
    && (s.sched.Notifying? ==> forall i | 0 <= i < |s.batch| && i in s.sched.told :: Told(s.cap, s.doneSeq, s.head + i))
    && (s.sched.Accounted? ==> ToldBelow(s.cap, s.doneSeq, s.head + |s.batch|))
  }

  function Concat(batches: seq<seq<Request>>): seq<Request> {
    if batches == [] then [] else Concat(batches[..|batches| - 1]) + batches[|batches| - 1]
  }

  ghost predicate Counts(s: State) {
    && |s.batch| <= s.cap && s.served == Concat(s.batches)
    && |s.served| == s.head + (if s.sched.Notifying? || s.sched.Accounted? then |s.batch| else 0)
    && s.submitted == s.head + (if s.sched.Accounted? then |s.batch| else 0)
  }

  ghost predicate Stopping(s: State) {
    && (s.shutdown && !s.early ==> PublishedBelow(s.producers, s.tail))
    && (s.sched.SawShutdown? || s.sched.Scanned? || s.sched.Returned? ==> s.shutdown && |s.batch| == 0)
    && (s.sched.Scanned? && !s.early ==> (s.sched.pending == 0 <==> s.tail == s.head))
    && (s.sched.Returned? && !s.early ==> s.tail == s.head)
  }

  ghost predicate Inv(s: State) {
    && Sized(s) && Counts(s) && PublishedBelow(s.producers, s.head + |s.batch|) && Admitted(s.producers, s.head + s.cap)
    && Stored(s.cap, s.head, s.entries, s.producers) && Marked(s.cap, s.head, s.prodSeq, s.producers)
    && Stamped(s.prodSeq, s.producers) && Copied(s.batch, s.producers, s.head) && Copied(s.served, s.producers, 0)
    && RoundOk(s.sched, s.producers, s.head + |s.batch|, s.cap - |s.batch|)
    && ToldBelow(s.cap, s.doneSeq, s.head) && Truthful(s.cap, s.doneSeq, |s.served|) && ToldBatch(s) && Stopping(s)
  }

  lemma InitInv(cap: nat)
    requires cap > 0
    ensures Inv(Init(cap))
  {
  }

  // ----- steps of producers -----

  /** Producers only ever move forward. */
  ghost predicate Grows(ps: seq<Producer>, qs: seq<Producer>) {
    && |ps| <= |qs|
    && forall k | 0 <= k < |ps| :: qs[k].req == ps[k].req && (IsPublished(ps[k]) ==> IsPublished(qs[k]))
  }

  lemma GrowsKeeps(ps: seq<Producer>, qs: seq<Producer>, n: nat, prodSeq: seq<nat>, rs: seq<Request>, from: nat)
    requires Grows(ps, qs)
    ensures PublishedBelow(ps, n) ==> PublishedBelow(qs, n)
    ensures Stamped(prodSeq, ps) ==> Stamped(prodSeq, qs)
    ensures Copied(rs, ps, from) ==> Copied(rs, qs, from)
  {
  }

  lemma GrowsKeepsRound(ps: seq<Producer>, qs: seq<Producer>, sched: Sched, first: nat, room: nat)
    requires Grows(ps, qs) && RoundOk(sched, ps, first, room)
    ensures RoundOk(sched, qs, first, room)
  {
  }

  /** The parts of the invariant that any forward move of producers keeps. */
  lemma ForwardKeeps(s: State, s': State)
    requires Inv(s) && Sized(s') && Grows(s.producers, s'.producers)
    requires s' == s.(tail := s'.tail, producers := s'.producers, entries := s'.entries, prodSeq := s'.prodSeq, early := s'.early)
    requires Admitted(s'.producers, s.head + s.cap) && Stored(s.cap, s.head, s'.entries, s'.producers)
    requires Marked(s.cap, s.head, s'.prodSeq, s'.producers) && Stamped(s'.prodSeq, s'.producers)
    requires Stopping(s')
    ensures Inv(s')
  {
    hide Admitted, Stored, Marked, Stamped, Truthful, ToldBelow, Copied, PublishedBelow, RoundOk, Grows, Mod;
    GrowsKeeps(s.producers, s'.producers, s.head + |s.batch|, s.prodSeq, s.batch, s.head);
    GrowsKeeps(s.producers, s'.producers, s.head + |s.batch|, s.prodSeq, s.served, 0);
    GrowsKeepsRound(s.producers, s'.producers, s.sched, s.head + |s.batch|, s.cap - |s.batch|);
  }

  /** A producer that stands inside the window is alone at its ring index. */
  lemma AloneAt(cap: nat, head: nat, ps: seq<Producer>, slot: nat, k: nat)
    requires cap > 0 && Admitted(ps, head + cap) && PublishedBelow(ps, head)
    requires slot < |ps| && !ps[slot].phase.Claimed? && !IsPublished(ps[slot])
    requires head <= k < |ps| && !ps[k].phase.Claimed?
    ensures Mod(k, cap) == Mod(slot, cap) <==> k == slot
  {
    ModApart(k, slot, cap);
  }

  lemma ClaimKeeps(s: State, req: Request)
    requires Inv(s)
    ensures Inv(ProducerStep(s, Claim(req)).value)
  {
    hide Mod, Truthful, ToldBelow, RoundOk;
    ForwardKeeps(s, ProducerStep(s, Claim(req)).value);
  }

  /** Moving one producer forward, seen by the predicates that only look at producers. */
  lemma PhaseGrows(s: State, slot: nat, phase: Phase)
    requires Inv(s) && slot < s.tail && slot < s.head + s.cap
    requires IsPublished(s.producers[slot]) ==> phase.Left?
    ensures var ps := WithPhase(s, slot, phase).producers;
            && Grows(s.producers, ps) && Admitted(ps, s.head + s.cap) && Stamped(s.prodSeq, ps)
            && (s.shutdown && !s.early ==> PublishedBelow(ps, s.tail))
  {
    hide Mod, Truthful, ToldBelow, RoundOk, Stored, Marked, Copied;
    var ps := WithPhase(s, slot, phase).producers;
    GrowsKeeps(s.producers, ps, s.tail, s.prodSeq, [], 0);
  }

  lemma HoldsAll(s: State, slot: nat, phase: Phase, entries: seq<Request>)
    requires Inv(s) && slot < s.tail && |entries| == s.cap && s.producers[slot].phase.Writing?
    requires phase != Claimed && Holds(entries[Mod(slot, s.cap)], s.producers[slot].(phase := phase))
    requires entries == s.entries[Mod(slot, s.cap) := entries[Mod(slot, s.cap)]]
    ensures Stored(s.cap, s.head, entries, WithPhase(s, slot, phase).producers)
  {
    hide Mod, Truthful, ToldBelow, RoundOk, Marked, Copied, Stamped, Stopping;
    var ps := WithPhase(s, slot, phase).producers;
    forall k | s.head <= k < s.tail
      ensures Holds(entries[Mod(k, s.cap)], ps[k])
    {
      if entries != s.entries && !s.producers[k].phase.Claimed? { AloneAt(s.cap, s.head, s.producers, slot, k); }
      assert Holds(s.entries[Mod(k, s.cap)], s.producers[k]);
    }
  }

  /** In the window, or already consumed. */
  lemma InWindow(s: State, slot: nat)
    requires Inv(s) && slot < s.tail
    ensures !s.producers[slot].phase.Claimed? ==> slot < s.head + s.cap
    ensures !IsPublished(s.producers[slot]) ==> slot >= s.head
    ensures slot >= s.head ==> Holds(s.entries[Mod(slot, s.cap)], s.producers[slot])
  {
    hide Mod, Truthful, ToldBelow, RoundOk, Marked, Copied, Stamped, Stopping;
  }

  lemma AdmitKeeps(s: State, slot: nat)
    requires Inv(s) && ProducerStep(s, Admit(slot)).Some?
    ensures Inv(ProducerStep(s, Admit(slot)).value)
  {
    hide Mod, Truthful, ToldBelow, RoundOk, Admitted, Stamped, Grows, PublishedBelow, Copied;
    PhaseGrows(s, slot, Writing(0));
    ForwardKeeps(s, ProducerStep(s, Admit(slot)).value);
  }

  lemma StoreFieldKeeps(s: State, slot: nat)
    requires Inv(s) && ProducerStep(s, StoreField(slot)).Some?
    ensures Inv(ProducerStep(s, StoreField(slot)).value)
  {
    hide Mod, Truthful, ToldBelow, RoundOk, Admitted, Stamped, Grows, PublishedBelow, Copied, Stored;
    var s' := ProducerStep(s, StoreField(slot)).value;
    InWindow(s, slot);
    PhaseGrows(s, slot, s'.producers[slot].phase);
    HoldsAll(s, slot, s'.producers[slot].phase, s'.entries);
    ForwardKeeps(s, s');
  }

  lemma AloneInWindow(s: State, slot: nat, k: nat)
    requires Inv(s) && slot < s.tail && s.producers[slot].phase.Writing?
    requires s.head <= k < s.tail && !s.producers[k].phase.Claimed?
    ensures Mod(k, s.cap) == Mod(slot, s.cap) <==> k == slot
  {
    hide Mod, Truthful, ToldBelow, RoundOk, Copied, Stopping, Stored, Marked, Stamped;
    AloneAt(s.cap, s.head, s.producers, slot, k);
  }

  lemma PublishMarks(s: State, slot: nat)
    requires Inv(s) && slot < s.tail && s.producers[slot].phase == Writing(4)
    ensures Marked(s.cap, s.head, s.prodSeq[Index(s, slot) := slot + 1], WithPhase(s, slot, Published).producers)
  {
    hide Mod, Truthful, ToldBelow, RoundOk, Copied, Stopping, Stored, Stamped, Admitted, PublishedBelow;
    var ps, q := WithPhase(s, slot, Published).producers, s.prodSeq[Index(s, slot) := slot + 1];
    forall k | s.head <= k < s.tail && IsPublished(ps[k])
      ensures q[Mod(k, s.cap)] == k + 1
    {
      if k != slot { AloneInWindow(s, slot, k); }
    }
  }

  lemma PublishStamps(s: State, slot: nat)
    requires Inv(s) && slot < s.tail && s.producers[slot].phase == Writing(4)
    ensures Stamped(s.prodSeq[Index(s, slot) := slot + 1], WithPhase(s, slot, Published).producers)
  {
    hide Mod, Truthful, ToldBelow, RoundOk, Copied, Stopping, Stored, Marked, Admitted, PublishedBelow;
  }

  lemma PublishKeeps(s: State, slot: nat)
    requires Inv(s) && ProducerStep(s, Publish(slot)).Some?
    ensures Inv(ProducerStep(s, Publish(slot)).value)
  {
    hide Mod, Truthful, ToldBelow, RoundOk, Admitted, Stamped, Grows, PublishedBelow, Copied, Stored, Marked;
    InWindow(s, slot);
    PhaseGrows(s, slot, Published);
    HoldsAll(s, slot, Published, s.entries);
    PublishMarks(s, slot);
    PublishStamps(s, slot);
    ForwardKeeps(s, ProducerStep(s, Publish(slot)).value);
  }

  lemma LeaveKeeps(s: State, slot: nat)
    requires Inv(s) && ProducerStep(s, Leave(slot)).Some?
    ensures Inv(ProducerStep(s, Leave(slot)).value)
  {
    hide Mod, Truthful, ToldBelow, RoundOk, Admitted, Stamped, Grows, PublishedBelow, Copied, Stored;
    InWindow(s, slot);
    PhaseGrows(s, slot, Left);
    StoredLeft(s, slot);
    ForwardKeeps(s, ProducerStep(s, Leave(slot)).value);
  }

  lemma StoredLeft(s: State, slot: nat)
    requires Inv(s) && slot < s.tail && s.producers[slot].phase.Published?
    ensures Stored(s.cap, s.head, s.entries, WithPhase(s, slot, Left).producers)
  {
    hide Mod, Truthful, ToldBelow, RoundOk, Marked, Copied, Stamped, Stopping;
    forall k | s.head <= k < s.tail
      ensures Holds(s.entries[Mod(k, s.cap)], WithPhase(s, slot, Left).producers[k])
    {
      assert Holds(s.entries[Mod(k, s.cap)], s.producers[k]);
    }
  }

  lemma ShutdownKeeps(s: State)
    requires Inv(s)
    ensures Inv(ProducerStep(s, Shutdown).value)
  {
    hide Mod, Truthful, ToldBelow, RoundOk, Admitted, Stored, Marked, Stamped, Copied;
  }

  // ----- steps of the scheduler -----

  /** Parts that a scheduler step leaves alone when it only moves through a round. */
  lemma RoundKeeps(s: State, s': State)
    requires Inv(s) && s' == s.(sched := s'.sched) && !s.sched.Notifying? && !s.sched.Accounted?
    requires s'.sched.Idle? || s'.sched.Probing? || s'.sched.Loading?
    requires RoundOk(s'.sched, s.producers, s.head + |s.batch|, s.cap - |s.batch|)
    ensures Inv(s')
  {
    hide Mod, Truthful, ToldBelow, RoundOk, Admitted, Stored, Marked, Stamped, Copied, PublishedBelow;
  }

  lemma StartRoundKeeps(s: State)
    requires Inv(s) && DrainStep(s, StartRound).Some?
    ensures Inv(DrainStep(s, StartRound).value)
  {
    hide Mod, Truthful, ToldBelow, Admitted, Stored, Marked, Stamped, Copied;
    RoundKeeps(s, DrainStep(s, StartRound).value);
  }

  /** A marked slot was published by its own producer. */
  lemma ReadyIsPublished(s: State, slot: nat)
    requires Inv(s) && ReadyAt(s, slot)
    ensures slot < s.tail && IsPublished(s.producers[slot])
  {
    hide Mod, Truthful, ToldBelow, RoundOk, Admitted, Stored, Marked, Copied, PublishedBelow;
    assert s.prodSeq[Index(s, slot)] > 0;
  }

  lemma ProbeKeeps(s: State, t: nat)
    requires Inv(s) && DrainStep(s, Probe(t)).Some?
    ensures Inv(DrainStep(s, Probe(t)).value)
  {
    hide Mod, Truthful, ToldBelow, Admitted, Stored, Marked, Stamped, Copied, Stopping, PublishedBelow;
    if ReadyAt(s, s.head + |s.batch| + t) { ReadyIsPublished(s, s.head + |s.batch| + t); }
    RoundKeeps(s, DrainStep(s, Probe(t)).value);
  }

  lemma CountRoundKeeps(s: State)
    requires Inv(s) && DrainStep(s, CountRound).Some?
    ensures Inv(DrainStep(s, CountRound).value)
  {
    hide Mod, Truthful, ToldBelow, Admitted, Stored, Marked, Stamped, Copied, Stopping, Prefix;
    var s' := DrainStep(s, CountRound).value;
    var first, avail := s.head + |s.batch|, s'.sched.avail;
    forall k | 0 <= k < first + avail
      ensures IsPublished(s.producers[k])
    {
      if k >= first { assert s.sched.ready[k - first]; }
    }
    RoundKeeps(s, s');
  }

  /** A published slot of the window still holds its producer's request. */
  lemma PublishedIntact(s: State, slot: nat)
    requires Inv(s) && s.head <= slot < s.tail && IsPublished(s.producers[slot])
    ensures s.entries[Index(s, slot)] == s.producers[slot].req
  {
    hide Mod, Truthful, ToldBelow, RoundOk, Admitted, Marked, Stamped, Copied;
    assert Holds(s.entries[Mod(slot, s.cap)], s.producers[slot]);
  }

  lemma LoadKeeps(s: State, t: nat)
    requires Inv(s) && DrainStep(s, Load(t)).Some?
    ensures Inv(DrainStep(s, Load(t)).value)
  {
    hide Mod, Truthful, ToldBelow, Admitted, Stored, Marked, Stamped, Copied, Stopping;
    PublishedIntact(s, s.head + |s.batch| + t);
    RoundKeeps(s, DrainStep(s, Load(t)).value);
  }

  lemma CloseRoundKeeps(s: State)
    requires Inv(s) && DrainStep(s, CloseRound).Some?
    ensures Inv(DrainStep(s, CloseRound).value)
  {
    hide Mod, Truthful, ToldBelow, Admitted, Stored, Marked, Stamped;
    var s' := DrainStep(s, CloseRound).value;
    forall i | 0 <= i < |s'.batch| ensures s'.batch[i] == s.producers[s.head + i].req {
      if i >= |s.batch| { assert s'.batch[i] == s.sched.got[i - |s.batch|]; }
    }
    assert Copied(s'.batch, s.producers, s.head);
  }

  lemma SubmitKeeps(s: State)
    requires Inv(s) && SubmitStep(s, Submit).Some?
    ensures Inv(SubmitStep(s, Submit).value)
  {
    hide Mod, Truthful, ToldBelow, Admitted, Stored, Marked, Stamped, PublishedBelow;
    var s' := SubmitStep(s, Submit).value;
    assert Copied(s'.served, s.producers, 0) by {
      forall k | 0 <= k < |s'.served| ensures s'.served[k] == s.producers[k].req {
        if k >= |s.served| { assert s'.served[k] == s.batch[k - s.head]; }
      }
    }
    TruthfulGrows(s.cap, s.doneSeq, |s.served|, |s'.served|);
  }

  lemma TruthfulGrows(cap: nat, doneSeq: seq<nat>, m: nat, n: nat)
    requires 0 < cap == |doneSeq| && Truthful(cap, doneSeq, m) && m <= n
    ensures Truthful(cap, doneSeq, n)
  {
    hide Mod;
  }

  /** Storing done_seq for slot `head + i` raises the value there: an older lap's value stands in it. */
  lemma NotifyRaises(cap: nat, doneSeq: seq<nat>, head: nat, n: nat, i: nat)
    requires 0 < cap == |doneSeq| && i < n <= cap && Truthful(cap, doneSeq, head + n)
    ensures doneSeq[Mod(head + i, cap)] <= head + i + 1
  {
    hide Mod;
    var p := Mod(head + i, cap);
    var d := doneSeq[p];
    if d > head + i + 1 {
      ModApart(d - 1, head + i, cap);
    }
  }

  /** Raising one place of done_seq keeps every signal given so far. */
  lemma RaiseKeepsTold(cap: nat, doneSeq: seq<nat>, p: nat, v: nat, n: nat)
    requires 0 < cap == |doneSeq| && p < cap && doneSeq[p] <= v
    ensures ToldBelow(cap, doneSeq, n) ==> ToldBelow(cap, doneSeq[p := v], n)
    ensures forall k: nat | Told(cap, doneSeq, k) :: Told(cap, doneSeq[p := v], k)
  {
    hide Mod;
    var raised := doneSeq[p := v];
    forall k: nat | Told(cap, doneSeq, k) ensures Told(cap, raised, k) {
      assert raised[Mod(k, cap)] >= doneSeq[Mod(k, cap)];
    }
  }

  lemma NotifySignals(cap: nat, doneSeq: seq<nat>, head: nat, n: nat, told: set<nat>, i: nat)
    requires 0 < cap == |doneSeq| && i < n <= cap && Truthful(cap, doneSeq, head + n)
    requires forall j | 0 <= j < n && j in told :: Told(cap, doneSeq, head + j)
    ensures var raised := doneSeq[Mod(head + i, cap) := head + i + 1];
            && Truthful(cap, raised, head + n) && (ToldBelow(cap, doneSeq, head) ==> ToldBelow(cap, raised, head))
            && (forall j | 0 <= j < n && j in told + {i} :: Told(cap, raised, head + j))
  {
    hide Mod, ToldBelow;
    NotifyRaises(cap, doneSeq, head, n, i);
    RaiseKeepsTold(cap, doneSeq, Mod(head + i, cap), head + i + 1, head);
    var raised := doneSeq[Mod(head + i, cap) := head + i + 1];
    forall j | 0 <= j < n && j in told + {i} ensures Told(cap, raised, head + j) {
      if j != i { assert Told(cap, doneSeq, head + j); }
    }
  }

  lemma NotifyKeeps(s: State, i: nat)
    requires Inv(s) && SubmitStep(s, Notify(i)).Some?
    ensures Inv(SubmitStep(s, Notify(i)).value)
  {
    hide Mod, Admitted, Stored, Marked, Stamped, PublishedBelow, Copied, ToldBelow, Stopping, Truthful, Told;
    NotifySignals(s.cap, s.doneSeq, s.head, |s.batch|, s.sched.told, i);
    StoppingSame(s, SubmitStep(s, Notify(i)).value);
  }

  lemma StoppingSame(s: State, s': State)
    requires Stopping(s) && s.sched.Notifying? && s'.sched.Notifying? && s' == s.(sched := s'.sched, doneSeq := s'.doneSeq)
    ensures Stopping(s')
  {
  }

  lemma AccountKeeps(s: State)
    requires Inv(s) && SubmitStep(s, Account).Some?
    ensures Inv(SubmitStep(s, Account).value)
  {
    hide Mod, Admitted, Stored, Marked, Stamped, PublishedBelow, Copied, Truthful, Told;
    forall k: nat | k < s.head + |s.batch| ensures Told(s.cap, s.doneSeq, k) {
      if k >= s.head {
        assert k - s.head in s.sched.told;
        assert Told(s.cap, s.doneSeq, s.head + (k - s.head));
      }
    }
  }

  lemma AdvanceKeeps(s: State)
    requires Inv(s) && SubmitStep(s, Advance).Some?
    ensures Inv(SubmitStep(s, Advance).value)
  {
    hide Mod, Stamped, Truthful, Told;
  }

  lemma CheckShutdownKeeps(s: State)
    requires Inv(s) && SubmitStep(s, CheckShutdown).Some?
    ensures Inv(SubmitStep(s, CheckShutdown).value)
  {
    hide Mod, Admitted, Stored, Marked, Stamped, Copied, Truthful, ToldBelow, PublishedBelow;
  }

  lemma ScanTailKeeps(s: State)
    requires Inv(s) && SubmitStep(s, ScanTail).Some?
    ensures Inv(SubmitStep(s, ScanTail).value)
  {
    hide Mod, Admitted, Stored, Marked, Stamped, Copied, Truthful, ToldBelow;
  }

  lemma ScanFirstKeeps(s: State)
    requires Inv(s) && SubmitStep(s, ScanFirst).Some?
    ensures Inv(SubmitStep(s, ScanFirst).value)
  {
    hide Mod, Admitted, Stored, Stamped, Copied, Truthful, ToldBelow;
  }

  /** Every step of every process keeps the invariant. */
  lemma StepKeeps(s: State, a: Action)
    requires Inv(s) && Step(s, a).Some?
    ensures Inv(Step(s, a).value)
  {
    hide Inv, ProducerStep, DrainStep, SubmitStep, Mod;
    match a
    case Claim(req) => ClaimKeeps(s, req);
    case Admit(slot) => AdmitKeeps(s, slot);
    case StoreField(slot) => StoreFieldKeeps(s, slot);
    case Publish(slot) => PublishKeeps(s, slot);
    case Leave(slot) => LeaveKeeps(s, slot);
    case Shutdown => ShutdownKeeps(s);
    case StartRound => StartRoundKeeps(s);
    case Probe(t) => ProbeKeeps(s, t);
    case CountRound => CountRoundKeeps(s);
    case Load(t) => LoadKeeps(s, t);
    case CloseRound => CloseRoundKeeps(s);
    case Submit => SubmitKeeps(s);
    case Notify(i) => NotifyKeeps(s, i);
    case Account => AccountKeeps(s);
    case Advance => AdvanceKeeps(s);
    case CheckShutdown => CheckShutdownKeeps(s);
    case ScanTail => ScanTailKeeps(s);
    case ScanFirst => ScanFirstKeeps(s);
  }

  /** The state after a run, if each step of it was possible. */
  ghost function Run(cap: nat, actions: seq<Action>): Option<State>
    requires cap > 0
  {
    if actions == [] then Some(Init(cap))
    else
      match Run(cap, actions[..|actions| - 1])
      case None => None
      case Some(s) => if Sized(s) then Step(s, actions[|actions| - 1]) else None
  }

  lemma {:induction false} RunInv(cap: nat, actions: seq<Action>)
    requires cap > 0 && Run(cap, actions).Some?
    ensures Inv(Run(cap, actions).value)
  {
    hide Inv, Step, Init;
    if actions == [] {
      InitInv(cap);
    } else {
      RunInv(cap, actions[..|actions| - 1]);
      StepKeeps(Run(cap, actions[..|actions| - 1]).value, actions[|actions| - 1]);
    }
  }

  // ----- what every run guarantees -----

  /** Ring safety: the device has served exactly the requests of the slots below `|served|`, each once and in slot
      order; what is accumulated continues that sequence and never exceeds the capacity; and a published entry
      stays as its producer wrote it until the head passes it. */
  lemma RingSafety(cap: nat, actions: seq<Action>)
    requires cap > 0 && Run(cap, actions).Some?
    ensures var s := Run(cap, actions).value;
            && Sized(s) && s.head <= |s.served| <= s.tail && s.head + |s.batch| <= s.tail && |s.batch| <= cap == s.cap
            && s.served == Requests(s.producers)[..|s.served|]
            && s.batch == Requests(s.producers)[s.head..s.head + |s.batch|]
            && (forall k | s.head <= k < s.tail && IsPublished(s.producers[k]) ::
                  s.entries[Index(s, k)] == s.producers[k].req)
  {
    hide Run, Inv, Mod;
    RunInv(cap, actions);
    CapConst(cap, actions);
    var s := Run(cap, actions).value;
    InvSafety(s);
  }

  function Requests(ps: seq<Producer>): (rs: seq<Request>)
    ensures |rs| == |ps| && forall k | 0 <= k < |ps| :: rs[k] == ps[k].req
  {
    seq(|ps|, k requires 0 <= k < |ps| => ps[k].req)
  }

  lemma InvSafety(s: State)
    requires Inv(s)
    ensures Sized(s) && s.head <= |s.served| <= s.tail && s.head + |s.batch| <= s.tail && |s.batch| <= s.cap
    ensures s.served == Requests(s.producers)[..|s.served|]
    ensures s.batch == Requests(s.producers)[s.head..s.head + |s.batch|]
    ensures forall k | s.head <= k < s.tail && IsPublished(s.producers[k]) :: s.entries[Index(s, k)] == s.producers[k].req
  {
    hide Mod, Truthful, ToldBelow, RoundOk, Stopping, Marked, Stamped, Admitted;
    forall k | s.head <= k < s.tail && IsPublished(s.producers[k])
      ensures s.entries[Index(s, k)] == s.producers[k].req
    {
      PublishedIntact(s, k);
    }
  }

  lemma {:induction false} CapConst(cap: nat, actions: seq<Action>)
    requires cap > 0 && Run(cap, actions).Some?
    ensures Run(cap, actions).value.cap == cap
  {
    hide Mod;
    if actions != [] { CapConst(cap, actions[..|actions| - 1]); }
  }

  /** Completion is sound: a waiter can leave only once the device completed its own request. */
  lemma WaiterSound(cap: nat, actions: seq<Action>, slot: nat)
    requires cap > 0 && Run(cap, actions).Some? && Sized(Run(cap, actions).value)
    requires Step(Run(cap, actions).value, Leave(slot)).Some?
    ensures var s := Run(cap, actions).value; slot < |s.served| && s.served[slot] == s.producers[slot].req
  {
    hide Run, Mod, ToldBelow, RoundOk, Stopping, Marked, Stamped, Admitted, Stored;
    RunInv(cap, actions);
  }

  /** A signal is never lost: once the head has passed a slot its waiter can always leave. */
  lemma SignalKept(cap: nat, actions: seq<Action>, slot: nat)
    requires cap > 0 && Run(cap, actions).Some? && slot < Run(cap, actions).value.head
    ensures var s := Run(cap, actions).value;
            Sized(s) && slot < s.tail && s.doneSeq[Index(s, slot)] >= slot + 1
            && (s.producers[slot].phase.Published? ==> Step(s, Leave(slot)).Some?)
  {
    hide Run, Mod, RoundOk, Stopping, Marked, Stamped, Admitted, Stored, Truthful;
    RunInv(cap, actions);
    var s := Run(cap, actions).value;
    assert Told(s.cap, s.doneSeq, slot);
  }

  /** done_seq grows, slot by slot, along every step. */
  lemma SignalsMonotone(cap: nat, actions: seq<Action>, a: Action, p: nat)
    requires cap > 0 && Run(cap, actions).Some? && Sized(Run(cap, actions).value) && p < cap
    requires Step(Run(cap, actions).value, a).Some?
    ensures var s, s' := Run(cap, actions).value, Step(Run(cap, actions).value, a).value;
            |s.doneSeq| == |s'.doneSeq| == cap && s.doneSeq[p] <= s'.doneSeq[p]
  {
    hide Run, Mod, RoundOk, Stopping, Marked, Stamped, Admitted, Stored, Copied, PublishedBelow, ToldBelow;
    RunInv(cap, actions);
    CapConst(cap, actions);
    var s := Run(cap, actions).value;
    if a.Notify? {
      NotifyRaises(s.cap, s.doneSeq, s.head, |s.batch|, a.i);
    }
  }

  /** When shutdown follows every publish, the scheduler returns only with the ring empty and all requests counted. */
  lemma ShutdownDrains(cap: nat, actions: seq<Action>)
    requires cap > 0 && Run(cap, actions).Some?
    requires Run(cap, actions).value.sched.Returned? && !Run(cap, actions).value.early
    ensures var s := Run(cap, actions).value; s.head == s.tail == s.submitted == |s.served| && s.served == Requests(s.producers)
  {
    hide Run, Mod, RoundOk, Marked, Stamped, Admitted, Stored, ToldBelow, Truthful;
    RunInv(cap, actions);
    var s := Run(cap, actions).value;
    InvSafety(s);
  }

  /** What the scheduler can do next. */
  ghost function NextOfScheduler(s: State): Action {
    match s.sched
    case Idle => StartRound
    case Probing(_, ready) => if exists t: nat :: t < THREADS && t !in ready then var t: nat :| t < THREADS && t !in ready; Probe(t) else CountRound
    case Loading(avail, got) => if exists t: nat :: t < avail && t !in got then var t: nat :| t < avail && t !in got; Load(t) else CloseRound
    case Notifying(told) =>
      if exists i: nat :: i < |s.batch| && i !in told then var i: nat :| i < |s.batch| && i !in told; Notify(i) else Account
    case Accounted => Advance
    case SawShutdown => ScanTail
    case Scanned(_) => ScanFirst
    case Returned => StartRound
  }

  /** Nobody gets stuck: the scheduler always has a next step until it returns; a producer inside the window can always
      store its next field or publish; and one that waits for room gets it exactly when the head is less than a lap behind. */
  lemma NeverStuck(cap: nat, actions: seq<Action>, slot: nat)
    requires cap > 0 && Run(cap, actions).Some?
    ensures var s := Run(cap, actions).value;
            && Sized(s) && (!s.sched.Returned? ==> Step(s, NextOfScheduler(s)).Some?)
            && (slot < s.tail && s.producers[slot].phase.Writing? ==>
                  Step(s, if s.producers[slot].phase.fields < 4 then StoreField(slot) else Publish(slot)).Some?)
            && (slot < s.tail && s.producers[slot].phase.Claimed? ==>
                  s.head <= slot && (Step(s, Admit(slot)).Some? <==> slot < s.head + s.cap))
  {
    hide Run, Mod, RoundOk, Marked, Stamped, Admitted, ToldBelow, Truthful, Copied, Stopping;
    RunInv(cap, actions);
    var s := Run(cap, actions).value;
    if slot < s.tail { InWindow(s, slot); }
  }
}

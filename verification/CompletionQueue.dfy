// Command identifiers and the shared completion queue (include/nvm_parallel_queue.h): get_cid, cq_poll,
// cq_dequeue, move_head_cq and put_cid by any number of threads, against a controller that posts
// completions in any order of commands, one ring entry after the other.
module CompletionQueue {
  import opened Bits
  import opened Options

  /** Where the thread that runs one command stands. `loc` is the position cq_poll reported. */
  datatype Pc =
    | Trying
    | Own
    | Flying
    | Polling(head: nat, i: nat)
    | Matched(loc: nat)
    | Holding(loc: nat)     // pos_locks taken
    | Marked(loc: nat)      // head_mark stored
    | Cleared(loc: nat)     // saw its mark cleared
    | Leaving(loc: nat)     // saw the head past its position
    | Unlocked(loc: nat)    // pos_locks released
    | Released(loc: nat)    // put_cid done

  /** `at` is the place of the command in the sequence of completions, once it is posted. */
  datatype Thread = Thread(cid: nat, pc: Pc, at: Option<nat>)

  datatype Entry = Entry(cid: nat, phase: nat)

  datatype Mover = Nobody | Scanning(owner: nat, count: nat) | Stopped(owner: nat, count: nat) | Rang(owner: nat, count: nat)
                 | Stored(owner: nat)

  datatype State = State(
    qs: nat, threads: seq<Thread>,
    holder: seq<Option<nat>>,      // sq->cid, with the thread that locked it
    posHolder: seq<Option<nat>>,   // cq->pos_locks, likewise
    entries: seq<Entry>, last: seq<Option<nat>>,   // ring memory, and which completion each entry is
    marks: seq<bool>, head: nat, rung: nat, doorbell: nat, mover: Mover,
    posted: seq<nat>)              // the thread of each completion, in order

  datatype Action =
    | Start
    | TryCid(t: nat, c: nat)
    | Submit(t: nat)
    | Post(t: nat)
    | Snapshot(t: nat)
    | ReadEntry(t: nat)
    | LockPos(t: nat)
    | MarkHead(t: nat)
    | TakeLock(t: nat)
    | Exchange
    | RingDoorbell
    | StoreHead
    | Unlock
    | SeeCleared(t: nat)
    | SeePassed(t: nat)
    | UnlockPos(t: nat)
    | PutCid(t: nat)

  /** Phase tag of a position: one on even laps, zero on odd ones. */
  function PhaseOf(k: nat, qs: nat): (f: nat)
    requires qs > 0
    ensures f < 2
    decreases k
  {
    if k < qs then 1 else 1 - PhaseOf(k - qs, qs)
  }

  function Init(qs: nat, cids: nat): State {
    State(qs, [], seq(cids, _ => None), seq(qs, _ => None), seq(qs, _ => Entry(0, 0)), seq(qs, _ => None),
          seq(qs, _ => false), 0, 0, 0, Nobody, [])
  }

  predicate Sized(s: State) {
    s.qs > 0 && |s.posHolder| == |s.entries| == |s.last| == |s.marks| == s.qs
  }

  function With(s: State, t: nat, pc: Pc): State
    requires t < |s.threads|
  {
    s.(threads := s.threads[t := s.threads[t].(pc := pc)])
  }

  /** get_cid, sq_enqueue (as one step), put_cid, and the controller's post. */
  function CommandStep(s: State, a: Action): Option<State>
    requires Sized(s)
  {
    match a
    case Start => Some(s.(threads := s.threads + [Thread(0, Trying, None)]))
    case TryCid(t, c) =>
      if t < |s.threads| && s.threads[t].pc.Trying? && c < |s.holder| then
        if s.holder[c].None?
        then Some(s.(threads := s.threads[t := Thread(c, Own, None)], holder := s.holder[c := Some(t)]))
        else Some(s)
      else None
    case Submit(t) => if t < |s.threads| && s.threads[t].pc.Own? then Some(With(s, t, Flying)) else None
    case Post(t) =>
      if t < |s.threads| && (s.threads[t].pc.Flying? || s.threads[t].pc.Polling?) && s.threads[t].at.None?
         && Mod(|s.posted| + 1, s.qs) != s.doorbell then
        var k, p := |s.posted|, Mod(|s.posted|, s.qs);
        Some(s.(threads := s.threads[t := s.threads[t].(at := Some(k))], posted := s.posted + [t],
                entries := s.entries[p := Entry(s.threads[t].cid, PhaseOf(k, s.qs))], last := s.last[p := Some(k)]))
      else None
    case PutCid(t) =>
      if t < |s.threads| && s.threads[t].pc.Unlocked? && s.threads[t].cid < |s.holder|
      then Some(With(s, t, Released(s.threads[t].pc.loc)).(holder := s.holder[s.threads[t].cid := None])) else None
    case _ => None
  }

  /** cq_poll. */
  function PollStep(s: State, a: Action): Option<State>
    requires Sized(s)
  {
    match a
    case Snapshot(t) =>
      if t < |s.threads| && s.threads[t].pc.Flying? then Some(With(s, t, Polling(s.head, 0))) else None
    case ReadEntry(t) =>
      if t < |s.threads| && s.threads[t].pc.Polling? then
        var h, i := s.threads[t].pc.head, s.threads[t].pc.i;
        if i + 1 >= s.qs then Some(With(s, t, Flying))
        else
          var e := s.entries[Mod(h + i, s.qs)];
          if e.cid == s.threads[t].cid && e.phase == PhaseOf(h + i, s.qs)
          then Some(With(s, t, Matched(h + i)))
          else if e.phase != PhaseOf(h + i, s.qs) then Some(With(s, t, Flying))
          else Some(With(s, t, Polling(h, i + 1)))
      else None
    case _ => None
  }

  /** cq_dequeue. */
  function DequeueStep(s: State, a: Action): Option<State>
    requires Sized(s)
  {
    match a
    case LockPos(t) =>
      if t < |s.threads| && s.threads[t].pc.Matched? && s.posHolder[Mod(s.threads[t].pc.loc, s.qs)].None? then
        var loc := s.threads[t].pc.loc;
        Some(With(s, t, Holding(loc)).(posHolder := s.posHolder[Mod(loc, s.qs) := Some(t)]))
      else None
    case MarkHead(t) =>
      if t < |s.threads| && s.threads[t].pc.Holding? then
        var loc := s.threads[t].pc.loc;
        Some(With(s, t, Marked(loc)).(marks := s.marks[Mod(loc, s.qs) := true]))
      else None
    case SeeCleared(t) =>
      if t < |s.threads| && s.threads[t].pc.Marked? && !s.marks[Mod(s.threads[t].pc.loc, s.qs)]
         && (s.mover.Nobody? || s.mover.owner != t)
      then Some(With(s, t, Cleared(s.threads[t].pc.loc))) else None
    case SeePassed(t) =>
      if t < |s.threads| && s.threads[t].pc.Cleared? && s.threads[t].pc.loc < s.head
      then Some(With(s, t, Leaving(s.threads[t].pc.loc))) else None
    case UnlockPos(t) =>
      if t < |s.threads| && s.threads[t].pc.Leaving? then
        var loc := s.threads[t].pc.loc;
        Some(With(s, t, Unlocked(loc)).(posHolder := s.posHolder[Mod(loc, s.qs) := None]))
      else None
    case _ => None
  }

  /** The holder of head_lock: exchange marks, ring the CQ doorbell, store the head. */
  function MoverStep(s: State, a: Action): Option<State>
    requires Sized(s)
  {
    match a
    case TakeLock(t) =>
      if t < |s.threads| && s.threads[t].pc.Marked? && s.mover.Nobody? then Some(s.(mover := Scanning(t, 0))) else None
    case Exchange =>
      if s.mover.Scanning? then
        var o, n, p := s.mover.owner, s.mover.count, Mod(s.head + s.mover.count, s.qs);
        Some(s.(marks := s.marks[p := false], mover := if s.marks[p] then Scanning(o, n + 1) else Stopped(o, n)))
      else None
    case RingDoorbell =>
      if s.mover.Stopped? && s.mover.count > 0 then
        Some(s.(doorbell := Mod(s.head + s.mover.count, s.qs), rung := s.head + s.mover.count,
                mover := Rang(s.mover.owner, s.mover.count)))
      else None
    case StoreHead =>
      if s.mover.Rang? then Some(s.(head := s.head + s.mover.count, mover := Stored(s.mover.owner))) else None
    case Unlock =>
      if s.mover.Stored? || (s.mover.Stopped? && s.mover.count == 0) then Some(s.(mover := Nobody)) else None
    case _ => None
  }

  function Step(s: State, a: Action): Option<State>
    requires Sized(s)
  {
    if a.Snapshot? || a.ReadEntry? then PollStep(s, a)
    else if a.LockPos? || a.MarkHead? || a.SeeCleared? || a.SeePassed? || a.UnlockPos? then DequeueStep(s, a)
    else if a.TakeLock? || a.Exchange? || a.RingDoorbell? || a.StoreHead? || a.Unlock? then MoverStep(s, a)
    else CommandStep(s, a)
  }

  // ----- the invariant -----

  predicate HoldsCid(pc: Pc) {
    !pc.Trying? && !pc.Released?
  }

  predicate HoldsPos(pc: Pc) {
    pc.Holding? || pc.Marked? || pc.Cleared? || pc.Leaving?
  }

  predicate HasLoc(pc: Pc) {
    pc.Matched? || HoldsPos(pc) || pc.Unlocked? || pc.Released?
  }

  /** Completions whose mark the mover has taken. */
  function Front(s: State): nat {
    s.head + (if s.mover.Nobody? || s.mover.Stored? then 0 else s.mover.count)
  }

  ghost predicate Counters(s: State) {
    && s.head <= s.rung <= Front(s) <= |s.posted| && |s.posted| + 1 <= s.rung + s.qs
    && (s.mover.Rang? ==> s.rung == Front(s)) && (!s.mover.Rang? ==> s.rung == s.head)
    && s.doorbell == Mod(s.rung, s.qs)
  }

  /** A locked identifier has exactly one holder. */
  ghost predicate Cids(threads: seq<Thread>, holder: seq<Option<nat>>) {
    && (forall t | 0 <= t < |threads| && HoldsCid(threads[t].pc) ::
          threads[t].cid < |holder| && holder[threads[t].cid] == Some(t))
    && (forall c | 0 <= c < |holder| && holder[c].Some? ::
          holder[c].value < |threads| && HoldsCid(threads[holder[c].value].pc) && threads[holder[c].value].cid == c)
  }

  ghost predicate Positions(qs: nat, threads: seq<Thread>, posHolder: seq<Option<nat>>)
    requires 0 < qs == |posHolder|
  {
    && (forall t | 0 <= t < |threads| && HoldsPos(threads[t].pc) :: posHolder[Mod(threads[t].pc.loc, qs)] == Some(t))
    && (forall p | 0 <= p < qs && posHolder[p].Some? ::
          var t := posHolder[p].value;
          t < |threads| && HoldsPos(threads[t].pc) && Mod(threads[t].pc.loc, qs) == p)
  }

  /** Threads and completions name each other. */
  ghost predicate Postings(threads: seq<Thread>, posted: seq<nat>) {
    && (forall k | 0 <= k < |posted| :: posted[k] < |threads| && threads[posted[k]].at == Some(k))
    && (forall t | 0 <= t < |threads| && threads[t].at.Some? ::
          threads[t].at.value < |posted| && posted[threads[t].at.value] == t && !threads[t].pc.Trying? && !threads[t].pc.Own?)
    && (forall t | 0 <= t < |threads| && HasLoc(threads[t].pc) :: threads[t].at == Some(threads[t].pc.loc))
  }

  /** Ring memory: each entry shows the latest completion of its position. */
  ghost predicate Memory(qs: nat, entries: seq<Entry>, last: seq<Option<nat>>, threads: seq<Thread>, posted: seq<nat>)
    requires 0 < qs == |entries| == |last|
  {
    forall p | 0 <= p < qs ::
      match last[p]
      case None => entries[p].phase == 0 && |posted| <= p
      case Some(k) =>
        && k < |posted| <= k + qs && Mod(k, qs) == p && posted[k] < |threads|
        && entries[p] == Entry(threads[posted[k]].cid, PhaseOf(k, qs))
  }

  /** How far a thread may be, by where its completion lies. */
  predicate StageOk(th: Thread, head: nat, front: nat) {
    match th.pc
    case Matched(loc) => loc >= front
    case Holding(loc) => loc >= front
    case Cleared(loc) => loc < front
    case Leaving(loc) => loc < head
    case Unlocked(loc) => loc < head
    case Released(loc) => loc < head
    case Marked(_) => true
    case _ => th.at.Some? ==> th.at.value >= front
  }

  ghost predicate Stages(threads: seq<Thread>, head: nat, front: nat) {
    forall t | 0 <= t < |threads| :: StageOk(threads[t], head, front)
  }

  /** A mark belongs to the holder of the position, whose completion lies at or past the front. */
  ghost predicate Marks(qs: nat, marks: seq<bool>, posHolder: seq<Option<nat>>, threads: seq<Thread>, front: nat)
    requires 0 < qs == |posHolder| == |marks|
  {
    forall p | 0 <= p < qs ::
      marks[p] <==> posHolder[p].Some? && posHolder[p].value < |threads|
                    && threads[posHolder[p].value].pc.Marked? && threads[posHolder[p].value].pc.loc >= front
  }

  /** Completions of other commands under the same identifier lie before the snapshot. */
  ghost predicate Fresh(threads: seq<Thread>, posted: seq<nat>, t: nat, h: nat)
    requires t < |threads|
  {
    forall k | 0 <= k < |posted| && posted[k] < |threads| && posted[k] != t && threads[posted[k]].cid == threads[t].cid :: k < h
  }

  ghost predicate Polls(threads: seq<Thread>, posted: seq<nat>, head: nat) {
    forall t | 0 <= t < |threads| && threads[t].pc.Polling? ::
      threads[t].pc.head <= head && Fresh(threads, posted, t, threads[t].pc.head)
  }

  ghost predicate Core(s: State) {
    && Sized(s) && Counters(s) && Cids(s.threads, s.holder) && Positions(s.qs, s.threads, s.posHolder)
    && Postings(s.threads, s.posted) && Memory(s.qs, s.entries, s.last, s.threads, s.posted)
    && Stages(s.threads, s.head, Front(s)) && Marks(s.qs, s.marks, s.posHolder, s.threads, Front(s))
    && Polls(s.threads, s.posted, s.head)
  }

  lemma InitCore(qs: nat, cids: nat)
    requires qs > 0
    ensures Core(Init(qs, cids))
  {
  }

  // ----- what a match means -----

  lemma {:induction false} PhaseFlips(k: nat, qs: nat)
    requires qs > 0
    ensures PhaseOf(k + qs, qs) == 1 - PhaseOf(k, qs) && Mod(k + qs, qs) == Mod(k, qs)
  {
  }

  /** Any completion of a command other than `t` under `t`'s identifier has been passed by the head. */
  lemma OthersPassed(s: State, t: nat)
    requires Core(s) && t < |s.threads| && HoldsCid(s.threads[t].pc)
    ensures Fresh(s.threads, s.posted, t, s.head)
  {
    hide Mod, Positions, Memory, Marks, Polls, Counters;
    forall k | 0 <= k < |s.posted| && s.posted[k] < |s.threads| && s.posted[k] != t
               && s.threads[s.posted[k]].cid == s.threads[t].cid
      ensures k < s.head
    {
      var u := s.posted[k];
      assert s.threads[u].at == Some(k);
      assert !HoldsCid(s.threads[u].pc);
      assert StageOk(s.threads[u], s.head, Front(s));
    }
  }

  /** The entry cq_poll looks at is never older than one lap before the place it looks for, so equal phases rule
      out everything older than that place. */
  lemma EntryNotStale(s: State, h: nat, i: nat)
    requires Core(s) && h <= s.head && i < s.qs && s.entries[Mod(h + i, s.qs)].phase == PhaseOf(h + i, s.qs)
    ensures var e := s.last[Mod(h + i, s.qs)]; e.Some? && e.value >= h + i
  {
    hide Cids, Positions, Postings, Marks, Polls, Stages, Mod;
    var p, e := Mod(h + i, s.qs), s.last[Mod(h + i, s.qs)];
    if e.None? {
      NothingThere(h + i, |s.posted|, s.qs);
    } else if e.value < h + i {
      ModApart(e.value + s.qs, h + i, s.qs);
      PhaseFlips(e.value, s.qs);
    }
  }

  lemma NothingThere(k: nat, posted: nat, qs: nat)
    requires qs > 0 && posted <= Mod(k, qs) && k < posted + qs
    ensures k < qs && PhaseOf(k, qs) == 1
  {
  }

  predicate Matches(s: State, t: nat)
    requires Sized(s)
  {
    && t < |s.threads| && s.threads[t].pc.Polling? && s.threads[t].pc.i + 1 < s.qs
    && var k := s.threads[t].pc.head + s.threads[t].pc.i;
       s.entries[Mod(k, s.qs)] == Entry(s.threads[t].cid, PhaseOf(k, s.qs))
  }

  lemma CoreSized(s: State)
    requires Core(s)
    ensures Sized(s)
  {
    hide Mod, Cids, Memory, Marks, Positions, Postings, Polls, Stages;
  }

  /** The entry at position `k` shows the completion of `t`, posted at or past `k` with the phase and place of `k`. */
  predicate ShowsOwn(s: State, t: nat, k: nat)
    requires Sized(s) && t < |s.threads|
  {
    var e := s.last[Mod(k, s.qs)];
    e.Some? && e.value >= k && Mod(e.value, s.qs) == Mod(k, s.qs) && PhaseOf(e.value, s.qs) == PhaseOf(k, s.qs)
    && e.value < |s.posted| <= e.value + s.qs && s.posted[e.value] == t && s.threads[t].at == e
  }

  /** cq_poll only ever stops at the completion of the caller's own command. */
  lemma MatchIsOwn(s: State, t: nat)
    requires Sized(s) && Matches(s, t) && Core(s)
    ensures ShowsOwn(s, t, s.threads[t].pc.head + s.threads[t].pc.i)
  {
    hide Cids, Positions, Marks, Stages, Mod, Counters, PhaseOf;
    var h, i := s.threads[t].pc.head, s.threads[t].pc.i;
    EntryNotStale(s, h, i);
    var e := s.last[Mod(h + i, s.qs)];
    assert s.entries[Mod(h + i, s.qs)] == Entry(s.threads[s.posted[e.value]].cid, PhaseOf(e.value, s.qs));
    assert Fresh(s.threads, s.posted, t, h);
  }

  /** The position it reports is that completion's exactly when fewer than two laps were posted past it. */
  lemma MatchExact(s: State, t: nat)
    requires Core(s) && Matches(s, t)
    ensures var k := s.threads[t].pc.head + s.threads[t].pc.i;
            s.threads[t].at == Some(k) <==> |s.posted| <= k + 2 * s.qs
  {
    hide Core, Mod, PhaseOf;
    CoreSized(s);
    MatchIsOwn(s, t);
    var k := s.threads[t].pc.head + s.threads[t].pc.i;
    var e := s.last[Mod(k, s.qs)].value;
    TwoLaps(e, k, s.qs);
  }

  /** A poll that matches two laps or more after the position it looks for. */
  predicate Lapped(s: State, a: Action)
    requires Sized(s)
  {
    a.ReadEntry? && Matches(s, a.t) && |s.posted| > s.threads[a.t].pc.head + s.threads[a.t].pc.i + 2 * s.qs
  }

  lemma TwoLaps(e: nat, k: nat, qs: nat)
    requires qs > 0 && k <= e && Mod(e, qs) == Mod(k, qs) && PhaseOf(e, qs) == PhaseOf(k, qs)
    ensures e == k || e >= k + 2 * qs
  {
    hide Mod, PhaseOf;
    if k < e < k + qs {
      ModApart(e, k, qs);
    } else if k + qs <= e < k + 2 * qs {
      PhaseFlips(k, qs);
      ModApart(e, k + qs, qs);
    }
  }

  // ----- every step keeps the invariant, except a lapped poll -----

  /** A thread moves on without touching its identifier, its position lock or its completion. */
  lemma PcKeepsTables(s: State, t: nat, pc: Pc)
    requires Core(s) && t < |s.threads|
    requires HoldsCid(s.threads[t].pc) && HoldsCid(pc)
    ensures Cids(s.threads[t := s.threads[t].(pc := pc)], s.holder)
    ensures Memory(s.qs, s.entries, s.last, s.threads[t := s.threads[t].(pc := pc)], s.posted)
  {
    hide Mod, Counters, Positions, Postings, Stages, Marks, Polls, PhaseOf;
  }

  lemma PcKeepsPostings(s: State, t: nat, pc: Pc)
    requires Core(s) && t < |s.threads| && !pc.Trying? && !pc.Own?
    requires HasLoc(pc) ==> s.threads[t].at == Some(pc.loc)
    ensures Postings(s.threads[t := s.threads[t].(pc := pc)], s.posted)
  {
    hide Mod, Counters, Positions, Cids, Memory, Stages, Marks, Polls, PhaseOf;
  }

  lemma PcKeepsPolls(s: State, t: nat, pc: Pc)
    requires Core(s) && t < |s.threads|
    requires pc.Polling? ==> pc.head <= s.head && Fresh(s.threads, s.posted, t, pc.head)
    ensures Polls(s.threads[t := s.threads[t].(pc := pc)], s.posted, s.head)
  {
    hide Mod, Counters, Positions, Cids, Memory, Stages, Marks, Postings, PhaseOf;
    var threads := s.threads[t := s.threads[t].(pc := pc)];
    forall u | 0 <= u < |threads| && threads[u].pc.Polling?
      ensures threads[u].pc.head <= s.head && Fresh(threads, s.posted, u, threads[u].pc.head)
    {
      FreshSame(s.threads, threads, s.posted, u, threads[u].pc.head);
    }
  }

  lemma FreshSame(threads: seq<Thread>, threads': seq<Thread>, posted: seq<nat>, t: nat, h: nat)
    requires t < |threads| == |threads'| && Fresh(threads, posted, t, h)
    requires forall u | 0 <= u < |threads| :: threads'[u].cid == threads[u].cid
    ensures Fresh(threads', posted, t, h)
  {
  }

  /** ... and leaves the position locks alone when it neither takes nor drops one. */
  lemma PcKeepsPositions(s: State, t: nat, pc: Pc)
    requires Core(s) && t < |s.threads| && HoldsPos(pc) == HoldsPos(s.threads[t].pc)
    requires HoldsPos(pc) ==> pc.loc == s.threads[t].pc.loc
    ensures Positions(s.qs, s.threads[t := s.threads[t].(pc := pc)], s.posHolder)
  {
    hide Mod, Counters, Polls, Cids, Memory, Stages, Marks, Postings, PhaseOf;
  }

  /** Marks look at marked threads only. */
  lemma PcKeepsMarks(s: State, t: nat, pc: Pc)
    requires Core(s) && t < |s.threads| && !pc.Marked?
    requires s.threads[t].pc.Marked? ==> s.threads[t].pc.loc < Front(s)
    ensures Marks(s.qs, s.marks, s.posHolder, s.threads[t := s.threads[t].(pc := pc)], Front(s))
  {
    hide Mod, Counters, Polls, Cids, Memory, Stages, Positions, Postings, PhaseOf;
  }

  lemma PcKeepsStages(s: State, t: nat, pc: Pc)
    requires Core(s) && t < |s.threads| && StageOk(s.threads[t].(pc := pc), s.head, Front(s))
    ensures Stages(s.threads[t := s.threads[t].(pc := pc)], s.head, Front(s))
  {
    hide Mod, Counters, Polls, Cids, Memory, Marks, Positions, Postings, PhaseOf, StageOk;
  }

  /** A step that changes nothing but one thread's program counter, from a state where it is not marked. */
  lemma PcKeeps(s: State, t: nat, pc: Pc)
    requires Core(s) && t < |s.threads| && HoldsCid(s.threads[t].pc) && HoldsCid(pc) && !pc.Own? && !pc.Marked?
    requires HasLoc(pc) ==> s.threads[t].at == Some(pc.loc)
    requires pc.Polling? ==> pc.head <= s.head && Fresh(s.threads, s.posted, t, pc.head)
    requires HoldsPos(pc) == HoldsPos(s.threads[t].pc) && (HoldsPos(pc) ==> pc.loc == s.threads[t].pc.loc)
    requires s.threads[t].pc.Marked? ==> s.threads[t].pc.loc < Front(s)
    requires StageOk(s.threads[t].(pc := pc), s.head, Front(s))
    ensures Core(With(s, t, pc))
  {
    hide Mod, Cids, Memory, Marks, Positions, Postings, Polls, Stages, PhaseOf, StageOk;
    PcKeepsTables(s, t, pc);
    PcKeepsPostings(s, t, pc);
    PcKeepsPolls(s, t, pc);
    PcKeepsPositions(s, t, pc);
    PcKeepsMarks(s, t, pc);
    PcKeepsStages(s, t, pc);
  }

  lemma StageAt(s: State, t: nat)
    requires Core(s) && t < |s.threads|
    ensures StageOk(s.threads[t], s.head, Front(s))
    ensures HasLoc(s.threads[t].pc) ==> s.threads[t].at == Some(s.threads[t].pc.loc)
    ensures s.threads[t].pc.Polling? ==> s.threads[t].pc.head <= s.head && Fresh(s.threads, s.posted, t, s.threads[t].pc.head)
    ensures HoldsCid(s.threads[t].pc) ==> s.threads[t].cid < |s.holder| && s.holder[s.threads[t].cid] == Some(t)
    ensures HoldsPos(s.threads[t].pc) ==> s.posHolder[Mod(s.threads[t].pc.loc, s.qs)] == Some(t)
    ensures HoldsPos(s.threads[t].pc) ==>
              (s.marks[Mod(s.threads[t].pc.loc, s.qs)] <==> s.threads[t].pc.Marked? && s.threads[t].pc.loc >= Front(s))
  {
    hide Mod, PhaseOf, StageOk, Fresh, Counters, Memory;
  }

  lemma SubmitKeeps(s: State, t: nat)
    requires Core(s) && CommandStep(s, Submit(t)).Some?
    ensures Core(CommandStep(s, Submit(t)).value)
  {
    hide Core, Mod;
    StageAt(s, t);
    PcKeeps(s, t, Flying);
  }

  lemma SnapshotKeeps(s: State, t: nat)
    requires Core(s) && PollStep(s, Snapshot(t)).Some?
    ensures Core(PollStep(s, Snapshot(t)).value)
  {
    hide Core, Mod, Fresh;
    StageAt(s, t);
    OthersPassed(s, t);
    PcKeeps(s, t, Polling(s.head, 0));
  }

  lemma ReadEntryKeeps(s: State, t: nat)
    requires Core(s) && PollStep(s, ReadEntry(t)).Some? && !Lapped(s, ReadEntry(t))
    ensures Core(PollStep(s, ReadEntry(t)).value)
  {
    hide Core, Mod, Fresh, PhaseOf;
    CoreSized(s);
    StageAt(s, t);
    var h, i := s.threads[t].pc.head, s.threads[t].pc.i;
    if Matches(s, t) {
      MatchIsOwn(s, t);
      MatchExact(s, t);
      PcKeeps(s, t, Matched(h + i));
    } else if i + 1 >= s.qs || s.entries[Mod(h + i, s.qs)].phase != PhaseOf(h + i, s.qs) {
      PcKeeps(s, t, Flying);
    } else {
      PcKeeps(s, t, Polling(h, i + 1));
    }
  }

  lemma SeeClearedKeeps(s: State, t: nat)
    requires Core(s) && DequeueStep(s, SeeCleared(t)).Some?
    ensures Core(DequeueStep(s, SeeCleared(t)).value)
  {
    hide Core, Mod;
    StageAt(s, t);
    PcKeeps(s, t, Cleared(s.threads[t].pc.loc));
  }

  lemma SeePassedKeeps(s: State, t: nat)
    requires Core(s) && DequeueStep(s, SeePassed(t)).Some?
    ensures Core(DequeueStep(s, SeePassed(t)).value)
  {
    hide Core, Mod;
    StageAt(s, t);
    PcKeeps(s, t, Leaving(s.threads[t].pc.loc));
  }

  lemma StartTables(s: State, th: Thread)
    requires Core(s) && th == Thread(0, Trying, None)
    ensures Cids(s.threads + [th], s.holder) && Postings(s.threads + [th], s.posted)
    ensures Stages(s.threads + [th], s.head, Front(s))
  {
    hide Mod, PhaseOf, Positions, Marks, Polls, Memory, Counters;
  }

  lemma StartPositions(s: State, th: Thread)
    requires Core(s) && th == Thread(0, Trying, None)
    ensures Positions(s.qs, s.threads + [th], s.posHolder) && Marks(s.qs, s.marks, s.posHolder, s.threads + [th], Front(s))
  {
    hide Mod, PhaseOf, Cids, Postings, Stages, Polls, Memory, Counters;
  }

  lemma StartPolls(s: State, th: Thread)
    requires Core(s) && th == Thread(0, Trying, None)
    ensures Polls(s.threads + [th], s.posted, s.head) && Memory(s.qs, s.entries, s.last, s.threads + [th], s.posted)
  {
    hide Mod, PhaseOf, Cids, Stages, Positions, Marks, Counters;
    var ths := s.threads + [th];
    forall u | 0 <= u < |ths| && ths[u].pc.Polling?
      ensures ths[u].pc.head <= s.head && Fresh(ths, s.posted, u, ths[u].pc.head)
    {
      assert Fresh(s.threads, s.posted, u, s.threads[u].pc.head);
    }
  }

  lemma StartKeeps(s: State)
    requires Core(s)
    ensures Core(CommandStep(s, Start).value)
  {
    hide Mod, PhaseOf, Cids, Postings, Stages, Positions, Marks, Polls, Memory;
    StartTables(s, Thread(0, Trying, None));
    StartPolls(s, Thread(0, Trying, None));
    StartPositions(s, Thread(0, Trying, None));
  }

  lemma TryCidTables(s: State, t: nat, c: nat)
    requires Core(s) && CommandStep(s, TryCid(t, c)).Some?
    ensures var s' := CommandStep(s, TryCid(t, c)).value;
            Cids(s'.threads, s'.holder) && Memory(s'.qs, s'.entries, s'.last, s'.threads, s'.posted)
  {
    hide Mod, PhaseOf, Positions, Marks, Polls, Stages, Counters;
  }

  lemma TryCidPolls(s: State, t: nat, c: nat)
    requires Core(s) && CommandStep(s, TryCid(t, c)).Some?
    ensures var s' := CommandStep(s, TryCid(t, c)).value; Polls(s'.threads, s'.posted, s'.head)
  {
    hide Mod, PhaseOf, Positions, Marks, Memory, Stages, Counters, Cids;
    var s' := CommandStep(s, TryCid(t, c)).value;
    forall u | 0 <= u < |s'.threads| && s'.threads[u].pc.Polling?
      ensures s'.threads[u].pc.head <= s.head && Fresh(s'.threads, s'.posted, u, s'.threads[u].pc.head)
    {
      assert Fresh(s.threads, s.posted, u, s.threads[u].pc.head);
      assert forall k | 0 <= k < |s.posted| :: s.posted[k] != t;
    }
  }

  lemma TryCidPositions(s: State, t: nat, c: nat)
    requires Core(s) && CommandStep(s, TryCid(t, c)).Some?
    ensures var s' := CommandStep(s, TryCid(t, c)).value;
            Positions(s'.qs, s'.threads, s'.posHolder) && Marks(s'.qs, s'.marks, s'.posHolder, s'.threads, Front(s'))
  {
    hide Mod, PhaseOf, Cids, Memory, Polls, Postings, Stages, Counters;
  }

  lemma TryCidKeeps(s: State, t: nat, c: nat)
    requires Core(s) && CommandStep(s, TryCid(t, c)).Some?
    ensures Core(CommandStep(s, TryCid(t, c)).value)
  {
    hide Mod, PhaseOf, Cids, Memory, Polls, Positions, Marks;
    TryCidPositions(s, t, c);
    TryCidTables(s, t, c);
    TryCidPolls(s, t, c);
  }

  lemma RoomToPost(s: State)
    requires Core(s) && Mod(|s.posted| + 1, s.qs) != s.doorbell
    ensures |s.posted| + 2 <= s.rung + s.qs
  {
    hide Mod, PhaseOf, Cids, Memory, Marks, Positions, Postings, Polls, Stages;
    PhaseFlips(s.rung, s.qs);
  }

  lemma PostMemory(s: State, t: nat)
    requires Core(s) && CommandStep(s, Post(t)).Some?
    ensures var s' := CommandStep(s, Post(t)).value; Memory(s'.qs, s'.entries, s'.last, s'.threads, s'.posted)
  {
    hide Mod, PhaseOf, Cids, Marks, Positions, Polls, Stages, Counters;
    var s', n := CommandStep(s, Post(t)).value, |s.posted|;
    forall p | 0 <= p < s.qs && p != Mod(n, s.qs)
      ensures s.last[p].Some? ==> n < s.last[p].value + s.qs
      ensures s.last[p].None? ==> n < p
    {
      if s.last[p].Some? { PhaseFlips(s.last[p].value, s.qs); } else if n == p { SmallMod(p, s.qs); }
    }
  }

  lemma SmallMod(p: nat, qs: nat)
    requires p < qs
    ensures Mod(p, qs) == p
  {
  }

  lemma PostPolls(s: State, t: nat)
    requires Core(s) && CommandStep(s, Post(t)).Some?
    ensures var s' := CommandStep(s, Post(t)).value; Polls(s'.threads, s'.posted, s'.head)
  {
    hide Mod, PhaseOf, Memory, Marks, Positions, Stages, Counters;
    var s' := CommandStep(s, Post(t)).value;
    forall u | 0 <= u < |s'.threads| && s'.threads[u].pc.Polling?
      ensures s'.threads[u].pc.head <= s.head && Fresh(s'.threads, s'.posted, u, s'.threads[u].pc.head)
    {
      assert Fresh(s.threads, s.posted, u, s.threads[u].pc.head);
      assert u != t ==> s.threads[u].cid != s.threads[t].cid;
    }
  }

  lemma AtKeepsCids(threads: seq<Thread>, holder: seq<Option<nat>>, t: nat, at: Option<nat>)
    requires t < |threads| && Cids(threads, holder)
    ensures Cids(threads[t := threads[t].(at := at)], holder)
  {
  }

  lemma AtKeepsPositions(qs: nat, threads: seq<Thread>, posHolder: seq<Option<nat>>, marks: seq<bool>, front: nat, t: nat, at: Option<nat>)
    requires 0 < qs == |posHolder| == |marks| && t < |threads|
    ensures Positions(qs, threads, posHolder) ==> Positions(qs, threads[t := threads[t].(at := at)], posHolder)
    ensures Marks(qs, marks, posHolder, threads, front) ==> Marks(qs, marks, posHolder, threads[t := threads[t].(at := at)], front)
  {
    hide Mod;
  }

  lemma PostPostings(s: State, t: nat)
    requires Core(s) && CommandStep(s, Post(t)).Some?
    ensures var s' := CommandStep(s, Post(t)).value; Postings(s'.threads, s'.posted)
  {
    hide Mod, PhaseOf, Memory, Polls, Cids, Positions, Marks, Counters, Stages;
  }

  lemma PostStages(s: State, t: nat)
    requires Core(s) && CommandStep(s, Post(t)).Some?
    ensures var s' := CommandStep(s, Post(t)).value; Stages(s'.threads, s'.head, Front(s'))
  {
    hide Mod, PhaseOf, Memory, Polls, Cids, Positions, Marks, Postings;
  }

  lemma PostKeeps(s: State, t: nat)
    requires Core(s) && CommandStep(s, Post(t)).Some?
    ensures Core(CommandStep(s, Post(t)).value)
  {
    hide Mod, PhaseOf, Cids, Memory, Marks, Positions, Postings, Polls, Stages;
    RoomToPost(s);
    PostMemory(s, t);
    PostPolls(s, t);
    PostPostings(s, t);
    PostStages(s, t);
    AtKeepsCids(s.threads, s.holder, t, Some(|s.posted|));
    AtKeepsPositions(s.qs, s.threads, s.posHolder, s.marks, Front(s), t, Some(|s.posted|));
  }

  lemma PutCidTables(s: State, t: nat)
    requires Core(s) && CommandStep(s, PutCid(t)).Some?
    ensures var s' := CommandStep(s, PutCid(t)).value;
            Cids(s'.threads, s'.holder) && Memory(s'.qs, s'.entries, s'.last, s'.threads, s'.posted)
  {
    hide Mod, PhaseOf, Polls, Positions, Marks, Postings, Stages, Counters;
  }

  lemma PutCidKeeps(s: State, t: nat)
    requires Core(s) && CommandStep(s, PutCid(t)).Some?
    ensures Core(CommandStep(s, PutCid(t)).value)
  {
    hide Mod, PhaseOf, Cids, Memory, Polls, Positions, Marks, Postings, Stages;
    StageAt(s, t);
    var pc := Released(s.threads[t].pc.loc);
    PutCidTables(s, t);
    PcKeepsPostings(s, t, pc);
    PcKeepsPolls(s, t, pc);
    PcKeepsPositions(s, t, pc);
    PcKeepsMarks(s, t, pc);
    PcKeepsStages(s, t, pc);
  }

  lemma LockPositions(s: State, t: nat)
    requires Core(s) && DequeueStep(s, LockPos(t)).Some?
    ensures var s' := DequeueStep(s, LockPos(t)).value; Positions(s'.qs, s'.threads, s'.posHolder)
  {
    hide Mod, PhaseOf, Cids, Memory, Polls, Marks, Postings, Stages, Counters;
  }

  lemma LockMarks(s: State, t: nat)
    requires Core(s) && DequeueStep(s, LockPos(t)).Some?
    ensures var s' := DequeueStep(s, LockPos(t)).value; Marks(s'.qs, s'.marks, s'.posHolder, s'.threads, Front(s'))
  {
    hide Mod, PhaseOf, Cids, Memory, Polls, Positions, Postings, Stages, Counters;
  }

  lemma LockPosKeeps(s: State, t: nat)
    requires Core(s) && DequeueStep(s, LockPos(t)).Some?
    ensures Core(DequeueStep(s, LockPos(t)).value)
  {
    hide Mod, PhaseOf, Cids, Memory, Polls, Positions, Marks, Postings, Stages;
    StageAt(s, t);
    var pc := Holding(s.threads[t].pc.loc);
    LockPositions(s, t);
    LockMarks(s, t);
    PcKeepsTables(s, t, pc);
    PcKeepsPostings(s, t, pc);
    PcKeepsPolls(s, t, pc);
    PcKeepsStages(s, t, pc);
  }

  lemma MarkMarks(s: State, t: nat)
    requires Core(s) && DequeueStep(s, MarkHead(t)).Some? && s.threads[t].pc.loc >= Front(s)
    ensures var s' := DequeueStep(s, MarkHead(t)).value; Marks(s'.qs, s'.marks, s'.posHolder, s'.threads, Front(s'))
  {
    hide Mod, PhaseOf, Cids, Memory, Polls, Postings, Stages, Counters;
  }

  lemma MarkHeadKeeps(s: State, t: nat)
    requires Core(s) && DequeueStep(s, MarkHead(t)).Some?
    ensures Core(DequeueStep(s, MarkHead(t)).value)
  {
    hide Mod, PhaseOf, Cids, Memory, Polls, Positions, Marks, Postings, Stages;
    StageAt(s, t);
    var pc := Marked(s.threads[t].pc.loc);
    MarkMarks(s, t);
    PcKeepsTables(s, t, pc);
    PcKeepsPostings(s, t, pc);
    PcKeepsPolls(s, t, pc);
    PcKeepsPositions(s, t, pc);
    PcKeepsStages(s, t, pc);
  }

  lemma UnlockPositions(s: State, t: nat)
    requires Core(s) && DequeueStep(s, UnlockPos(t)).Some?
    ensures var s' := DequeueStep(s, UnlockPos(t)).value; Positions(s'.qs, s'.threads, s'.posHolder)
  {
    hide Mod, PhaseOf, Cids, Memory, Polls, Marks, Postings, Stages, Counters;
  }

  lemma UnlockMarks(s: State, t: nat)
    requires Core(s) && DequeueStep(s, UnlockPos(t)).Some?
    ensures var s' := DequeueStep(s, UnlockPos(t)).value; Marks(s'.qs, s'.marks, s'.posHolder, s'.threads, Front(s'))
  {
    hide Mod, PhaseOf, Cids, Memory, Polls, Postings, Stages, Counters;
  }

  lemma UnlockPosKeeps(s: State, t: nat)
    requires Core(s) && DequeueStep(s, UnlockPos(t)).Some?
    ensures Core(DequeueStep(s, UnlockPos(t)).value)
  {
    hide Mod, PhaseOf, Cids, Memory, Polls, Positions, Marks, Postings, Stages;
    StageAt(s, t);
    var pc := Unlocked(s.threads[t].pc.loc);
    UnlockPositions(s, t);
    UnlockMarks(s, t);
    PcKeepsTables(s, t, pc);
    PcKeepsPostings(s, t, pc);
    PcKeepsPolls(s, t, pc);
    PcKeepsStages(s, t, pc);
  }

  lemma TakeLockKeeps(s: State, t: nat)
    requires Core(s) && MoverStep(s, TakeLock(t)).Some?
    ensures Core(MoverStep(s, TakeLock(t)).value)
  {
    hide Mod, PhaseOf, Cids, Memory, Marks, Positions, Postings, Polls, Stages;
  }

  /** A mark taken at the front is the claim of the completion at the front by its owner. */
  lemma MarkAtFront(s: State)
    requires Core(s) && s.marks[Mod(Front(s), s.qs)]
    ensures var f := Front(s);
            && f < |s.posted| && s.posted[f] < |s.threads| && s.posHolder[Mod(f, s.qs)] == Some(s.posted[f])
            && s.threads[s.posted[f]].pc == Marked(f) && s.threads[s.posted[f]].at == Some(f)
  {
    hide Mod, PhaseOf, Cids, Memory, Polls, Stages;
    var f := Front(s);
    var t := s.posHolder[Mod(f, s.qs)].value;
    var loc := s.threads[t].pc.loc;
    assert s.threads[t].at == Some(loc);
    ModApart(loc, f, s.qs);
  }

  lemma ExchangeStages(s: State)
    requires Core(s) && s.mover.Scanning? && s.marks[Mod(Front(s), s.qs)]
    ensures Stages(s.threads, s.head, Front(s) + 1)
    ensures Marks(s.qs, s.marks[Mod(Front(s), s.qs) := false], s.posHolder, s.threads, Front(s) + 1)
  {
    hide Mod, PhaseOf, Cids, Memory, Polls, Counters;
    MarkAtFront(s);
    var f := Front(s);
    forall t | 0 <= t < |s.threads| ensures StageOk(s.threads[t], s.head, f + 1) {
      assert StageOk(s.threads[t], s.head, f);
      if s.threads[t].at == Some(f) { assert t == s.posted[f]; }
    }
  }

  lemma ExchangeKeeps(s: State)
    requires Core(s) && MoverStep(s, Exchange).Some?
    ensures Core(MoverStep(s, Exchange).value)
  {
    hide Mod, PhaseOf, Cids, Memory, Positions, Postings, Polls, Stages, Marks;
    var p := Mod(Front(s), s.qs);
    if s.marks[p] {
      MarkAtFront(s);
      ExchangeStages(s);
    } else {
      assert s.marks[p := false] == s.marks;
    }
  }

  lemma RingDoorbellKeeps(s: State)
    requires Core(s) && MoverStep(s, RingDoorbell).Some?
    ensures Core(MoverStep(s, RingDoorbell).value)
  {
    hide Mod, PhaseOf, Cids, Memory, Marks, Positions, Postings, Polls, Stages;
  }

  lemma StoreHeadKeeps(s: State)
    requires Core(s) && MoverStep(s, StoreHead).Some?
    ensures Core(MoverStep(s, StoreHead).value)
  {
    hide Mod, PhaseOf, Cids, Memory, Marks, Positions, Postings, Fresh;
  }

  lemma UnlockKeeps(s: State)
    requires Core(s) && MoverStep(s, Unlock).Some?
    ensures Core(MoverStep(s, Unlock).value)
  {
    hide Mod, PhaseOf, Cids, Memory, Marks, Positions, Postings, Polls, Stages;
  }

  /** Every step keeps the invariant exactly when it is not a lapped poll. */
  lemma StepKeepsIff(s: State, a: Action)
    requires Core(s) && Step(s, a).Some?
    ensures Core(Step(s, a).value) <==> !Lapped(s, a)
  {
    hide Core, Step, Mod, PhaseOf;
    CoreSized(s);
    if Lapped(s, a) {
      LappedBreaks(s, a.t);
    } else {
      StepKeeps(s, a);
    }
  }

  lemma LappedBreaks(s: State, t: nat)
    requires Core(s) && Lapped(s, ReadEntry(t))
    ensures Step(s, ReadEntry(t)).Some? && !Core(Step(s, ReadEntry(t)).value)
  {
    hide Mod, PhaseOf, Cids, Memory, Polls, Positions, Marks, Stages, Counters;
    MatchExact(s, t);
    var s' := Step(s, ReadEntry(t)).value;
    assert HasLoc(s'.threads[t].pc);
  }

  lemma StepKeeps(s: State, a: Action)
    requires Core(s) && Step(s, a).Some? && !Lapped(s, a)
    ensures Core(Step(s, a).value)
  {
    hide Core, CommandStep, PollStep, DequeueStep, MoverStep;
    match a
    case Start => StartKeeps(s);
    case TryCid(t, c) => TryCidKeeps(s, t, c);
    case Submit(t) => SubmitKeeps(s, t);
    case Post(t) => PostKeeps(s, t);
    case Snapshot(t) => SnapshotKeeps(s, t);
    case ReadEntry(t) => ReadEntryKeeps(s, t);
    case LockPos(t) => LockPosKeeps(s, t);
    case MarkHead(t) => MarkHeadKeeps(s, t);
    case TakeLock(t) => TakeLockKeeps(s, t);
    case Exchange => ExchangeKeeps(s);
    case RingDoorbell => RingDoorbellKeeps(s);
    case StoreHead => StoreHeadKeeps(s);
    case Unlock => UnlockKeeps(s);
    case SeeCleared(t) => SeeClearedKeeps(s, t);
    case SeePassed(t) => SeePassedKeeps(s, t);
    case UnlockPos(t) => UnlockPosKeeps(s, t);
    case PutCid(t) => PutCidKeeps(s, t);
  }

  ghost function Run(qs: nat, cids: nat, actions: seq<Action>): Option<State>
    requires qs > 0
  {
    if actions == [] then Some(Init(qs, cids))
    else
      match Run(qs, cids, actions[..|actions| - 1])
      case None => None
      case Some(s) => if Sized(s) then Step(s, actions[|actions| - 1]) else None
  }

  /** Along the run every poll matched less than two laps after the position it looked for. */
  ghost predicate Exact(qs: nat, cids: nat, actions: seq<Action>)
    requires qs > 0
  {
    && Run(qs, cids, actions).Some?
    && (actions != [] ==>
          var before := actions[..|actions| - 1];
          Exact(qs, cids, before) && !Lapped(Run(qs, cids, before).value, actions[|actions| - 1]))
  }

  /** Along the run every poll that matched reported the place of its caller's own completion. */
  ghost predicate ReportsRight(qs: nat, cids: nat, actions: seq<Action>)
    requires qs > 0
  {
    && Run(qs, cids, actions).Some?
    && (actions != [] ==>
          var before, a := actions[..|actions| - 1], actions[|actions| - 1];
          var s := Run(qs, cids, before).value;
          && ReportsRight(qs, cids, before)
          && (a.ReadEntry? && Matches(s, a.t) ==> s.threads[a.t].at == Some(s.threads[a.t].pc.head + s.threads[a.t].pc.i)))
  }

  lemma {:induction false} RunCore(qs: nat, cids: nat, actions: seq<Action>)
    requires qs > 0 && Exact(qs, cids, actions)
    ensures Core(Run(qs, cids, actions).value)
  {
    hide Core, Step, Init, Lapped;
    if actions == [] {
      InitCore(qs, cids);
    } else {
      var before := actions[..|actions| - 1];
      RunCore(qs, cids, before);
      StepKeeps(Run(qs, cids, before).value, actions[|actions| - 1]);
    }
  }

  /** The polls of a run report the right positions exactly when none of them matches two laps late. */
  lemma {:induction false} ExactIff(qs: nat, cids: nat, actions: seq<Action>)
    requires qs > 0 && Run(qs, cids, actions).Some?
    ensures Exact(qs, cids, actions) <==> ReportsRight(qs, cids, actions)
  {
    hide Core, Step, Init, Mod, PhaseOf, Matches;
    if actions != [] {
      var before, a := actions[..|actions| - 1], actions[|actions| - 1];
      ExactIff(qs, cids, before);
      if Exact(qs, cids, before) {
        RunCore(qs, cids, before);
        var s := Run(qs, cids, before).value;
        if a.ReadEntry? && Matches(s, a.t) { MatchExact(s, a.t); }
      }
    }
  }

  // ----- identifiers: every run -----

  lemma CidsCommand(s: State, a: Action)
    requires Sized(s) && Cids(s.threads, s.holder) && CommandStep(s, a).Some?
    ensures Cids(CommandStep(s, a).value.threads, CommandStep(s, a).value.holder)
  {
    hide Mod, PhaseOf;
  }

  lemma CidsPc(s: State, t: nat, pc: Pc)
    requires Cids(s.threads, s.holder) && t < |s.threads| && HoldsCid(pc) && HoldsCid(s.threads[t].pc)
    ensures Cids(With(s, t, pc).threads, s.holder)
  {
  }

  lemma CidsStep(s: State, a: Action)
    requires Sized(s) && Cids(s.threads, s.holder) && Step(s, a).Some?
    ensures Sized(Step(s, a).value) && Cids(Step(s, a).value.threads, Step(s, a).value.holder)
  {
    hide Mod, PhaseOf, Cids;
    if a.Snapshot? || a.ReadEntry? || a.LockPos? || a.MarkHead? || a.SeeCleared? || a.SeePassed? || a.UnlockPos? {
      CidsPc(s, a.t, Step(s, a).value.threads[a.t].pc);
    } else if !(a.TakeLock? || a.Exchange? || a.RingDoorbell? || a.StoreHead? || a.Unlock?) {
      CidsCommand(s, a);
    }
  }

  lemma {:induction false} RunCids(qs: nat, cids: nat, actions: seq<Action>)
    requires qs > 0 && Run(qs, cids, actions).Some?
    ensures var s := Run(qs, cids, actions).value; Sized(s) && Cids(s.threads, s.holder)
  {
    hide Cids, Step;
    if actions == [] {
      InitCids(qs, cids);
    } else {
      RunCids(qs, cids, actions[..|actions| - 1]);
      CidsStep(Run(qs, cids, actions[..|actions| - 1]).value, actions[|actions| - 1]);
    }
  }

  lemma InitCids(qs: nat, cids: nat)
    requires qs > 0
    ensures Sized(Init(qs, cids)) && Cids(Init(qs, cids).threads, Init(qs, cids).holder)
  {
  }

  /** No two commands in flight share an identifier, lapped polls or not. */
  lemma CidsUnique(qs: nat, cids: nat, actions: seq<Action>, t: nat, u: nat)
    requires qs > 0 && Run(qs, cids, actions).Some?
    requires var s := Run(qs, cids, actions).value;
             t < |s.threads| && u < |s.threads| && t != u && HoldsCid(s.threads[t].pc) && HoldsCid(s.threads[u].pc)
    ensures var s := Run(qs, cids, actions).value; s.threads[t].cid != s.threads[u].cid
  {
    hide Run;
    RunCids(qs, cids, actions);
  }

  // ----- what runs without a lapped poll guarantee -----

  /** cq_poll returns only the completion of the caller's own current command, never one of an earlier lap; and the
      position it reports is right exactly when fewer than two laps were posted past it. */
  lemma PollSound(qs: nat, cids: nat, actions: seq<Action>, t: nat)
    requires qs > 0 && Exact(qs, cids, actions) && Sized(Run(qs, cids, actions).value) && Matches(Run(qs, cids, actions).value, t)
    ensures var s := Run(qs, cids, actions).value;
            var k := s.threads[t].pc.head + s.threads[t].pc.i;
            && s.last[Mod(k, s.qs)] == s.threads[t].at && s.threads[t].at.Some?
            && k <= s.threads[t].at.value < |s.posted| && s.posted[s.threads[t].at.value] == t
            && (s.threads[t].at == Some(k) <==> |s.posted| <= k + 2 * s.qs)
  {
    hide Run, Core, Mod, PhaseOf;
    RunCore(qs, cids, actions);
    var s := Run(qs, cids, actions).value;
    MatchIsOwn(s, t);
    MatchExact(s, t);
  }

  /** The head passes a completion only after its owner claimed it, and an owner leaves only after that: every
      completion below the head was marked by its own thread, none at or past the front has been left. */
  lemma HeadAfterClaim(qs: nat, cids: nat, actions: seq<Action>, k: nat)
    requires qs > 0 && Exact(qs, cids, actions) && k < |Run(qs, cids, actions).value.posted|
    ensures var s := Run(qs, cids, actions).value;
            && s.posted[k] < |s.threads| && s.threads[s.posted[k]].at == Some(k)
            && (var pc := s.threads[s.posted[k]].pc;
                && (k < Front(s) ==> pc.Marked? || pc.Cleared? || pc.Leaving? || pc.Unlocked? || pc.Released?)
                && (pc.Leaving? || pc.Unlocked? || pc.Released? ==> k < s.head)
                && (pc.Cleared? ==> k < Front(s)))
  {
    hide Run, Mod, PhaseOf, Memory, Polls, Positions, Marks, Cids, Counters;
    RunCore(qs, cids, actions);
    var s := Run(qs, cids, actions).value;
    assert s.threads[s.posted[k]].at == Some(k);
    assert StageOk(s.threads[s.posted[k]], s.head, Front(s));
  }

  /** Each exchange that moves the front moves it past exactly one completion, the one whose owner is marked there. */
  lemma FrontByOne(qs: nat, cids: nat, actions: seq<Action>)
    requires qs > 0 && Exact(qs, cids, actions) && Sized(Run(qs, cids, actions).value)
    requires Step(Run(qs, cids, actions).value, Exchange).Some?
    ensures var s := Run(qs, cids, actions).value; var s' := Step(s, Exchange).value;
            && (Front(s') == Front(s) + 1 <==> s.marks[Mod(Front(s), s.qs)])
            && (Front(s') == Front(s) <==> !s.marks[Mod(Front(s), s.qs)])
            && (s.marks[Mod(Front(s), s.qs)] ==> Front(s) < |s.posted| && s.posted[Front(s)] < |s.threads|
                                                 && s.threads[s.posted[Front(s)]].pc == Marked(Front(s)))
  {
    hide Run, Core, Mod, PhaseOf;
    RunCore(qs, cids, actions);
    var s := Run(qs, cids, actions).value;
    if s.marks[Mod(Front(s), s.qs)] { MarkAtFront(s); }
  }

  /** What a thread that holds an identifier wants to do next. */
  function NextOf(s: State, t: nat): Action
    requires Sized(s) && t < |s.threads|
  {
    match s.threads[t].pc
    case Own => Submit(t)
    case Flying => Snapshot(t)
    case Polling(_, _) => ReadEntry(t)
    case Matched(_) => LockPos(t)
    case Holding(_) => MarkHead(t)
    case Marked(loc) => if s.marks[Mod(loc, s.qs)] then TakeLock(t) else SeeCleared(t)
    case Cleared(_) => SeePassed(t)
    case Leaving(_) => UnlockPos(t)
    case Unlocked(_) => PutCid(t)
    case _ => Start
  }

  function NextOfMover(s: State): Action {
    match s.mover
    case Nobody => Unlock
    case Scanning(_, _) => Exchange
    case Stopped(_, n) => if n > 0 then RingDoorbell else Unlock
    case Rang(_, _) => StoreHead
    case Stored(_) => Unlock
  }

  /** What keeps every run going, lapped polls or not: a thread whose mark was taken lies below the front. */
  predicate Near(s: State, th: Thread)
    requires Sized(s)
  {
    match th.pc
    case Polling(h, i) => h <= s.head && i < s.qs
    case Matched(loc) => loc < Front(s) + s.qs
    case Holding(loc) => loc < Front(s) + s.qs
    case Marked(loc) => loc < Front(s) + s.qs && (loc >= Front(s) ==> s.marks[Mod(loc, s.qs)])
    case Cleared(loc) => loc < Front(s)
    case _ => true
  }

  ghost predicate AllNear(s: State)
    requires Sized(s)
  {
    forall t | 0 <= t < |s.threads| :: Near(s, s.threads[t])
  }

  lemma NearCommand(s: State, a: Action)
    requires Sized(s) && AllNear(s) && CommandStep(s, a).Some?
    ensures Sized(CommandStep(s, a).value) && AllNear(CommandStep(s, a).value)
  {
    hide Mod, PhaseOf;
    var s' := CommandStep(s, a).value;
    forall u | 0 <= u < |s'.threads| ensures Near(s', s'.threads[u]) {
      if u < |s.threads| { assert Near(s, s.threads[u]); }
    }
  }

  lemma NearThread(s: State, a: Action)
    requires Sized(s) && AllNear(s) && (PollStep(s, a).Some? || DequeueStep(s, a).Some?)
    ensures PollStep(s, a).Some? ==> AllNear(PollStep(s, a).value)
    ensures DequeueStep(s, a).Some? ==> AllNear(DequeueStep(s, a).value)
  {
    hide Mod, PhaseOf;
    var s' := if PollStep(s, a).Some? then PollStep(s, a).value else DequeueStep(s, a).value;
    forall u | 0 <= u < |s'.threads| ensures Near(s', s'.threads[u]) {
      assert Near(s, s.threads[u]);
    }
  }

  lemma NearMover(s: State, a: Action)
    requires Sized(s) && AllNear(s) && MoverStep(s, a).Some?
    ensures AllNear(MoverStep(s, a).value)
  {
    hide Mod, PhaseOf;
    var s' := MoverStep(s, a).value;
    forall u | 0 <= u < |s'.threads| ensures Near(s', s'.threads[u]) {
      assert Near(s, s.threads[u]);
      var pc := s.threads[u].pc;
      if pc.Marked? && a.Exchange? && pc.loc >= Front(s) { ModApart(pc.loc, Front(s), s.qs); }
    }
  }

  lemma PositionsPc(s: State, t: nat, pc: Pc)
    requires Sized(s) && Positions(s.qs, s.threads, s.posHolder) && t < |s.threads| && HoldsPos(pc) == HoldsPos(s.threads[t].pc)
    requires HoldsPos(pc) ==> pc.loc == s.threads[t].pc.loc
    ensures Positions(s.qs, With(s, t, pc).threads, s.posHolder)
  {
    hide Mod;
  }

  lemma PositionsDequeue(s: State, a: Action)
    requires Sized(s) && Positions(s.qs, s.threads, s.posHolder) && DequeueStep(s, a).Some?
    ensures Positions(s.qs, DequeueStep(s, a).value.threads, DequeueStep(s, a).value.posHolder)
  {
    hide Mod;
    if a.MarkHead? || a.SeeCleared? || a.SeePassed? {
      PositionsPc(s, a.t, DequeueStep(s, a).value.threads[a.t].pc);
    }
  }

  lemma PositionsCommand(s: State, a: Action)
    requires Sized(s) && Positions(s.qs, s.threads, s.posHolder) && CommandStep(s, a).Some?
    ensures Positions(s.qs, CommandStep(s, a).value.threads, CommandStep(s, a).value.posHolder)
  {
    hide Mod, PhaseOf;
  }

  ghost predicate Going(s: State) {
    Sized(s) && Cids(s.threads, s.holder) && Positions(s.qs, s.threads, s.posHolder) && AllNear(s)
  }

  lemma GoingStep(s: State, a: Action)
    requires Going(s) && Step(s, a).Some?
    ensures Going(Step(s, a).value)
  {
    hide Mod, PhaseOf, Cids, Positions, AllNear;
    CidsStep(s, a);
    if a.Snapshot? || a.ReadEntry? {
      NearThread(s, a);
      PositionsPc(s, a.t, Step(s, a).value.threads[a.t].pc);
    } else if a.LockPos? || a.MarkHead? || a.SeeCleared? || a.SeePassed? || a.UnlockPos? {
      NearThread(s, a);
      PositionsDequeue(s, a);
    } else if a.TakeLock? || a.Exchange? || a.RingDoorbell? || a.StoreHead? || a.Unlock? {
      NearMover(s, a);
    } else {
      NearCommand(s, a);
      PositionsCommand(s, a);
    }
  }

  lemma InitGoing(qs: nat, cids: nat)
    requires qs > 0
    ensures Going(Init(qs, cids))
  {
  }

  lemma {:induction false} RunGoing(qs: nat, cids: nat, actions: seq<Action>)
    requires qs > 0 && Run(qs, cids, actions).Some?
    ensures Going(Run(qs, cids, actions).value)
  {
    hide Going, Step, Init;
    if actions == [] {
      InitGoing(qs, cids);
    } else {
      RunGoing(qs, cids, actions[..|actions| - 1]);
      GoingStep(Run(qs, cids, actions[..|actions| - 1]).value, actions[|actions| - 1]);
    }
  }

  /** A thread that does not wait for a position lock can go on, or the head mover can. */
  lemma CanGoOn(s: State, t: nat)
    requires Going(s) && t < |s.threads| && HoldsCid(s.threads[t].pc) && !s.threads[t].pc.Matched?
    ensures Step(s, NextOf(s, t)).Some? || (!s.mover.Nobody? && Step(s, NextOfMover(s)).Some?)
  {
    hide Mod, PhaseOf, Positions;
    assert Near(s, s.threads[t]);
  }

  /** No deadlock, in any run: a thread with a command in hand can take its next step, or the head mover can, or the thread
      whose position lock it waits for can. */
  lemma NoDeadlock(qs: nat, cids: nat, actions: seq<Action>, t: nat)
    requires qs > 0 && Run(qs, cids, actions).Some?
    requires var s := Run(qs, cids, actions).value; t < |s.threads| && HoldsCid(s.threads[t].pc)
    ensures var s := Run(qs, cids, actions).value;
            && Sized(s)
            && (|| Step(s, NextOf(s, t)).Some?
                || (!s.mover.Nobody? && Step(s, NextOfMover(s)).Some?)
                || (&& s.threads[t].pc.Matched?
                    && (var u := s.posHolder[Mod(s.threads[t].pc.loc, s.qs)];
                        u.Some? && u.value < |s.threads| && u.value != t && Step(s, NextOf(s, u.value)).Some?)))
  {
    hide Run, Mod, PhaseOf, Cids, AllNear, NextOfMover, MoverStep, CommandStep, PollStep;
    RunGoing(qs, cids, actions);
    var s := Run(qs, cids, actions).value;
    if s.threads[t].pc.Matched? {
      var u := s.posHolder[Mod(s.threads[t].pc.loc, s.qs)];
      if u.Some? { CanGoOn(s, u.value); }
    } else {
      CanGoOn(s, t);
    }
  }
}

// The shared NVMe submission queue (include/nvm_parallel_queue.h): any number of threads, tickets, tail
// marks and one tail mover at a time, against a controller that fetches behind the doorbell. Every
// access to shared memory is a step of its own.
module SubmissionQueue {
  import opened Bits
  import opened Options

  /** A 64-byte command, copied as two 32-byte halves. */
  datatype Command = Command(low: nat, high: nat)

  /** Where the thread holding a ticket stands in sq_enqueue. */
  datatype Pc =
    | Waiting
    | Copying(halves: nat)
    | Marked      // tail_mark stored, loops until it is cleared
    | Exiting     // saw its mark cleared
    | Done        // raised tickets[pos]

  /** The holder of tail_lock inside move_tail. */
  datatype Mover =
    | Nobody
    | Scanning(owner: nat, count: nat)
    | Roomy(owner: nat, count: nat)      // the slot behind the scan is free
    | Stopped(owner: nat, count: nat)
    | Rang(owner: nat, count: nat)       // doorbell written, tail not yet stored
    | Stored(owner: nat)

  /** The holder of the CQ head lock while it moves the SQ head to the head the controller reported. */
  datatype HeadMover = Resting | Passing(target: nat, passed: nat)

  datatype State = State(
    qs: nat, cmds: seq<Command>, pcs: seq<Pc>,   // by ticket
    tickets: seq<nat>, slots: seq<Command>, marks: seq<bool>,
    head: nat, tail: nat, doorbell: nat,
    mover: Mover, headMover: HeadMover,
    fetched: nat, log: seq<Command>,             // what the controller has taken
    cur: seq<nat>,                               // by position: the ticket last admitted there
    rung: nat)                                   // the count the doorbell stands for

  datatype Action =
    | Claim(cmd: Command)
    | Enter(t: nat)
    | CopyHalf(t: nat)
    | Mark(t: nat)
    | Exit(t: nat)
    | Finish(t: nat)
    | TakeLock(t: nat)
    | CheckRoom
    | Exchange
    | RingDoorbell
    | StoreTail
    | Unlock
    | Fetch
    | ReadHead(target: nat)
    | PassOne
    | StoreHead

  /** Lap of a ticket: `ticket >> qs_log2`. */
  function Lap(t: nat, qs: nat): nat
    requires qs > 0
  {
    if t < qs then 0 else 1 + Lap(t - qs, qs)
  }

  function Init(qs: nat): State
    requires qs > 0
  {
    State(qs, [], [], seq(qs, _ => 0), seq(qs, _ => Command(0, 0)), seq(qs, _ => false), 0, 0, 0, Nobody, Resting, 0, [],
          seq(qs, p => p), 0)
  }

  predicate Sized(s: State) {
    && s.qs > 0 && |s.tickets| == |s.slots| == |s.marks| == |s.cur| == s.qs && |s.pcs| == |s.cmds|
  }

  function WithPc(s: State, t: nat, pc: Pc): State
    requires t < |s.pcs|
  {
    s.(pcs := s.pcs[t := pc])
  }

  function CopyOne(slot: Command, cmd: Command, k: nat): Command {
    if k == 0 then slot.(low := cmd.low) else slot.(high := cmd.high)
  }

  /** Steps of the threads in sq_enqueue, outside move_tail. */
  function ThreadStep(s: State, a: Action): Option<State>
    requires Sized(s)
  {
    match a
    case Claim(cmd) => Some(s.(cmds := s.cmds + [cmd], pcs := s.pcs + [Waiting]))
    case Enter(t) =>
      if t < |s.pcs| && s.pcs[t].Waiting? && s.tickets[Mod(t, s.qs)] == 2 * Lap(t, s.qs)
      then Some(WithPc(s, t, Copying(0)).(cur := s.cur[Mod(t, s.qs) := t])) else None
    case CopyHalf(t) =>
      if t < |s.pcs| && s.pcs[t].Copying? && s.pcs[t].halves < 2 then
        var k, p := s.pcs[t].halves, Mod(t, s.qs);
        Some(WithPc(s, t, Copying(k + 1)).(slots := s.slots[p := CopyOne(s.slots[p], s.cmds[t], k)]))
      else None
    case Mark(t) =>
      if t < |s.pcs| && s.pcs[t] == Copying(2)
      then Some(WithPc(s, t, Marked).(marks := s.marks[Mod(t, s.qs) := true])) else None
    case Exit(t) =>
      if t < |s.pcs| && s.pcs[t].Marked? && !s.marks[Mod(t, s.qs)] && (s.mover.Nobody? || s.mover.owner != t)
      then Some(WithPc(s, t, Exiting)) else None
    case Finish(t) =>
      if t < |s.pcs| && s.pcs[t].Exiting?
      then Some(WithPc(s, t, Done).(tickets := s.tickets[Mod(t, s.qs) := s.tickets[Mod(t, s.qs)] + 1])) else None
    case TakeLock(t) =>
      if t < |s.pcs| && s.pcs[t].Marked? && s.mover.Nobody? then Some(s.(mover := Scanning(t, 0))) else None
    case _ => None
  }

  /** move_tail and what follows it under tail_lock. */
  function MoverStep(s: State, a: Action): Option<State>
    requires Sized(s)
  {
    match a
    case CheckRoom =>
      if s.mover.Scanning? then
        var o, n := s.mover.owner, s.mover.count;
        Some(s.(mover := if Mod(s.tail + n + 1, s.qs) != Mod(s.head, s.qs) then Roomy(o, n) else Stopped(o, n)))
      else None
    case Exchange =>
      if s.mover.Roomy? then
        var o, n, p := s.mover.owner, s.mover.count, Mod(s.tail + s.mover.count, s.qs);
        Some(s.(marks := s.marks[p := false], mover := if s.marks[p] then Scanning(o, n + 1) else Stopped(o, n)))
      else None
    case RingDoorbell =>
      if s.mover.Stopped? && s.mover.count > 0 then
        Some(s.(doorbell := Mod(s.tail + s.mover.count, s.qs), rung := s.tail + s.mover.count,
                mover := Rang(s.mover.owner, s.mover.count)))
      else None
    case StoreTail =>
      if s.mover.Rang? then Some(s.(tail := s.tail + s.mover.count, mover := Stored(s.mover.owner))) else None
    case Unlock =>
      if s.mover.Stored? || (s.mover.Stopped? && s.mover.count == 0) then Some(s.(mover := Nobody)) else None
    case _ => None
  }

  /** The controller, and the part of move_head_cq that moves the SQ head to a head the controller reported:
      any count between the current head and what has been fetched. */
  function DeviceStep(s: State, a: Action): Option<State>
    requires Sized(s)
  {
    match a
    case Fetch =>
      if Mod(s.fetched, s.qs) != s.doorbell
      then Some(s.(fetched := s.fetched + 1, log := s.log + [s.slots[Mod(s.fetched, s.qs)]])) else None
    case ReadHead(target) =>
      if s.headMover.Resting? && s.head <= target <= s.fetched then Some(s.(headMover := Passing(target, 0))) else None
    case PassOne =>
      if s.headMover.Passing? && Mod(s.head + s.headMover.passed, s.qs) != Mod(s.headMover.target, s.qs) then
        var p := Mod(s.head + s.headMover.passed, s.qs);
        Some(s.(tickets := s.tickets[p := s.tickets[p] + 1], headMover := s.headMover.(passed := s.headMover.passed + 1)))
      else None
    case StoreHead =>
      if s.headMover.Passing? && Mod(s.head + s.headMover.passed, s.qs) == Mod(s.headMover.target, s.qs)
      then Some(s.(head := s.head + s.headMover.passed, headMover := Resting)) else None
    case _ => None
  }

  function Step(s: State, a: Action): Option<State>
    requires Sized(s)
  {
    if a.Fetch? || a.ReadHead? || a.PassOne? || a.StoreHead? then DeviceStep(s, a)
    else if a.CheckRoom? || a.Exchange? || a.RingDoorbell? || a.StoreTail? || a.Unlock? then MoverStep(s, a)
    else ThreadStep(s, a)
  }

  // ----- laps and positions -----

  lemma {:induction false} SameTicket(t: nat, u: nat, qs: nat)
    requires qs > 0 && Mod(t, qs) == Mod(u, qs) && Lap(t, qs) == Lap(u, qs)
    ensures t == u
  {
    if t >= qs && u >= qs { SameTicket(t - qs, u - qs, qs); }
  }

  lemma {:induction false} NextLap(t: nat, qs: nat)
    requires qs > 0
    ensures Mod(t + qs, qs) == Mod(t, qs) && Lap(t + qs, qs) == Lap(t, qs) + 1
  {
  }

  lemma {:induction false} LapIsQuotient(t: nat, qs: nat)
    requires qs > 0
    ensures Lap(t, qs) == t / qs
  {
    if t < qs {
      DivModUnique(t, qs, 0, t);
    } else {
      LapIsQuotient(t - qs, qs);
      ModAddMultiple(t - qs, qs, 1);
    }
  }

  /** The ticket counter has 32 bits: the id a thread waits for is the lap of its turn exactly below 2^32 tickets. */
  lemma TicketWrap(t: nat, log: nat)
    requires log <= 32
    ensures 2 * Shr(t % 0x1_0000_0000, log) == 2 * Lap(t, Pow2(log)) <==> t < 0x1_0000_0000
  {
    hide Shr, Lap, Pow2;
    var w, q, k := 0x1_0000_0000, Pow2(log), Pow2(32 - log);
    Pow2Of32();
    Pow2Add(32 - log, log);
    LapIsQuotient(t, q);
    ShrIsDiv(t % w, log);
    var h, r := t / w, t % w;
    assert t == h * w + r && h * (k * q) == (h * k) * q;
    ModAddMultiple(r, q, h * k);
    if h > 0 { MulMonotone(1, h, k); }
  }

  // ----- the invariant -----

  /** Tickets whose mark the mover has cleared. */
  function Front(s: State): nat {
    s.tail + (if s.mover.Nobody? || s.mover.Stored? then 0 else s.mover.count)
  }

  /** Tickets the head mover has passed. */
  function Passed(s: State): nat {
    s.head + (if s.headMover.Resting? then 0 else s.headMover.passed)
  }

  /** The counters, in the order head <= passed <= fetched <= rung <= front, one slot always left free. */
  ghost predicate Counters(s: State) {
    && Passed(s) <= s.fetched <= s.rung <= Front(s) <= |s.pcs| && s.tail <= s.rung
    && Front(s) + 1 <= s.head + s.qs && (s.mover.Roomy? ==> Front(s) + 2 <= s.head + s.qs)
    && (s.mover.Rang? ==> s.rung == Front(s)) && (!s.mover.Rang? ==> s.rung == s.tail)
    && (s.headMover.Passing? ==> Passed(s) <= s.headMover.target <= s.fetched)
  }

  /** At each position one ticket is current: earlier ones are finished and passed, later ones wait. */
  ghost predicate Turns(qs: nat, cur: seq<nat>, pcs: seq<Pc>, passed: nat)
    requires 0 < qs == |cur|
  {
    && (forall p | 0 <= p < qs :: Mod(cur[p], qs) == p && (cur[p] == p || cur[p] < |pcs|))
    && (forall u | 0 <= u < |pcs| :: u < cur[Mod(u, qs)] ==> pcs[u].Done? && u < passed)
    && (forall u | 0 <= u < |pcs| :: u > cur[Mod(u, qs)] ==> pcs[u].Waiting?)
  }

  predicate Finished(pcs: seq<Pc>, t: nat) {
    t < |pcs| && pcs[t].Done?
  }

  function TicketValue(qs: nat, pcs: seq<Pc>, passed: nat, c: nat): nat
    requires qs > 0
  {
    2 * Lap(c, qs) + (if Finished(pcs, c) then 1 else 0) + (if c < passed then 1 else 0)
  }

  /** The ticket word: twice the lap, plus one when the enqueuer finished, plus one when the head passed. */
  ghost predicate TicketWords(qs: nat, tickets: seq<nat>, cur: seq<nat>, pcs: seq<Pc>, passed: nat)
    requires 0 < qs == |cur| == |tickets|
  {
    forall p | 0 <= p < qs :: tickets[p] == TicketValue(qs, pcs, passed, cur[p])
  }

  /** Below the front every ticket has marked; at or above it none has left. */
  ghost predicate Frontier(pcs: seq<Pc>, front: nat) {
    && (forall u | 0 <= u < |pcs| && u < front :: pcs[u].Marked? || pcs[u].Exiting? || pcs[u].Done?)
    && (forall u | 0 <= u < |pcs| && u >= front :: !pcs[u].Exiting? && !pcs[u].Done?)
  }

  ghost predicate Marks(qs: nat, marks: seq<bool>, cur: seq<nat>, pcs: seq<Pc>, front: nat)
    requires 0 < qs == |cur| == |marks|
  {
    forall p | 0 <= p < qs :: marks[p] <==> front <= cur[p] < |pcs| && pcs[cur[p]].Marked?
  }

  predicate Written(slot: Command, cmd: Command, pc: Pc) {
    match pc
    case Waiting => true
    case Copying(k) => k <= 2 && (k > 0 ==> slot.low == cmd.low) && (k > 1 ==> slot.high == cmd.high)
    case _ => slot == cmd
  }

  /** The slot holds what its current ticket has written. */
  ghost predicate Contents(qs: nat, slots: seq<Command>, cur: seq<nat>, pcs: seq<Pc>, cmds: seq<Command>)
    requires 0 < qs == |cur| == |slots| && |cmds| == |pcs|
  {
    forall p | 0 <= p < qs && cur[p] < |pcs| :: Written(slots[p], cmds[cur[p]], pcs[cur[p]])
  }

  ghost predicate Inv(s: State) {
    && Sized(s) && Counters(s) && Turns(s.qs, s.cur, s.pcs, Passed(s)) && TicketWords(s.qs, s.tickets, s.cur, s.pcs, Passed(s))
    && Frontier(s.pcs, Front(s)) && Marks(s.qs, s.marks, s.cur, s.pcs, Front(s)) && Contents(s.qs, s.slots, s.cur, s.pcs, s.cmds)
    && s.doorbell == Mod(s.rung, s.qs) && s.fetched <= |s.cmds| && s.log == s.cmds[..s.fetched]
  }

  lemma InitInv(qs: nat)
    requires qs > 0
    ensures Inv(Init(qs))
  {
    hide Lap, Mod;
    forall p | 0 <= p < qs ensures Mod(p, qs) == p && Lap(p, qs) == 0 { SmallLap(p, qs); }
    var s := Init(qs);
    assert s.log == s.cmds[..s.fetched];
  }

  lemma SmallLap(p: nat, qs: nat)
    requires p < qs
    ensures Mod(p, qs) == p && Lap(p, qs) == 0
  {
  }

  // ----- threads -----

  lemma ClaimKeeps(s: State, cmd: Command)
    requires Inv(s)
    ensures Inv(ThreadStep(s, Claim(cmd)).value)
  {
    hide Mod, Lap, Counters, Frontier, Turns;
    var s' := ThreadStep(s, Claim(cmd)).value;
    assert s'.log == s'.cmds[..s'.fetched];
    ClaimTurns(s, s');
    ClaimCounters(s, s');
  }

  lemma ClaimTurns(s: State, s': State)
    requires Inv(s) && s' == s.(pcs := s.pcs + [Waiting], cmds := s'.cmds)
    ensures Turns(s.qs, s.cur, s'.pcs, Passed(s))
  {
    hide Mod, Lap, Counters, Frontier, Marks, Contents, TicketWords;
    var n := |s.pcs|;
    assert s.cur[Mod(n, s.qs)] <= n;
  }

  lemma ClaimCounters(s: State, s': State)
    requires Inv(s) && s' == s.(pcs := s.pcs + [Waiting], cmds := s'.cmds)
    ensures Counters(s') && Frontier(s'.pcs, Front(s'))
  {
    hide Mod, Lap, Turns, Marks, Contents, TicketWords;
  }

  /** Exactly the current ticket, or the one a lap later when the current one is finished and passed, may enter. */
  lemma EntersInTurn(s: State, t: nat)
    requires Inv(s) && ThreadStep(s, Enter(t)).Some?
    ensures var c := s.cur[Mod(t, s.qs)];
            && (t == c || (t == c + s.qs && c < |s.pcs| && s.pcs[c].Done? && c < Passed(s)))
  {
    hide Mod, Lap, Counters, Frontier, Marks, Contents;
    var p := Mod(t, s.qs);
    var c := s.cur[p];
    NextLap(c, s.qs);
    if Lap(t, s.qs) == Lap(c, s.qs) {
      SameTicket(t, c, s.qs);
    } else {
      SameTicket(t, c + s.qs, s.qs);
    }
  }

  lemma EnterTurns(s: State, t: nat)
    requires Inv(s) && ThreadStep(s, Enter(t)).Some?
    ensures Turns(s.qs, s.cur[Mod(t, s.qs) := t], s.pcs[t := Copying(0)], Passed(s))
  {
    hide Mod, Lap, Counters, Frontier, Marks, Contents, TicketWords;
    EntersInTurn(s, t);
    var p := Mod(t, s.qs);
    var c, cur, pcs := s.cur[p], s.cur[p := t], s.pcs[t := Copying(0)];
    forall u | 0 <= u < |pcs| && u < cur[Mod(u, s.qs)]
      ensures pcs[u].Done? && u < Passed(s)
    {
      if Mod(u, s.qs) == p && u >= c { ModApart(u, c, s.qs); }
    }
  }

  /** A waiting ticket lies at or above the front. */
  lemma WaitingAhead(s: State, t: nat)
    requires Inv(s) && t < |s.pcs| && (s.pcs[t].Waiting? || s.pcs[t].Copying?)
    ensures t >= Front(s) >= s.rung >= s.fetched >= Passed(s) >= s.head
  {
    hide Mod, Lap, Turns, Marks, Contents, TicketWords;
  }

  lemma EnterKeeps(s: State, t: nat)
    requires Inv(s) && ThreadStep(s, Enter(t)).Some?
    ensures Inv(ThreadStep(s, Enter(t)).value)
  {
    hide Mod, Lap, Turns;
    EnterTurns(s, t);
    EntersInTurn(s, t);
    WaitingAhead(s, t);
  }

  /** A thread that has entered and not finished is the current one of its position. */
  lemma IsCurrent(s: State, t: nat)
    requires Inv(s) && t < |s.pcs| && !s.pcs[t].Waiting? && !s.pcs[t].Done?
    ensures s.cur[Mod(t, s.qs)] == t
  {
    hide Mod, Lap, Counters, Frontier, Marks, Contents, TicketWords;
  }

  /** Other positions have other current tickets. */
  lemma OthersDiffer(s: State, t: nat, p: nat)
    requires Inv(s) && p < s.qs && p != Mod(t, s.qs)
    ensures s.cur[p] != t
  {
    hide Mod, Lap, Counters, Frontier, Marks, Contents, TicketWords;
  }

  /** The current ticket of a position moves on: nothing changes for the turns, nor for other positions. */
  lemma PcTurns(s: State, t: nat, pc: Pc)
    requires Inv(s) && t < |s.pcs| && s.cur[Mod(t, s.qs)] == t
    ensures Turns(s.qs, s.cur, s.pcs[t := pc], Passed(s))
  {
    hide Mod, Lap, Counters, Frontier, Marks, Contents, TicketWords;
  }

  lemma PcContents(s: State, t: nat, pc: Pc, slots: seq<Command>)
    requires Inv(s) && t < |s.pcs| && s.cur[Mod(t, s.qs)] == t && |slots| == s.qs
    requires slots == s.slots[Mod(t, s.qs) := slots[Mod(t, s.qs)]] && Written(slots[Mod(t, s.qs)], s.cmds[t], pc)
    ensures Contents(s.qs, slots, s.cur, s.pcs[t := pc], s.cmds)
  {
    hide Mod, Lap, Counters, Frontier, Marks, Turns, TicketWords;
    forall p | 0 <= p < s.qs && p != Mod(t, s.qs) ensures s.cur[p] != t { OthersDiffer(s, t, p); }
  }

  lemma PcTickets(s: State, t: nat, pc: Pc, tickets: seq<nat>)
    requires Inv(s) && t < |s.pcs| && s.cur[Mod(t, s.qs)] == t && !s.pcs[t].Done? && |tickets| == s.qs
    requires tickets == s.tickets[Mod(t, s.qs) := s.tickets[Mod(t, s.qs)] + if pc.Done? then 1 else 0]
    ensures TicketWords(s.qs, tickets, s.cur, s.pcs[t := pc], Passed(s))
  {
    hide Mod, Lap, Counters, Frontier, Marks, Turns, Contents;
    forall p | 0 <= p < s.qs && p != Mod(t, s.qs) ensures s.cur[p] != t { OthersDiffer(s, t, p); }
  }

  lemma PcMarks(s: State, t: nat, pc: Pc, marks: seq<bool>)
    requires Inv(s) && t < |s.pcs| && s.cur[Mod(t, s.qs)] == t && |marks| == s.qs
    requires marks == s.marks[Mod(t, s.qs) := t >= Front(s) && pc.Marked?]
    ensures Marks(s.qs, marks, s.cur, s.pcs[t := pc], Front(s))
  {
    hide Mod, Lap, Counters, Frontier, TicketWords, Turns, Contents;
    forall p | 0 <= p < s.qs && p != Mod(t, s.qs) ensures s.cur[p] != t { OthersDiffer(s, t, p); }
  }

  /** The mark of a position that has none to show. */
  lemma MarkOf(s: State, t: nat)
    requires Inv(s) && t < |s.pcs| && s.cur[Mod(t, s.qs)] == t
    ensures s.marks[Mod(t, s.qs)] <==> t >= Front(s) && s.pcs[t].Marked?
    ensures Written(s.slots[Mod(t, s.qs)], s.cmds[t], s.pcs[t])
    ensures s.pcs[t].Exiting? ==> t < Front(s)
  {
    hide Mod, Lap, Counters, TicketWords, Turns;
  }

  lemma CopyHalfKeeps(s: State, t: nat)
    requires Inv(s) && ThreadStep(s, CopyHalf(t)).Some?
    ensures Inv(ThreadStep(s, CopyHalf(t)).value)
  {
    hide Mod, Lap, Turns, Marks, Contents, TicketWords;
    var s' := ThreadStep(s, CopyHalf(t)).value;
    IsCurrent(s, t);
    MarkOf(s, t);
    PcTurns(s, t, s'.pcs[t]);
    PcContents(s, t, s'.pcs[t], s'.slots);
    PcTickets(s, t, s'.pcs[t], s.tickets);
    PcMarks(s, t, s'.pcs[t], s.marks);
  }

  lemma MarkKeeps(s: State, t: nat)
    requires Inv(s) && ThreadStep(s, Mark(t)).Some?
    ensures Inv(ThreadStep(s, Mark(t)).value)
  {
    hide Mod, Lap, Turns, Marks, Contents, TicketWords;
    IsCurrent(s, t);
    WaitingAhead(s, t);
    MarkOf(s, t);
    PcTurns(s, t, Marked);
    PcContents(s, t, Marked, s.slots);
    PcTickets(s, t, Marked, s.tickets);
    PcMarks(s, t, Marked, s.marks[Mod(t, s.qs) := true]);
  }

  lemma ExitKeeps(s: State, t: nat)
    requires Inv(s) && ThreadStep(s, Exit(t)).Some?
    ensures Inv(ThreadStep(s, Exit(t)).value)
  {
    hide Mod, Lap, Turns, Marks, Contents, TicketWords;
    IsCurrent(s, t);
    MarkOf(s, t);
    PcTurns(s, t, Exiting);
    PcContents(s, t, Exiting, s.slots);
    PcTickets(s, t, Exiting, s.tickets);
    PcMarks(s, t, Exiting, s.marks);
  }

  lemma FinishKeeps(s: State, t: nat)
    requires Inv(s) && ThreadStep(s, Finish(t)).Some?
    ensures Inv(ThreadStep(s, Finish(t)).value)
  {
    hide Mod, Lap, Turns, Marks, Contents, TicketWords;
    var s' := ThreadStep(s, Finish(t)).value;
    IsCurrent(s, t);
    MarkOf(s, t);
    PcTurns(s, t, Done);
    PcContents(s, t, Done, s.slots);
    PcTickets(s, t, Done, s'.tickets);
    PcMarks(s, t, Done, s.marks);
  }

  lemma TakeLockKeeps(s: State, t: nat)
    requires Inv(s) && ThreadStep(s, TakeLock(t)).Some?
    ensures Inv(ThreadStep(s, TakeLock(t)).value)
  {
    hide Mod, Lap, Turns, Frontier, Marks, Contents, TicketWords;
  }

  // ----- the tail mover -----

  lemma CheckRoomKeeps(s: State)
    requires Inv(s) && MoverStep(s, CheckRoom).Some?
    ensures Inv(MoverStep(s, CheckRoom).value)
  {
    hide Mod, Lap, Turns, Frontier, Marks, Contents, TicketWords;
    if Front(s) + 1 == s.head + s.qs { NextLap(s.head, s.qs); }
  }

  /** A mark found at the front belongs to the ticket at the front. */
  lemma MarkAtFront(s: State)
    requires Inv(s) && s.marks[Mod(Front(s), s.qs)]
    ensures Front(s) < |s.pcs| && s.cur[Mod(Front(s), s.qs)] == Front(s) && s.pcs[Front(s)].Marked?
  {
    hide Mod, Lap, Frontier, Contents, TicketWords;
    var f := Front(s);
    assert s.cur[Mod(f, s.qs)] >= f;
  }

  lemma ExchangeKeeps(s: State)
    requires Inv(s) && MoverStep(s, Exchange).Some?
    ensures Inv(MoverStep(s, Exchange).value)
  {
    hide Mod, Lap, Turns, TicketWords, Contents;
    if s.marks[Mod(Front(s), s.qs)] {
      MarkAtFront(s);
      forall p | 0 <= p < s.qs && p != Mod(Front(s), s.qs) ensures s.cur[p] != Front(s) { OthersDiffer(s, Front(s), p); }
    }
  }

  lemma RingDoorbellKeeps(s: State)
    requires Inv(s) && MoverStep(s, RingDoorbell).Some?
    ensures Inv(MoverStep(s, RingDoorbell).value)
  {
    hide Mod, Lap, Turns, Frontier, Marks, Contents, TicketWords;
  }

  lemma StoreTailKeeps(s: State)
    requires Inv(s) && MoverStep(s, StoreTail).Some?
    ensures Inv(MoverStep(s, StoreTail).value)
  {
    hide Mod, Lap, Turns, Frontier, Marks, Contents, TicketWords;
  }

  lemma UnlockKeeps(s: State)
    requires Inv(s) && MoverStep(s, Unlock).Some?
    ensures Inv(MoverStep(s, Unlock).value)
  {
    hide Mod, Lap, Turns, Frontier, Marks, Contents, TicketWords;
  }

  // ----- the controller and the head mover -----

  /** A ticket between head and front is the current one of its position, and fully written. */
  lemma LiveIsCurrent(s: State, u: nat)
    requires Inv(s) && Passed(s) <= u < Front(s)
    ensures s.cur[Mod(u, s.qs)] == u && s.slots[Mod(u, s.qs)] == s.cmds[u]
  {
    hide Mod, Lap, Marks, TicketWords;
    assert s.cur[Mod(u, s.qs)] == u;
    assert Written(s.slots[Mod(u, s.qs)], s.cmds[u], s.pcs[u]);
  }

  /** What the controller finds behind the doorbell is the whole command of the next ticket. */
  lemma FetchesNext(s: State)
    requires Inv(s) && Mod(s.fetched, s.qs) != s.doorbell
    ensures s.fetched < s.rung && s.fetched < |s.cmds| && s.slots[Mod(s.fetched, s.qs)] == s.cmds[s.fetched]
  {
    hide Mod, Lap, Marks, TicketWords, Turns, Frontier, Contents;
    assert s.fetched != s.rung;
    LiveIsCurrent(s, s.fetched);
  }

  lemma FetchKeeps(s: State)
    requires Inv(s) && DeviceStep(s, Fetch).Some?
    ensures Inv(DeviceStep(s, Fetch).value)
  {
    hide Mod, Lap, Turns, Frontier, Marks, Contents, TicketWords;
    FetchesNext(s);
  }

  lemma ReadHeadKeeps(s: State, target: nat)
    requires Inv(s) && DeviceStep(s, ReadHead(target)).Some?
    ensures Inv(DeviceStep(s, ReadHead(target)).value)
  {
    hide Mod, Lap, Turns, Frontier, Marks, Contents, TicketWords;
  }

  /** The loop over ring positions stops exactly at the reported head. */
  lemma PassTarget(s: State)
    requires Inv(s) && s.headMover.Passing?
    ensures Mod(Passed(s), s.qs) == Mod(s.headMover.target, s.qs) <==> Passed(s) == s.headMover.target
  {
    hide Mod, Lap, Turns, Frontier, Marks, Contents, TicketWords;
    ModApart(Passed(s), s.headMover.target, s.qs);
  }

  lemma PassTurns(s: State)
    requires Inv(s) && s.headMover.Passing? && Passed(s) < Front(s)
    ensures Turns(s.qs, s.cur, s.pcs, Passed(s) + 1)
  {
    hide Mod, Lap, Frontier, Marks, Contents, TicketWords, Counters;
  }

  lemma PassTickets(s: State)
    requires Inv(s) && s.headMover.Passing? && Passed(s) < Front(s)
    ensures var p := Mod(Passed(s), s.qs);
            TicketWords(s.qs, s.tickets[p := s.tickets[p] + 1], s.cur, s.pcs, Passed(s) + 1)
  {
    hide Mod, Lap, Frontier, Marks, Contents, Counters, Turns;
    var h := Passed(s);
    LiveIsCurrent(s, h);
    forall p | 0 <= p < s.qs && p != Mod(h, s.qs) ensures s.cur[p] != h { OthersDiffer(s, h, p); }
  }

  lemma PassOneKeeps(s: State)
    requires Inv(s) && DeviceStep(s, PassOne).Some?
    ensures Inv(DeviceStep(s, PassOne).value)
  {
    hide Mod, Lap, Frontier, Marks, Contents, Turns, TicketWords;
    PassTarget(s);
    PassTurns(s);
    PassTickets(s);
  }

  lemma StoreHeadKeeps(s: State)
    requires Inv(s) && DeviceStep(s, StoreHead).Some?
    ensures Inv(DeviceStep(s, StoreHead).value)
  {
    hide Mod, Lap, Turns, Frontier, Marks, Contents, TicketWords;
    PassTarget(s);
  }

  lemma StepKeeps(s: State, a: Action)
    requires Inv(s) && Step(s, a).Some?
    ensures Inv(Step(s, a).value)
  {
    hide Inv, ThreadStep, MoverStep, DeviceStep;
    match a
    case Claim(cmd) => ClaimKeeps(s, cmd);
    case Enter(t) => EnterKeeps(s, t);
    case CopyHalf(t) => CopyHalfKeeps(s, t);
    case Mark(t) => MarkKeeps(s, t);
    case Exit(t) => ExitKeeps(s, t);
    case Finish(t) => FinishKeeps(s, t);
    case TakeLock(t) => TakeLockKeeps(s, t);
    case CheckRoom => CheckRoomKeeps(s);
    case Exchange => ExchangeKeeps(s);
    case RingDoorbell => RingDoorbellKeeps(s);
    case StoreTail => StoreTailKeeps(s);
    case Unlock => UnlockKeeps(s);
    case Fetch => FetchKeeps(s);
    case ReadHead(target) => ReadHeadKeeps(s, target);
    case PassOne => PassOneKeeps(s);
    case StoreHead => StoreHeadKeeps(s);
  }

  ghost function Run(qs: nat, actions: seq<Action>): Option<State>
    requires qs > 0
  {
    if actions == [] then Some(Init(qs))
    else
      match Run(qs, actions[..|actions| - 1])
      case None => None
      case Some(s) => if Sized(s) then Step(s, actions[|actions| - 1]) else None
  }

  lemma {:induction false} RunInv(qs: nat, actions: seq<Action>)
    requires qs > 0 && Run(qs, actions).Some?
    ensures Inv(Run(qs, actions).value)
  {
    hide Inv, Step, Init;
    if actions == [] {
      InitInv(qs);
    } else {
      RunInv(qs, actions[..|actions| - 1]);
      StepKeeps(Run(qs, actions[..|actions| - 1]).value, actions[|actions| - 1]);
    }
  }

  // ----- what every run guarantees -----

  /** Each command reaches the controller exactly once, whole, in ticket order. */
  lemma FetchedInOrder(qs: nat, actions: seq<Action>)
    requires qs > 0 && Run(qs, actions).Some?
    ensures var s := Run(qs, actions).value; s.fetched <= |s.cmds| && s.log == s.cmds[..s.fetched]
  {
    hide Run, Mod, Lap, Turns, Marks, Contents, TicketWords, Frontier, Counters;
    RunInv(qs, actions);
  }

  /** The doorbell covers only fully written commands: whatever it exposes stands complete in its slot. */
  lemma DoorbellCovers(qs: nat, actions: seq<Action>, t: nat)
    requires qs > 0 && Run(qs, actions).Some?
    requires Run(qs, actions).value.fetched <= t < Run(qs, actions).value.rung
    ensures var s := Run(qs, actions).value;
            && Sized(s) && t < |s.cmds| && s.slots[Mod(t, s.qs)] == s.cmds[t]
            && s.doorbell == Mod(s.rung, s.qs) && s.rung - s.head < s.qs
  {
    hide Run, Mod, Lap, Turns, Marks, Contents, TicketWords, Frontier;
    RunInv(qs, actions);
    LiveIsCurrent(Run(qs, actions).value, t);
  }

  /** The ticket word of every position, at every moment: twice the lap of the current ticket, plus one if its
      enqueuer finished, plus one if the head moved past it. */
  lemma TicketFormula(qs: nat, actions: seq<Action>, p: nat)
    requires qs > 0 && Run(qs, actions).Some? && Sized(Run(qs, actions).value) && p < Run(qs, actions).value.qs
    ensures var s := Run(qs, actions).value;
            && s.tickets[p] == TicketValue(s.qs, s.pcs, Passed(s), s.cur[p]) && Mod(s.cur[p], s.qs) == p
            && (forall u | 0 <= u < |s.pcs| && Mod(u, s.qs) == p :: u > s.cur[p] ==> s.pcs[u].Waiting?)
            && (forall u | 0 <= u < |s.pcs| && Mod(u, s.qs) == p :: u < s.cur[p] ==> s.pcs[u].Done? && u < Passed(s))
  {
    hide Run, Mod, Lap, Marks, Contents, Frontier, Counters;
    RunInv(qs, actions);
  }

  /** A slot is written only after every earlier command of that slot was both published and fetched. */
  lemma SlotReuse(qs: nat, actions: seq<Action>, t: nat, u: nat)
    requires qs > 0 && Run(qs, actions).Some? && Sized(Run(qs, actions).value)
    requires Step(Run(qs, actions).value, CopyHalf(t)).Some? && u < t
    requires Mod(u, Run(qs, actions).value.qs) == Mod(t, Run(qs, actions).value.qs)
    ensures var s := Run(qs, actions).value; u < s.fetched == |s.log| && u < Front(s) && s.pcs[u].Done? && s.log[u] == s.cmds[u]
  {
    hide Run, Mod, Lap, Marks, Contents, TicketWords;
    RunInv(qs, actions);
    IsCurrent(Run(qs, actions).value, t);
  }

  /** What the holder of tail_lock can do next, and the mover of the head. */
  function NextOfMover(s: State): Action {
    match s.mover
    case Nobody => StoreTail
    case Scanning(_, _) => CheckRoom
    case Roomy(_, _) => Exchange
    case Stopped(_, n) => if n > 0 then RingDoorbell else Unlock
    case Rang(_, _) => StoreTail
    case Stored(_) => Unlock
  }

  /** No deadlock: while a ticket is not done, somebody can take a step towards it. The first unfinished ticket can enter,
      copy, mark, leave or finish; or the tail mover can go on; or the controller can fetch; or the head can move. */
  lemma NoDeadlock(qs: nat, actions: seq<Action>, t: nat)
    requires qs > 1 && Run(qs, actions).Some?
    requires var s := Run(qs, actions).value;
             t < |s.pcs| && !s.pcs[t].Done? && forall u | 0 <= u < t :: s.pcs[u].Done?
    ensures var s := Run(qs, actions).value;
            && Sized(s)
            && (|| Step(s, Enter(t)).Some? || Step(s, CopyHalf(t)).Some? || Step(s, Mark(t)).Some? || Step(s, Exit(t)).Some?
                || Step(s, Finish(t)).Some?
                || (!s.mover.Nobody? && Step(s, NextOfMover(s)).Some?)
                || (Step(s, TakeLock(t)).Some? && s.marks[Mod(t, s.qs)] && t == Front(s) && Front(s) + 1 < s.head + s.qs)
                || Step(s, Fetch).Some?
                || (s.headMover.Passing? && (Step(s, PassOne).Some? || Step(s, StoreHead).Some?))
                || (s.fetched > s.head && Step(s, ReadHead(s.fetched)).Some?))
  {
    hide Run, Mod, Lap, Counters, Frontier, Turns, Marks, Contents, TicketWords, MoverStep, DeviceStep, NextOfMover;
    RunInv(qs, actions);
    QueueSize(qs, actions);
    var s := Run(qs, actions).value;
    if s.pcs[t].Waiting? {
      WaitingTurn(s, t);
    } else if s.pcs[t].Marked? {
      MarkedTurn(s, t);
    } else if s.pcs[t].Copying? {
      IsCurrent(s, t);
      MarkOf(s, t);
    }
  }

  lemma {:induction false} QueueSize(qs: nat, actions: seq<Action>)
    requires qs > 0 && Run(qs, actions).Some?
    ensures Run(qs, actions).value.qs == qs
  {
    hide Mod, Lap;
    if actions != [] { QueueSize(qs, actions[..|actions| - 1]); }
  }

  /** Between rung and fetched, or fetched and head, something is left to do for the controller or the head. */
  lemma BehindMoves(s: State)
    requires Inv(s) && Passed(s) < s.rung
    ensures Step(s, Fetch).Some? || (s.headMover.Passing? && (Step(s, PassOne).Some? || Step(s, StoreHead).Some?))
            || (s.fetched > s.head && Step(s, ReadHead(s.fetched)).Some?)
  {
    hide Mod, Lap, Turns, Frontier, Marks, Contents, TicketWords;
    ModApart(s.fetched, s.rung, s.qs);
  }

  lemma WaitingTurn(s: State, t: nat)
    requires Inv(s) && t < |s.pcs| && s.pcs[t].Waiting? && forall u | 0 <= u < t :: s.pcs[u].Done?
    ensures || Step(s, Enter(t)).Some? || (!s.mover.Nobody? && Step(s, NextOfMover(s)).Some?)
            || Step(s, Fetch).Some? || (s.headMover.Passing? && (Step(s, PassOne).Some? || Step(s, StoreHead).Some?))
            || (s.fetched > s.head && Step(s, ReadHead(s.fetched)).Some?)
  {
    hide Mod, Lap, Marks, Contents, Counters;
    var c := s.cur[Mod(t, s.qs)];
    PreviousTurn(s, t);
    WaitingAhead(s, t);
    if c != t {
      NextLap(c, s.qs);
      if c >= Passed(s) { FinishedBehind(s, c); }
    }
  }

  /** The position of the first unfinished ticket is its own, or that of the ticket one lap before. */
  lemma PreviousTurn(s: State, t: nat)
    requires Inv(s) && t < |s.pcs| && s.pcs[t].Waiting? && forall u | 0 <= u < t :: s.pcs[u].Done?
    ensures var c := s.cur[Mod(t, s.qs)]; c == t || (c + s.qs == t && s.pcs[c].Done?)
  {
    hide Mod, Lap, Marks, Contents, Counters, TicketWords, Frontier;
    var c := s.cur[Mod(t, s.qs)];
    if c < t < c + s.qs {
      ModApart(c, t, s.qs);
    } else if c + s.qs < t {
      NextLap(t - s.qs, s.qs);
    }
  }

  lemma FinishedBehind(s: State, c: nat)
    requires Inv(s) && c < |s.pcs| && s.pcs[c].Done? && c >= Passed(s)
    ensures (!s.mover.Nobody? && Step(s, NextOfMover(s)).Some?)
            || Step(s, Fetch).Some? || (s.headMover.Passing? && (Step(s, PassOne).Some? || Step(s, StoreHead).Some?))
            || (s.fetched > s.head && Step(s, ReadHead(s.fetched)).Some?)
  {
    hide Mod, Lap, Turns, Marks, Contents, TicketWords;
    if s.mover.Nobody? { BehindMoves(s); }
  }

  lemma MarkedTurn(s: State, t: nat)
    requires Inv(s) && s.qs > 1 && t < |s.pcs| && s.pcs[t].Marked? && forall u | 0 <= u < t :: s.pcs[u].Done?
    ensures || Step(s, Exit(t)).Some? || (!s.mover.Nobody? && Step(s, NextOfMover(s)).Some?)
            || (Step(s, TakeLock(t)).Some? && s.marks[Mod(t, s.qs)] && t == Front(s) && Front(s) + 1 < s.head + s.qs)
            || Step(s, Fetch).Some? || (s.headMover.Passing? && (Step(s, PassOne).Some? || Step(s, StoreHead).Some?))
            || (s.fetched > s.head && Step(s, ReadHead(s.fetched)).Some?)
  {
    hide Mod, Lap, Turns, Marks, Contents, TicketWords;
    IsCurrent(s, t);
    MarkOf(s, t);
    if s.mover.Nobody? && s.marks[Mod(t, s.qs)] {
      assert t == Front(s);
      if Front(s) + 1 == s.head + s.qs && Passed(s) < s.rung { BehindMoves(s); }
    }
  }
}

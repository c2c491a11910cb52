// Runs of the shared completion queue (include/nvm_parallel_queue.h) in which a poll matches two laps after it read the
// head: what it reports, what its thread then does, and what that does to the next holder of its identifier.
module LappedPoll {
  import opened Bits
  import opened Options
  import opened CompletionQueue

  // ----- commands that come and go -----

  lemma Go(actions: seq<Action>, a: Action) returns (more: seq<Action>)
    requires Run(4, 2, actions).Some? && Sized(Run(4, 2, actions).value) && Step(Run(4, 2, actions).value, a).Some?
    ensures more == actions + [a]
    ensures Run(4, 2, more) == Step(Run(4, 2, actions).value, a)
  {
    hide Step;
    more := actions + [a];
    assert more[..|actions|] == actions;
  }

  /** Ring memory after `n` completions under identifier 1. */
  function GuestEntries(n: nat): (e: seq<Entry>)
    ensures |e| == 4
  {
    if n == 0 then [Entry(0, 0), Entry(0, 0), Entry(0, 0), Entry(0, 0)]
    else GuestEntries(n - 1)[Mod(n - 1, 4) := Entry(1, PhaseOf(n - 1, 4))]
  }

  function GuestLast(n: nat): (l: seq<Option<nat>>)
    ensures |l| == 4
  {
    if n == 0 then [None, None, None, None] else GuestLast(n - 1)[Mod(n - 1, 4) := Some(n - 1)]
  }

  const HOST: Thread := Thread(0, Polling(0, 0), None)
  const NONE: seq<Option<nat>> := [None, None, None, None]
  const CLEAR: seq<bool> := [false, false, false, false]

  function Guests(n: nat): (ths: seq<Thread>)
    ensures |ths| == n + 1
  {
    if n == 0 then [HOST] else Guests(n - 1) + [Thread(1, Released(n - 1), Some(n - 1))]
  }

  function Ids(n: nat): (ids: seq<nat>)
    ensures |ids| == n
  {
    if n == 0 then [] else Ids(n - 1) + [n]
  }

  /** A queue of four entries: thread 0 took its snapshot at head 0, and `n` commands came and went since. */
  function Rest(n: nat): (s: State)
    ensures Sized(s)
  {
    State(4, Guests(n), [Some(0), None], NONE, GuestEntries(n), GuestLast(n), CLEAR, n, n, Mod(n, 4), Nobody, Ids(n))
  }

  /** The same while command `n + 1` is under way; `done` tells whether its completion is posted. */
  function Visit(n: nat, pc: Pc, done: bool, mark: bool, head: nat, rung: nat, mover: Mover): (s: State)
    ensures Sized(s)
  {
    var m := if done then n + 1 else n;
    State(4, Guests(n) + [Thread(1, pc, if done then Some(n) else None)], [Some(0), Some(n + 1)],
          if HoldsPos(pc) then NONE[Mod(n, 4) := Some(n + 1)] else NONE,
          GuestEntries(m), GuestLast(m), if mark then CLEAR[Mod(n, 4) := true] else CLEAR,
          head, rung, Mod(rung, 4), mover, Ids(m))
  }

  lemma UpdateLast<T>(xs: seq<T>, x: T, y: T)
    ensures (xs + [x])[|xs| := y] == xs + [y]
  {
  }

  lemma VisitStarts(n: nat)
    ensures var s := Step(Rest(n), Start);
            s.Some? && Sized(s.value) && Step(s.value, TryCid(n + 1, 1)) == Some(Visit(n, Own, false, false, n, n, Nobody))
  {
    hide Mod, PhaseOf, GuestEntries, GuestLast, Guests, Ids;
    UpdateLast(Guests(n), Thread(0, Trying, None), Thread(1, Own, None));
    assert [Some(0), None][1 := Some(n + 1)] == [Some(0), Some(n + 1)];
  }

  lemma VisitFlies(n: nat)
    ensures Step(Visit(n, Own, false, false, n, n, Nobody), Submit(n + 1)) == Some(Visit(n, Flying, false, false, n, n, Nobody))
    ensures Step(Visit(n, Flying, false, false, n, n, Nobody), Post(n + 1)) == Some(Visit(n, Flying, true, false, n, n, Nobody))
  {
    hide Mod, PhaseOf, Guests;
    UpdateLast(Guests(n), Thread(1, Own, None), Thread(1, Flying, None));
    UpdateLast(Guests(n), Thread(1, Flying, None), Thread(1, Flying, Some(n)));
    ModApart(n + 1, n, 4);
  }

  lemma VisitPolls(n: nat)
    ensures Step(Visit(n, Flying, true, false, n, n, Nobody), Snapshot(n + 1)) == Some(Visit(n, Polling(n, 0), true, false, n, n, Nobody))
    ensures Step(Visit(n, Polling(n, 0), true, false, n, n, Nobody), ReadEntry(n + 1)) == Some(Visit(n, Matched(n), true, false, n, n, Nobody))
  {
    hide Mod, PhaseOf, Guests, Ids;
    UpdateLast(Guests(n), Thread(1, Flying, Some(n)), Thread(1, Polling(n, 0), Some(n)));
    UpdateLast(Guests(n), Thread(1, Polling(n, 0), Some(n)), Thread(1, Matched(n), Some(n)));
    assert GuestEntries(n + 1)[Mod(n, 4)] == Entry(1, PhaseOf(n, 4));
  }

  lemma VisitMarks(n: nat)
    ensures Step(Visit(n, Matched(n), true, false, n, n, Nobody), LockPos(n + 1)) == Some(Visit(n, Holding(n), true, false, n, n, Nobody))
    ensures Step(Visit(n, Holding(n), true, false, n, n, Nobody), MarkHead(n + 1)) == Some(Visit(n, Marked(n), true, true, n, n, Nobody))
  {
    hide Mod, PhaseOf, Guests, Ids, GuestEntries, GuestLast;
    UpdateLast(Guests(n), Thread(1, Matched(n), Some(n)), Thread(1, Holding(n), Some(n)));
    UpdateLast(Guests(n), Thread(1, Holding(n), Some(n)), Thread(1, Marked(n), Some(n)));
  }

  lemma VisitScans(n: nat)
    ensures Step(Visit(n, Marked(n), true, true, n, n, Nobody), TakeLock(n + 1))
         == Some(Visit(n, Marked(n), true, true, n, n, Scanning(n + 1, 0)))
    ensures Step(Visit(n, Marked(n), true, true, n, n, Scanning(n + 1, 0)), Exchange)
         == Some(Visit(n, Marked(n), true, false, n, n, Scanning(n + 1, 1)))
    ensures Step(Visit(n, Marked(n), true, false, n, n, Scanning(n + 1, 1)), Exchange)
         == Some(Visit(n, Marked(n), true, false, n, n, Stopped(n + 1, 1)))
  {
    hide Mod, PhaseOf, Guests, Ids, GuestEntries, GuestLast;
    var p, q := Mod(n, 4), Mod(n + 1, 4);
    assert CLEAR[p := true][p := false] == CLEAR;
    assert CLEAR[q] == false && CLEAR[q := false] == CLEAR;
  }

  lemma VisitMoves(n: nat)
    ensures Step(Visit(n, Marked(n), true, false, n, n, Stopped(n + 1, 1)), RingDoorbell)
         == Some(Visit(n, Marked(n), true, false, n, n + 1, Rang(n + 1, 1)))
    ensures Step(Visit(n, Marked(n), true, false, n, n + 1, Rang(n + 1, 1)), StoreHead)
         == Some(Visit(n, Marked(n), true, false, n + 1, n + 1, Stored(n + 1)))
    ensures Step(Visit(n, Marked(n), true, false, n + 1, n + 1, Stored(n + 1)), Unlock)
         == Some(Visit(n, Marked(n), true, false, n + 1, n + 1, Nobody))
  {
    hide Mod, PhaseOf, Guests, Ids, GuestEntries, GuestLast;
  }

  lemma VisitLeaves(n: nat)
    ensures Step(Visit(n, Marked(n), true, false, n + 1, n + 1, Nobody), SeeCleared(n + 1))
         == Some(Visit(n, Cleared(n), true, false, n + 1, n + 1, Nobody))
    ensures Step(Visit(n, Cleared(n), true, false, n + 1, n + 1, Nobody), SeePassed(n + 1))
         == Some(Visit(n, Leaving(n), true, false, n + 1, n + 1, Nobody))
  {
    hide Mod, PhaseOf, Guests, Ids, GuestEntries, GuestLast;
    UpdateLast(Guests(n), Thread(1, Marked(n), Some(n)), Thread(1, Cleared(n), Some(n)));
    UpdateLast(Guests(n), Thread(1, Cleared(n), Some(n)), Thread(1, Leaving(n), Some(n)));
    assert CLEAR[Mod(n, 4)] == false;
  }

  lemma VisitEnds(n: nat)
    ensures Step(Visit(n, Leaving(n), true, false, n + 1, n + 1, Nobody), UnlockPos(n + 1))
         == Some(Visit(n, Unlocked(n), true, false, n + 1, n + 1, Nobody))
    ensures Step(Visit(n, Unlocked(n), true, false, n + 1, n + 1, Nobody), PutCid(n + 1)) == Some(Rest(n + 1))
  {
    hide Mod, PhaseOf, Ids, GuestEntries, GuestLast;
    UpdateLast(Guests(n), Thread(1, Leaving(n), Some(n)), Thread(1, Unlocked(n), Some(n)));
    UpdateLast(Guests(n), Thread(1, Unlocked(n), Some(n)), Thread(1, Released(n), Some(n)));
    var p := Mod(n, 4);
    assert NONE[p := Some(n + 1)][p := None] == NONE;
    assert [Some(0), Some(n + 1)][1 := None] == [Some(0), None];
  }

  /** Thread 0 starts, takes identifier 0, submits and reads the head; then threads 1 to `n` run one command each
      under identifier 1, one after the other. */
  function Visits(n: nat): seq<Action> {
    if n == 0 then [Start, TryCid(0, 0), Submit(0), Snapshot(0)]
    else Visits(n - 1) + [Start, TryCid(n, 1), Submit(n), Post(n), Snapshot(n), ReadEntry(n), LockPos(n), MarkHead(n), TakeLock(n),
                          Exchange, Exchange, RingDoorbell, StoreHead, Unlock, SeeCleared(n), SeePassed(n), UnlockPos(n), PutCid(n)]
  }

  lemma VisitOpens(n: nat, a: seq<Action>) returns (b: seq<Action>)
    requires Run(4, 2, a) == Some(Rest(n))
    ensures b == a + [Start, TryCid(n + 1, 1), Submit(n + 1), Post(n + 1), Snapshot(n + 1), ReadEntry(n + 1)]
    ensures Run(4, 2, b) == Some(Visit(n, Matched(n), true, false, n, n, Nobody))
  {
    hide Step, Run, Rest, Visit;
    VisitStarts(n);
    VisitFlies(n);
    VisitPolls(n);
    b := Go(a, Start);
    b := Go(b, TryCid(n + 1, 1));
    b := Go(b, Submit(n + 1));
    b := Go(b, Post(n + 1));
    b := Go(b, Snapshot(n + 1));
    b := Go(b, ReadEntry(n + 1));
  }

  lemma VisitDequeues(n: nat, a: seq<Action>) returns (b: seq<Action>)
    requires Run(4, 2, a) == Some(Visit(n, Matched(n), true, false, n, n, Nobody))
    ensures b == a + [LockPos(n + 1), MarkHead(n + 1), TakeLock(n + 1), Exchange, Exchange, RingDoorbell]
    ensures Run(4, 2, b) == Some(Visit(n, Marked(n), true, false, n, n + 1, Rang(n + 1, 1)))
  {
    hide Step, Run, Rest, Visit;
    VisitMarks(n);
    VisitScans(n);
    VisitMoves(n);
    b := Go(a, LockPos(n + 1));
    b := Go(b, MarkHead(n + 1));
    b := Go(b, TakeLock(n + 1));
    b := Go(b, Exchange);
    b := Go(b, Exchange);
    b := Go(b, RingDoorbell);
  }

  lemma VisitCloses(n: nat, a: seq<Action>) returns (b: seq<Action>)
    requires Run(4, 2, a) == Some(Visit(n, Marked(n), true, false, n, n + 1, Rang(n + 1, 1)))
    ensures b == a + [StoreHead, Unlock, SeeCleared(n + 1), SeePassed(n + 1), UnlockPos(n + 1), PutCid(n + 1)]
    ensures Run(4, 2, b) == Some(Rest(n + 1))
  {
    hide Step, Run, Rest, Visit;
    VisitMoves(n);
    VisitLeaves(n);
    VisitEnds(n);
    b := Go(a, StoreHead);
    b := Go(b, Unlock);
    b := Go(b, SeeCleared(n + 1));
    b := Go(b, SeePassed(n + 1));
    b := Go(b, UnlockPos(n + 1));
    b := Go(b, PutCid(n + 1));
  }

  function First(th: Thread, holder: seq<Option<nat>>): (s: State)
    ensures Sized(s)
  {
    State(4, [th], holder, NONE, GuestEntries(0), GuestLast(0), CLEAR, 0, 0, 0, Nobody, [])
  }

  lemma FirstStart()
    ensures Step(Init(4, 2), Start) == Some(First(Thread(0, Trying, None), [None, None]))
  {
    hide PhaseOf, Mod;
    var s := Init(4, 2);
    assert s.holder == [None, None] && s.posHolder == NONE && s.marks == CLEAR && s.entries == GuestEntries(0) && s.last == GuestLast(0);
    assert s.threads + [Thread(0, Trying, None)] == [Thread(0, Trying, None)];
  }

  lemma FirstSteps()
    ensures Step(First(Thread(0, Trying, None), [None, None]), TryCid(0, 0)) == Some(First(Thread(0, Own, None), [Some(0), None]))
    ensures Step(First(Thread(0, Own, None), [Some(0), None]), Submit(0)) == Some(First(Thread(0, Flying, None), [Some(0), None]))
    ensures Step(First(Thread(0, Flying, None), [Some(0), None]), Snapshot(0)) == Some(Rest(0))
  {
    hide PhaseOf, GuestEntries, GuestLast;
    assert [Thread(0, Trying, None)][0 := Thread(0, Own, None)] == [Thread(0, Own, None)];
    assert [Thread(0, Own, None)][0 := Thread(0, Flying, None)] == [Thread(0, Flying, None)];
    assert [Thread(0, Flying, None)][0 := HOST] == [HOST];
    var free: seq<Option<nat>> := [None, None];
    assert free[0 := Some(0)] == [Some(0), None];
  }

  lemma Opening()
    ensures Run(4, 2, Visits(0)) == Some(Rest(0))
  {
    hide Step, Rest, First, Init;
    FirstStart();
    FirstSteps();
    InitCore(4, 2);
    var b := Go([], Start);
    b := Go(b, TryCid(0, 0));
    b := Go(b, Submit(0));
    b := Go(b, Snapshot(0));
    assert b == Visits(0);
  }

  lemma {:induction false} VisitsRun(n: nat)
    ensures Run(4, 2, Visits(n)) == Some(Rest(n))
  {
    hide Step, Run, Rest, Visit;
    if n == 0 {
      Opening();
    } else {
      VisitsRun(n - 1);
      var b := VisitOpens(n - 1, Visits(n - 1));
      b := VisitDequeues(n - 1, b);
      b := VisitCloses(n - 1, b);
      assert b == Visits(n);
    }
  }

  function Crowd(host: Thread, late: seq<Thread>): (ths: seq<Thread>)
    ensures |ths| == 9 + |late| && ths[0] == host && ths[9..] == late
  {
    [host] + Guests(8)[1..] + late
  }

  /** Eight commands later, with the head at 8: thread 0, and the threads `late` from 9 on. */
  function Late(host: Thread, late: seq<Thread>, holder: seq<Option<nat>>, pos: seq<Option<nat>>, marks: seq<bool>, mover: Mover,
                entries: seq<Entry>, last: seq<Option<nat>>, posted: seq<nat>): (s: State)
    requires |pos| == |marks| == |entries| == |last| == 4
    ensures Sized(s)
  {
    State(4, Crowd(host, late), holder, pos, entries, last, marks, 8, 8, 0, mover, posted)
  }

  function HostEntries(): (e: seq<Entry>)
    ensures |e| == 4 && e[0] == Entry(0, 1)
  {
    GuestEntries(8)[0 := Entry(0, 1)]
  }

  lemma Numbers()
    ensures Mod(0, 4) == Mod(8, 4) == 0 && Mod(9, 4) == 1 && Mod(10, 4) == 2
    ensures PhaseOf(0, 4) == PhaseOf(8, 4) == PhaseOf(9, 4) == 1
  {
    PhaseFlips(0, 4);
    PhaseFlips(4, 4);
    PhaseFlips(1, 4);
    PhaseFlips(5, 4);
    ModIsRemainder(8, 4);
    ModIsRemainder(9, 4);
    ModIsRemainder(10, 4);
  }

  lemma HostPosted()
    ensures Step(Rest(8), Post(0))
         == Some(Late(Thread(0, Polling(0, 0), Some(8)), [], [Some(0), None], NONE, CLEAR, Nobody,
                      HostEntries(), GuestLast(8)[0 := Some(8)], Ids(8) + [0]))
  {
    hide Mod, PhaseOf, GuestEntries, GuestLast, Ids, Guests;
    Numbers();
    GuestsHost(8);
    assert Guests(8)[0 := Thread(0, Polling(0, 0), Some(8))] == Crowd(Thread(0, Polling(0, 0), Some(8)), []);
  }

  lemma {:induction false} GuestsHost(n: nat)
    ensures Guests(n)[0] == HOST
  {
    if n > 0 {
      GuestsHost(n - 1);
    }
  }

  lemma CrowdHost(host: Thread, late: seq<Thread>, th: Thread)
    ensures Crowd(host, late)[0 := th] == Crowd(th, late)
  {
  }

  lemma CrowdLate(host: Thread, late: seq<Thread>, i: nat, th: Thread)
    requires i < |late|
    ensures Crowd(host, late)[9 + i := th] == Crowd(host, late[i := th]) && Crowd(host, late)[9 + i] == late[i]
  {
  }

  lemma CrowdStart(host: Thread, late: seq<Thread>, th: Thread)
    ensures Crowd(host, late) + [th] == Crowd(host, late + [th])
  {
  }

  const LAPPED: Thread := Thread(0, Polling(0, 0), Some(8))

  /** Thread 0 with its completion at 8, and thread 9 from taking identifier 1 to waiting at its mark. */
  function Ninth(pc: Pc, done: bool): (s: State)
    requires !done ==> pc == Own || pc == Flying
    ensures Sized(s)
  {
    Late(LAPPED, [Thread(1, pc, if done then Some(9) else None)], [Some(0), Some(9)],
         if HoldsPos(pc) then NONE[1 := Some(9)] else NONE, if pc.Marked? then CLEAR[1 := true] else CLEAR, Nobody,
         if done then HostEntries()[1 := Entry(1, 1)] else HostEntries(),
         if done then GuestLast(8)[0 := Some(8)][1 := Some(9)] else GuestLast(8)[0 := Some(8)],
         if done then Ids(8) + [0, 9] else Ids(8) + [0])
  }

  function EighthDone(): (s: State)
    ensures Sized(s)
  {
    Late(LAPPED, [], [Some(0), None], NONE, CLEAR, Nobody, HostEntries(), GuestLast(8)[0 := Some(8)], Ids(8) + [0])
  }

  /** cq_poll by a thread that was overtaken by two laps: it reports position 0, its completion is at 8. */
  lemma PollLapped()
    ensures Step(EighthDone(), ReadEntry(0))
         == Some(EighthDone().(threads := Crowd(Thread(0, Matched(0), Some(8)), [])))
  {
    hide Mod, PhaseOf, GuestEntries, GuestLast, Ids, Guests, Crowd;
    Numbers();
    CrowdHost(LAPPED, [], Thread(0, Matched(0), Some(8)));
  }

  lemma NinthStarts()
    ensures var s := Step(EighthDone(), Start);
            s.Some? && Sized(s.value) && Step(s.value, TryCid(9, 1)) == Some(Ninth(Own, false))
  {
    hide Mod, PhaseOf, GuestEntries, GuestLast, Ids, Guests, Crowd;
    CrowdStart(LAPPED, [], Thread(0, Trying, None));
    assert [] + [Thread(0, Trying, None)] == [Thread(0, Trying, None)];
    CrowdLate(LAPPED, [Thread(0, Trying, None)], 0, Thread(1, Own, None));
    assert [Thread(0, Trying, None)][0 := Thread(1, Own, None)] == [Thread(1, Own, None)];
    assert [Some(0), None][1 := Some(9)] == [Some(0), Some(9)];
  }

  lemma NinthPosts()
    ensures Step(Ninth(Own, false), Submit(9)) == Some(Ninth(Flying, false))
    ensures Step(Ninth(Flying, false), Post(9)) == Some(Ninth(Flying, true))
  {
    hide Mod, PhaseOf, GuestEntries, GuestLast, Ids, Guests, Crowd;
    Numbers();
    NinthMoves(Thread(1, Own, None), Thread(1, Flying, None));
    NinthMoves(Thread(1, Flying, None), Thread(1, Flying, Some(9)));
    assert Ids(8) + [0] + [9] == Ids(8) + [0, 9];
  }

  lemma NinthMoves(th: Thread, th': Thread)
    ensures Crowd(LAPPED, [th])[9] == th && Crowd(LAPPED, [th])[9 := th'] == Crowd(LAPPED, [th'])
  {
    CrowdLate(LAPPED, [th], 0, th');
    assert [th][0 := th'] == [th'];
  }

  lemma NinthPolls()
    ensures Step(Ninth(Flying, true), Snapshot(9)) == Some(Ninth(Polling(8, 0), true))
    ensures Step(Ninth(Polling(8, 0), true), ReadEntry(9)) == Some(Ninth(Polling(8, 1), true))
    ensures Step(Ninth(Polling(8, 1), true), ReadEntry(9)) == Some(Ninth(Matched(9), true))
  {
    hide Mod, PhaseOf, GuestEntries, GuestLast, Ids, Guests, Crowd, HostEntries;
    Numbers();
    NinthMoves(Thread(1, Flying, Some(9)), Thread(1, Polling(8, 0), Some(9)));
    NinthMoves(Thread(1, Polling(8, 0), Some(9)), Thread(1, Polling(8, 1), Some(9)));
    NinthMoves(Thread(1, Polling(8, 1), Some(9)), Thread(1, Matched(9), Some(9)));
  }

  lemma NinthMarks()
    ensures Step(Ninth(Matched(9), true), LockPos(9)) == Some(Ninth(Holding(9), true))
    ensures Step(Ninth(Holding(9), true), MarkHead(9)) == Some(Ninth(Marked(9), true))
  {
    hide Mod, PhaseOf, GuestEntries, GuestLast, Ids, Guests, Crowd, HostEntries;
    Numbers();
    NinthMoves(Thread(1, Matched(9), Some(9)), Thread(1, Holding(9), Some(9)));
    NinthMoves(Thread(1, Holding(9), Some(9)), Thread(1, Marked(9), Some(9)));
  }

  const NINTH: Thread := Thread(1, Marked(9), Some(9))

  /** Thread 9 waits at its mark or moves the head, and thread 0 dequeues the position it was told. */
  function Dequeue(pc: Pc, mark: bool, mover: Mover): (s: State)
    ensures Sized(s)
  {
    Late(Thread(0, pc, Some(8)), [NINTH], [if pc.Released? then None else Some(0), Some(9)],
         [if HoldsPos(pc) then Some(0) else None, Some(9), None, None], [mark, true, false, false], mover,
         HostEntries()[1 := Entry(1, 1)], GuestLast(8)[0 := Some(8)][1 := Some(9)], Ids(8) + [0, 9])
  }

  lemma NinthWaits()
    ensures Ninth(Marked(9), true) == Dequeue(Polling(0, 0), false, Nobody)
  {
    hide Mod, PhaseOf, GuestEntries, GuestLast, Ids, Guests, Crowd, HostEntries;
    assert NONE[1 := Some(9)] == [None, Some(9), None, None];
    assert CLEAR[1 := true] == [false, true, false, false];
  }

  lemma HostMoves(th: Thread, th': Thread)
    ensures Crowd(th, [NINTH])[9] == NINTH && Crowd(th, [NINTH])[0 := th'] == Crowd(th', [NINTH])
  {
    CrowdHost(th, [NINTH], th');
    CrowdLate(th, [NINTH], 0, NINTH);
  }

  lemma HostMarks()
    ensures Step(Dequeue(Polling(0, 0), false, Nobody), ReadEntry(0)) == Some(Dequeue(Matched(0), false, Nobody))
    ensures Step(Dequeue(Matched(0), false, Nobody), LockPos(0)) == Some(Dequeue(Holding(0), false, Nobody))
    ensures Step(Dequeue(Holding(0), false, Nobody), MarkHead(0)) == Some(Dequeue(Marked(0), true, Nobody))
  {
    hide Mod, PhaseOf, GuestEntries, GuestLast, Ids, Guests, Crowd, HostEntries;
    Numbers();
    HostMoves(LAPPED, Thread(0, Matched(0), Some(8)));
    HostMoves(Thread(0, Matched(0), Some(8)), Thread(0, Holding(0), Some(8)));
    HostMoves(Thread(0, Holding(0), Some(8)), Thread(0, Marked(0), Some(8)));
    assert [None, Some(9), None, None][0 := Some(0)] == [Some(0), Some(9), None, None];
    assert [false, true, false, false][0 := true] == [true, true, false, false];
  }

  lemma NinthScans()
    ensures Step(Dequeue(Marked(0), true, Nobody), TakeLock(9)) == Some(Dequeue(Marked(0), true, Scanning(9, 0)))
    ensures Step(Dequeue(Marked(0), true, Scanning(9, 0)), Exchange) == Some(Dequeue(Marked(0), false, Scanning(9, 1)))
    ensures Step(Dequeue(Marked(0), false, Scanning(9, 1)), SeeCleared(0)) == Some(Dequeue(Cleared(0), false, Scanning(9, 1)))
  {
    hide Mod, PhaseOf, GuestEntries, GuestLast, Ids, Guests, Crowd, HostEntries;
    Numbers();
    HostMoves(Thread(0, Marked(0), Some(8)), Thread(0, Cleared(0), Some(8)));
    assert [true, true, false, false][0 := false] == [false, true, false, false];
  }

  lemma HostLeaves()
    ensures Step(Dequeue(Cleared(0), false, Scanning(9, 1)), SeePassed(0)) == Some(Dequeue(Leaving(0), false, Scanning(9, 1)))
    ensures Step(Dequeue(Leaving(0), false, Scanning(9, 1)), UnlockPos(0)) == Some(Dequeue(Unlocked(0), false, Scanning(9, 1)))
    ensures Step(Dequeue(Unlocked(0), false, Scanning(9, 1)), PutCid(0)) == Some(Dequeue(Released(0), false, Scanning(9, 1)))
  {
    hide Mod, PhaseOf, GuestEntries, GuestLast, Ids, Guests, Crowd, HostEntries;
    Numbers();
    HostMoves(Thread(0, Cleared(0), Some(8)), Thread(0, Leaving(0), Some(8)));
    HostMoves(Thread(0, Leaving(0), Some(8)), Thread(0, Unlocked(0), Some(8)));
    HostMoves(Thread(0, Unlocked(0), Some(8)), Thread(0, Released(0), Some(8)));
    assert [Some(0), Some(9), None, None][0 := None] == [None, Some(9), None, None];
    assert [Some(0), Some(9)][0 := None] == [None, Some(9)];
  }

  /** Thread 10 has taken over identifier 0. */
  function Tenth(pc: Pc): (s: State)
    ensures Sized(s)
  {
    Late(Thread(0, Released(0), Some(8)), [NINTH, Thread(0, pc, None)], [Some(10), Some(9)],
         [None, Some(9), None, None], [false, true, false, false], Scanning(9, 1),
         HostEntries()[1 := Entry(1, 1)], GuestLast(8)[0 := Some(8)][1 := Some(9)], Ids(8) + [0, 9])
  }

  lemma TenthMoves(th: Thread, th': Thread)
    ensures var c := Crowd(Thread(0, Released(0), Some(8)), [NINTH, th]);
            c[10] == th && c[10 := th'] == Crowd(Thread(0, Released(0), Some(8)), [NINTH, th'])
  {
    CrowdLate(Thread(0, Released(0), Some(8)), [NINTH, th], 1, th');
    assert [NINTH, th][1 := th'] == [NINTH, th'];
  }

  lemma TenthStarts()
    ensures var s := Step(Dequeue(Released(0), false, Scanning(9, 1)), Start);
            s.Some? && Sized(s.value) && Step(s.value, TryCid(10, 0)) == Some(Tenth(Own))
  {
    hide Mod, PhaseOf, GuestEntries, GuestLast, Ids, Guests, Crowd, HostEntries;
    CrowdStart(Thread(0, Released(0), Some(8)), [NINTH], Thread(0, Trying, None));
    assert [NINTH] + [Thread(0, Trying, None)] == [NINTH, Thread(0, Trying, None)];
    TenthMoves(Thread(0, Trying, None), Thread(0, Own, None));
    assert [None, Some(9)][0 := Some(10)] == [Some(10), Some(9)];
  }

  lemma TenthPolls()
    ensures Step(Tenth(Own), Submit(10)) == Some(Tenth(Flying))
    ensures Step(Tenth(Flying), Snapshot(10)) == Some(Tenth(Polling(8, 0)))
    ensures Step(Tenth(Polling(8, 0)), ReadEntry(10)) == Some(Tenth(Matched(8)))
  {
    hide Mod, PhaseOf, GuestEntries, GuestLast, Ids, Guests, Crowd, HostEntries;
    Numbers();
    TenthMoves(Thread(0, Own, None), Thread(0, Flying, None));
    TenthMoves(Thread(0, Flying, None), Thread(0, Polling(8, 0), None));
    TenthMoves(Thread(0, Polling(8, 0), None), Thread(0, Matched(8), None));
  }

  // ----- the failing runs -----

  /** Two full laps between a snapshot and the read: cq_poll reports position 0 to a thread whose completion is 8. */
  lemma PollOvertaken()
    ensures var s := Run(4, 2, Visits(8) + [Post(0), ReadEntry(0)]);
            s.Some? && |s.value.threads| == 9 && s.value.threads[0] == Thread(0, Matched(0), Some(8))
  {
    hide Step, Run, Rest;
    VisitsRun(8);
    HostPosted();
    PollLapped();
    var actions := Go(Visits(8), Post(0));
    actions := Go(actions, ReadEntry(0));
    assert actions == Visits(8) + [Post(0), ReadEntry(0)];
  }

  lemma HostPosts()
    ensures Step(Rest(8), Post(0)) == Some(EighthDone())
  {
    hide Step, Rest, Late;
    HostPosted();
  }

  /** Thread 0 is overtaken as before; thread 9 posts completion 9, marks it and starts to move the head; thread 0
      dequeues position 0 and frees its identifier. */
  function Claims(): seq<Action> {
    Visits(8)
    + [Post(0), Start, TryCid(9, 1), Submit(9), Post(9), Snapshot(9), ReadEntry(9), ReadEntry(9), LockPos(9), MarkHead(9)]
    + [ReadEntry(0), LockPos(0), MarkHead(0), TakeLock(9), Exchange, SeeCleared(0), SeePassed(0), UnlockPos(0), PutCid(0)]
  }

  lemma NinthArrives() returns (actions: seq<Action>)
    ensures actions == Visits(8) + [Post(0), Start, TryCid(9, 1), Submit(9), Post(9), Snapshot(9), ReadEntry(9), ReadEntry(9),
                                    LockPos(9), MarkHead(9)]
    ensures Run(4, 2, actions) == Some(Dequeue(Polling(0, 0), false, Nobody))
  {
    hide Step, Run, Rest, Ninth, Dequeue, EighthDone, Late, Visits;
    VisitsRun(8);
    HostPosts();
    NinthStarts();
    NinthPosts();
    NinthPolls();
    NinthMarks();
    NinthWaits();
    actions := Go(Visits(8), Post(0));
    actions := Go(actions, Start);
    actions := Go(actions, TryCid(9, 1));
    actions := Go(actions, Submit(9));
    actions := Go(actions, Post(9));
    actions := Go(actions, Snapshot(9));
    actions := Go(actions, ReadEntry(9));
    actions := Go(actions, ReadEntry(9));
    actions := Go(actions, LockPos(9));
    actions := Go(actions, MarkHead(9));
  }

  lemma HostClaims(first: seq<Action>) returns (actions: seq<Action>)
    requires Run(4, 2, first) == Some(Dequeue(Polling(0, 0), false, Nobody))
    ensures actions == first + [ReadEntry(0), LockPos(0), MarkHead(0), TakeLock(9), Exchange, SeeCleared(0), SeePassed(0),
                                UnlockPos(0), PutCid(0)]
    ensures Run(4, 2, actions) == Some(Dequeue(Released(0), false, Scanning(9, 1)))
  {
    hide Step, Run, Dequeue;
    HostMarks();
    NinthScans();
    HostLeaves();
    actions := Go(first, ReadEntry(0));
    actions := Go(actions, LockPos(0));
    actions := Go(actions, MarkHead(0));
    actions := Go(actions, TakeLock(9));
    actions := Go(actions, Exchange);
    actions := Go(actions, SeeCleared(0));
    actions := Go(actions, SeePassed(0));
    actions := Go(actions, UnlockPos(0));
    actions := Go(actions, PutCid(0));
  }

  lemma ClaimsRun()
    ensures Run(4, 2, Claims()) == Some(Dequeue(Released(0), false, Scanning(9, 1)))
  {
    hide Step, Run, Dequeue, Visits;
    var actions := NinthArrives();
    actions := HostClaims(actions);
  }

  /** The head mover is about to take the mark of position 0 for completion 8, whose thread marked the wrong position. */
  lemma FrontOvertaken() returns (actions: seq<Action>)
    ensures actions <= Claims()
    ensures var s := Run(4, 2, actions);
            && s.Some? && |s.value.marks| == 4 && |s.value.posted| == 10 && |s.value.threads| == 10
            && Front(s.value) == 8 && s.value.marks[Mod(8, 4)] && s.value.posted[8] == 0 && s.value.threads[0].pc == Marked(0)
  {
    hide Step, Run, Visits, Ids, GuestEntries, GuestLast, HostEntries;
    Numbers();
    HostMarks();
    NinthScans();
    var first := NinthArrives();
    actions := Go(first, ReadEntry(0));
    actions := Go(actions, LockPos(0));
    actions := Go(actions, MarkHead(0));
    actions := Go(actions, TakeLock(9));
    assert Claims() == actions + [Exchange, SeeCleared(0), SeePassed(0), UnlockPos(0), PutCid(0)];
  }

  /** The overtaken thread is done and has freed its identifier while its own completion, 8, is still at the head. */
  lemma ClaimOvertaken()
    ensures var s := Run(4, 2, Claims());
            s.Some? && |s.value.threads| == 10 && s.value.threads[0] == Thread(0, Released(0), Some(8)) && s.value.head == 8
  {
    hide Step, Run, Claims;
    ClaimsRun();
  }

  /** The next holder of identifier 0 then takes completion 8 for its own, before the controller completed anything for it. */
  lemma CompletionStolen()
    ensures var s := Run(4, 2, Claims() + [Start, TryCid(10, 0), Submit(10), Snapshot(10), ReadEntry(10)]);
            s.Some? && |s.value.threads| == 11 && s.value.threads[10] == Thread(0, Matched(8), None)
  {
    hide Step, Run, Claims, Tenth, Dequeue;
    ClaimsRun();
    TenthStarts();
    TenthPolls();
    var actions := Go(Claims(), Start);
    actions := Go(actions, TryCid(10, 0));
    actions := Go(actions, Submit(10));
    actions := Go(actions, Snapshot(10));
    actions := Go(actions, ReadEntry(10));
    TenthThreads();
    assert actions == Claims() + [Start, TryCid(10, 0), Submit(10), Snapshot(10), ReadEntry(10)];
  }

  lemma TenthThreads()
    ensures var s := Tenth(Matched(8)); |s.threads| == 11 && s.threads[10] == Thread(0, Matched(8), None)
  {
    TenthMoves(Thread(0, Matched(8), None), Thread(0, Matched(8), None));
  }
}

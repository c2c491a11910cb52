// Batched submission on a queue pair one thread owns (include/page_cache.h): many commands, one doorbell, one poll on
// the phase tag of the last completion, with 32-bit counters that wrap.
module ExclusiveQueue {
  import opened Bits
  import SubmissionQueue
  import CompletionQueue
  import NvmCmd

  /** The sixteen dwords of a command. */
  type Command = seq<nat>

  /** A transfer as the callers hand it over: block range and prepared PRPs. */
  datatype Merged = Merged(lba: nat, blocks: nat, prp1: nat, prp2: nat)

  const WORD: nat := 0x1_0000_0000

  function PhaseOf(k: nat, qs: nat): nat
    requires qs > 0
  {
    CompletionQueue.PhaseOf(k, qs)
  }

  // ----- 32-bit counters -----

  lemma {:induction false} PhaseIsParity(k: nat, qs: nat)
    requires qs > 0
    ensures PhaseOf(k, qs) == (k / qs + 1) % 2
  {
    if k < qs {
      DivModUnique(k, qs, 0, k);
    } else {
      PhaseIsParity(k - qs, qs);
      ModAddMultiple(k - qs, qs, 1);
    }
  }

  lemma WordIsEvenLaps(log: nat)
    requires log <= 31
    ensures WORD == 2 * Pow2(31 - log) * Pow2(log)
  {
    Pow2Of32();
    Pow2Add(32 - log, log);
  }

  lemma WordsAreLaps(k: nat, h: nat, half: nat, q: nat)
    requires WORD == 2 * half * q && h == k / WORD
    ensures k == k % WORD + (2 * (h * half)) * q
  {
    assert h * (2 * half * q) == (2 * (h * half)) * q;
  }

  /** A counter truncated to 32 bits still gives the ring position and the phase tag, for every power-of-two ring. */
  lemma WrapKeepsPlace(k: nat, log: nat)
    requires log <= 31
    ensures Mod(k % WORD, Pow2(log)) == Mod(k, Pow2(log))
    ensures (Shr(k % WORD, log) + 1) % 2 == PhaseOf(k, Pow2(log))
  {
    hide Mod, Shr, Pow2;
    var q, half, h, r := Pow2(log), Pow2(31 - log), k / WORD, k % WORD;
    WordIsEvenLaps(log);
    WordsAreLaps(k, h, half, q);
    ModAddMultiple(r, q, 2 * (h * half));
    ModIsRemainder(r, q);
    ModIsRemainder(k, q);
    ShrIsDiv(r, log);
    PhaseIsParity(k, q);
    EvenShift(r / q, h * half);
  }

  lemma EvenShift(a: nat, b: nat)
    ensures (a + 2 * b + 1) % 2 == (a + 1) % 2
  {
  }

  // ----- the controller's memory -----

  /** The phase bits after `posted` completions: the last lap of them, and zero where none has been posted yet. */
  ghost predicate PhaseMemory(phases: seq<nat>, posted: nat, qs: nat)
    requires 0 < qs == |phases|
  {
    && (forall k: nat | posted - qs <= k < posted :: phases[Mod(k, qs)] == PhaseOf(k, qs))
    && (forall p | posted <= p < qs :: phases[p] == 0)
  }

  lemma PostOne(phases: seq<nat>, posted: nat, qs: nat)
    requires 0 < qs == |phases| && PhaseMemory(phases, posted, qs)
    ensures PhaseMemory(phases[Mod(posted, qs) := PhaseOf(posted, qs)], posted + 1, qs)
  {
    hide Mod;
    var p, after := Mod(posted, qs), phases[Mod(posted, qs) := PhaseOf(posted, qs)];
    forall k: nat | posted + 1 - qs <= k < posted + 1 ensures after[Mod(k, qs)] == PhaseOf(k, qs) {
      ModApart(k, posted, qs);
    }
    forall x | posted + 1 <= x < qs ensures after[x] == 0 {
      CompletionQueue.SmallMod(posted, qs);
    }
  }

  /** The one phase bit tells it all: with at most `count` of the batch's completions posted, the bit at the last
      position has the expected value exactly when all of them are. */
  lemma LastPhaseDecides(phases: seq<nat>, base: nat, count: nat, posted: nat, qs: nat)
    requires 0 < qs == |phases| && PhaseMemory(phases, posted, qs) && 0 < count <= qs && base <= posted <= base + count
    ensures var target := base + count - 1;
            phases[Mod(target, qs)] == PhaseOf(target, qs) <==> posted == base + count
  {
    hide Mod;
    var target := base + count - 1;
    if posted < base + count {
      if target >= qs {
        CompletionQueue.PhaseFlips(target - qs, qs);
      } else {
        CompletionQueue.SmallMod(target, qs);
      }
    }
  }

  // ----- writing and fetching commands -----

  /** `cmds` stand in the ring from position `base` on. */
  ghost predicate Placed(slots: seq<Command>, base: nat, cmds: seq<Command>, n: nat)
    requires |slots| > 0
  {
    n <= |cmds| && forall i: nat | i < n :: slots[Mod(base + i, |slots|)] == cmds[i]
  }

  lemma PlaceOne(slots: seq<Command>, base: nat, cmds: seq<Command>, n: nat)
    requires |slots| > 0 && Placed(slots, base, cmds, n) && n < |cmds| <= |slots|
    ensures Placed(slots[Mod(base + n, |slots|) := cmds[n]], base, cmds, n + 1)
  {
    hide Mod;
    var after := slots[Mod(base + n, |slots|) := cmds[n]];
    forall i: nat | i < n + 1 ensures after[Mod(base + i, |slots|)] == cmds[i] {
      if i < n { ModApart(base + i, base + n, |slots|); }
    }
  }

  /** Why a batch must be smaller than the queue: only then does the doorbell differ from the head. */
  lemma DoorbellMoves(base: nat, count: nat, qs: nat)
    requires 0 < count <= qs
    ensures Mod(base + count, qs) != Mod(base, qs) <==> count < qs
  {
    if count < qs { ModApart(base + count, base, qs); } else { SubmissionQueue.NextLap(base, qs); }
  }

  /** The controller reads from its position to the doorbell. */
  method DeviceFetch(slots: seq<Command>, head: nat, doorbell: nat, ghost base: nat, ghost cmds: seq<Command>)
    returns (log: seq<Command>)
    requires |slots| > 0 && |cmds| < |slots| && Placed(slots, base, cmds, |cmds|)
    requires head == Mod(base, |slots|) && doorbell == Mod(base + |cmds|, |slots|)
    ensures log == cmds
  {
    hide Mod, Placed;
    var pos := head;
    log := [];
    ghost var i: nat := 0;
    while pos != doorbell
      invariant i <= |cmds| && pos == Mod(base + i, |slots|) && log == cmds[..i]
      decreases |cmds| - i
    {
      ModApart(base + i, base + |cmds|, |slots|);
      PlacedAt(slots, base, cmds, i);
      ModPlus(base + i, 1, |slots|);
      log := log + [slots[pos]];
      pos := Mod(pos + 1, |slots|);
      i := i + 1;
    }
    ModApart(base + i, base + |cmds|, |slots|);
  }

  lemma PlacedAt(slots: seq<Command>, base: nat, cmds: seq<Command>, i: nat)
    requires |slots| > 0 && Placed(slots, base, cmds, |cmds|) && i < |cmds|
    ensures slots[Mod(base + i, |slots|)] == cmds[i]
  {
    hide Mod;
  }

  // ----- building commands -----

  /** `cmds` are the transfers `ms`, with consecutive command identifiers from `baseCid` on. */
  ghost predicate Encodes(cmds: seq<Command>, ms: seq<Merged>, opcode: nat, ns: nat, baseCid: nat) {
    |cmds| == |ms| && forall i | 0 <= i < |ms| :: EncodesOne(cmds[i], ms[i], opcode, ns, (baseCid + i) % NvmCmd.D16)
  }

  ghost predicate EncodesOne(cmd: Command, m: Merged, opcode: nat, ns: nat, cid: nat) {
    |cmd| == 16 && NvmCmd.Decode(cmd) == NvmCmd.Command(cid, opcode, 0, 0, ns, m.prp1, m.prp2, m.lba, m.blocks)
  }

  /** Block counts a command can express. */
  ghost predicate Countable(ms: seq<Merged>) {
    forall i | 0 <= i < |ms| :: 1 <= ms[i].blocks <= NvmCmd.D16
  }

  method BuildCommands(ms: seq<Merged>, opcode: nat, ns: nat, baseCid: nat) returns (cmds: seq<Command>)
    requires Countable(ms) && opcode < 128
    ensures Encodes(cmds, ms, opcode, ns, baseCid)
  {
    hide NvmCmd.Decode;
    cmds := [];
    for i := 0 to |ms|
      invariant Encodes(cmds, ms[..i], opcode, ns, baseCid)
    {
      var dw := new nat[16](_ => 0);
      var m := ms[i];
      NvmCmd.BuildCommand(dw, (baseCid + i) % NvmCmd.D16, opcode, ns, m.lba, m.blocks, m.prp1, m.prp2);
      cmds := cmds + [dw[..]];
    }
    assert ms[..|ms|] == ms;
  }

  /** Within one batch no identifier repeats, although the 32-bit ticket and the 16-bit identifiers wrap. */
  lemma CidsDistinct(baseCid: nat, i: nat, j: nat)
    requires i < j < NvmCmd.D16
    ensures (baseCid + i) % NvmCmd.D16 != (baseCid + j) % NvmCmd.D16
  {
  }

  ghost predicate AllFree(cids: seq<bool>) {
    |cids| == NvmCmd.D16 && forall c | 0 <= c < |cids| :: !cids[c]
  }

  /** How the controller proceeds while it is polled: never back, and done by the read number `patience`. */
  ghost predicate Paced(pace: nat -> nat, count: nat, patience: nat) {
    && (forall k: nat, l: nat | k <= l :: pace(k) <= pace(l)) && (forall k: nat :: pace(k) <= count) && pace(patience) == count
  }

  // ----- the queue pair -----

  class QueuePair {
    const sqLog: nat
    const cqLog: nat
    var sqTail: nat
    var sqHead: nat
    var cqHead: nat
    var sqDoorbell: nat
    var cqDoorbell: nat
    var slots: seq<Command>
    var phases: seq<nat>
    var position: nat         // where the controller fetches next
    var posted: nat           // how many completions it has posted
    var flying: nat           // commands it has fetched and not executed yet
    var cidTicket: nat
    var cids: seq<bool>       // locked command identifiers
    ghost var total: nat      // commands of all calls so far

    /** Between calls: nothing in flight, everything posted, the counters equal the total modulo 2^32. */
    ghost predicate Valid()
      reads this
    {
      && flying == 0 && AllFree(cids) && cidTicket < WORD
      && sqLog <= 31 && cqLog <= 31 && |slots| == Pow2(sqLog) && |phases| == Pow2(cqLog)
      && sqTail == sqHead == cqHead == total % WORD && posted == total
      && position == sqDoorbell == Mod(total, Pow2(sqLog)) && cqDoorbell == Mod(total, Pow2(cqLog))
      && PhaseMemory(phases, total, Pow2(cqLog))
    }

    constructor (sqLog: nat, cqLog: nat)
      requires sqLog <= 31 && cqLog <= 31
      ensures Valid() && total == 0 && this.sqLog == sqLog && this.cqLog == cqLog
    {
      this.sqLog, this.cqLog := sqLog, cqLog;
      sqTail, sqHead, cqHead, sqDoorbell, cqDoorbell := 0, 0, 0, 0, 0;
      slots := seq(Pow2(sqLog), _ => []);
      phases := seq(Pow2(cqLog), _ => 0);
      position, posted, flying, cidTicket := 0, 0, 0, 0;
      cids := seq(NvmCmd.D16, _ => false);
      total := 0;
    }

    lemma Idle()
      requires Valid()
      ensures flying == 0
    {
    }

    /** Step 2: build the commands at the tail. */
    method Write(cmds: seq<Command>)
      requires Valid() && |cmds| < Pow2(sqLog)
      modifies this`slots
      ensures Valid() && Placed(slots, total, cmds, |cmds|)
    {
      hide Mod, Shr, PhaseMemory, Placed;
      PlacedNone(slots, total, cmds);
      for i := 0 to |cmds|
        invariant Valid() && Placed(slots, total, cmds, i)
      {
        PositionOf(total, i, sqLog);
        PlaceOne(slots, total, cmds, i);
        slots := slots[Mod((sqTail + i) % WORD, Pow2(sqLog)) := cmds[i]];
      }
    }

    /** `n` commands are out: the doorbell is rung, the controller has fetched them all, executed some and posted no
        more completions than that. */
    ghost predicate Busy(n: nat)
      reads this
    {
      && AllFree(cids) && cidTicket < WORD && sqLog <= 31 && cqLog <= 31 && |slots| == Pow2(sqLog) && |phases| == Pow2(cqLog)
      && 0 < n < Pow2(cqLog) && flying <= n && total <= posted <= total + (n - flying)
      && sqTail == (total + n) % WORD && sqHead == cqHead == total % WORD
      && position == sqDoorbell == Mod(total + n, Pow2(sqLog)) && cqDoorbell == Mod(total, Pow2(cqLog))
      && PhaseMemory(phases, posted, Pow2(cqLog))
    }

    /** Steps 2 and 3: write the commands, ring the doorbell once. */
    method Send(cmds: seq<Command>) returns (fetched: seq<Command>)
      requires Valid() && 0 < |cmds| < Pow2(sqLog) && |cmds| < Pow2(cqLog)
      modifies this`slots, this`sqDoorbell, this`sqTail, this`position, this`flying
      ensures Busy(|cmds|) && flying == |cmds| && posted == total && fetched == cmds
    {
      hide Mod, Shr, Pow2, PhaseMemory, Placed, AllFree;
      var baseTail := sqTail;
      Write(cmds);
      CountersAfter(total, |cmds|, sqLog);
      var newTail := (baseTail + |cmds|) % WORD;
      sqDoorbell := Mod(newTail, Pow2(sqLog));
      sqTail := newTail;
      fetched := DeviceFetch(slots, position, sqDoorbell, total, cmds);
      position, flying := sqDoorbell, |cmds|;
    }

    /** Step 1: consecutive identifiers from the 32-bit ticket. */
    method TakeCids(count: nat) returns (baseCid: nat)
      requires Valid()
      modifies this`cidTicket
      ensures Valid() && baseCid == old(cidTicket) % NvmCmd.D16 && cidTicket == (old(cidTicket) + count) % WORD
    {
      hide Mod, Pow2, PhaseMemory, AllFree;
      baseCid := cidTicket % NvmCmd.D16;
      cidTicket := (cidTicket + count) % WORD;
    }

    /** Steps 1 to 3. */
    method Begin(opcode: nat, ns: nat, ms: seq<Merged>) returns (baseCid: nat, fetched: seq<Command>)
      requires Valid() && 0 < |ms| < Pow2(sqLog) && |ms| < Pow2(cqLog) && Countable(ms) && opcode < 128
      modifies this`cidTicket, this`slots, this`sqDoorbell, this`sqTail, this`position, this`flying
      ensures Busy(|ms|) && flying == |ms| && posted == total
      ensures baseCid == old(cidTicket) % NvmCmd.D16 && cidTicket == (old(cidTicket) + |ms|) % WORD
      ensures Encodes(fetched, ms, opcode, ns, baseCid)
    {
      hide Valid, Busy, Encodes, Countable, Pow2;
      baseCid := TakeCids(|ms|);
      var cmds := BuildCommands(ms, opcode, ns, baseCid);
      EncodesCount(cmds, ms, opcode, ns, baseCid);
      fetched := Send(cmds);
    }

    /** The controller has executed one more command. */
    method Retire(n: nat)
      requires Busy(n) && flying > 0
      modifies this`flying
      ensures Busy(n) && flying == old(flying) - 1
    {
      flying := flying - 1;
    }

    /** The controller posts completions, each with the phase tag of its lap, for commands it has executed. */
    method Post(n: nat, upto: nat)
      requires Busy(n) && posted <= upto <= total + (n - flying)
      modifies this`phases, this`posted
      ensures Busy(n) && posted == upto
    {
      hide Mod, Pow2, PhaseMemory, PhaseOf, AllFree;
      while posted < upto
        invariant Busy(n) && posted <= upto
      {
        PostOne(phases, posted, Pow2(cqLog));
        phases := phases[Mod(posted, Pow2(cqLog)) := PhaseOf(posted, Pow2(cqLog))];
        posted := posted + 1;
      }
    }

    /** Step 4, one read: the phase bit of the last entry tells whether all `n` commands are executed and posted. */
    method LastSeen(n: nat) returns (done: bool)
      requires Busy(n)
      ensures done <==> posted == total + n
      ensures done ==> flying == 0
    {
      hide Mod, Shr, Pow2, PhaseMemory, PhaseOf, AllFree;
      var target := (cqHead + n - 1) % WORD;
      TargetOf(total, n, cqLog);
      LastPhaseDecides(phases, total, n, posted, Pow2(cqLog));
      done := phases[Mod(target, Pow2(cqLog))] == (Shr(target, cqLog) + 1) % 2;
    }

    /** Steps 5 and 6: release both queues at once, then the identifiers. */
    method End(n: nat, baseCid: nat)
      requires Busy(n) && posted == total + n
      modifies this`cqHead, this`cqDoorbell, this`sqHead, this`total, this`cids
      ensures Valid() && total == old(total) + n && sqHead == sqTail
    {
      hide Mod, Shr, Pow2, PhaseMemory;
      var baseTail := sqHead;
      CountersAfter(total, n, cqLog);
      var newCqHead := (cqHead + n) % WORD;
      cqHead := newCqHead;
      cqDoorbell := Mod(newCqHead, Pow2(cqLog));
      sqHead := (baseTail + n) % WORD;
      total := total + n;
      for i := 0 to n
        invariant Valid()
      {
        cids := cids[(baseCid + i) % NvmCmd.D16 := false];
      }
    }

    /** The controller executes and posts until `done` of the `n` commands are complete. */
    method Complete(n: nat, base: nat, done: nat)
      requires Busy(n) && base == total && flying + posted == base + n && posted <= base + done && done <= n
      modifies this`flying, this`phases, this`posted
      ensures Busy(n) && posted == base + done && flying == n - done
    {
      hide Mod, Pow2, PhaseMemory, AllFree;
      while flying > n - done
        invariant Busy(n) && n - done <= flying && posted == old(posted)
      {
        Retire(n);
      }
      Post(n, base + done);
    }

    /** sched_batch_merged_rw. The controller gets exactly the transfers of this call, in order, under consecutive
        identifiers; the call returns at the first read after all of them are executed and posted; and the queue pair
        is again as it was before, `|ms|` further on. By the `k`-th read the controller has completed `pace(k)`. */
    method Submit(opcode: nat, ns: nat, ms: seq<Merged>, pace: nat -> nat, ghost patience: nat)
      returns (baseCid: nat, fetched: seq<Command>, polls: nat)
      requires Valid() && |ms| < Pow2(sqLog) && |ms| < Pow2(cqLog) && Countable(ms) && opcode < 128
      requires Paced(pace, |ms|, patience)
      modifies this
      ensures Valid() && total == old(total) + |ms| && sqHead == sqTail && Encodes(fetched, ms, opcode, ns, baseCid)
      ensures cidTicket == (old(cidTicket) + |ms|) % WORD && (|ms| > 0 ==> baseCid == old(cidTicket) % NvmCmd.D16)
      ensures |ms| > 0 ==> pace(polls) == |ms| && forall k: nat | k < polls :: pace(k) < |ms|
    {
      hide Mod, Shr, Pow2, PhaseMemory, Placed, Encodes, Countable, AllFree, Busy;
      baseCid, fetched, polls := 0, [], 0;
      if |ms| == 0 {
        NothingEncoded(opcode, ns);
        return;
      }
      var n := |ms|;
      baseCid, fetched := Begin(opcode, ns, ms);
      var base := posted;
      while true
        invariant Busy(n) && polls <= patience && (forall k: nat | k < polls :: pace(k) < n)
        invariant base == total == old(total) && cidTicket == (old(cidTicket) + n) % WORD
        invariant flying + posted == base + n && posted <= base + pace(polls)
        decreases patience - polls
      {
        Complete(n, base, pace(polls));
        var done := LastSeen(n);
        if done {
          break;
        }
        polls := polls + 1;
      }
      End(n, baseCid);
    }
  }

  lemma EncodesCount(cmds: seq<Command>, ms: seq<Merged>, opcode: nat, ns: nat, baseCid: nat)
    requires Encodes(cmds, ms, opcode, ns, baseCid)
    ensures |cmds| == |ms|
  {
  }

  lemma NothingEncoded(opcode: nat, ns: nat)
    ensures Encodes([], [], opcode, ns, 0)
  {
  }

  lemma PlacedNone(slots: seq<Command>, base: nat, cmds: seq<Command>)
    requires |slots| > 0
    ensures Placed(slots, base, cmds, 0)
  {
  }

  lemma PositionOf(total: nat, i: nat, log: nat)
    requires log <= 31
    ensures Mod((total % WORD + i) % WORD, Pow2(log)) == Mod(total + i, Pow2(log))
  {
    hide Mod, Shr, Pow2;
    WrapSum(total, i);
    WrapKeepsPlace(total + i, log);
  }

  lemma WrapSum(a: nat, b: nat)
    ensures (a % WORD + b) % WORD == (a + b) % WORD
  {
  }

  lemma TargetOf(total: nat, count: nat, log: nat)
    requires log <= 31 && count > 0
    ensures var target := (total % WORD + count - 1) % WORD;
            Mod(target, Pow2(log)) == Mod(total + count - 1, Pow2(log))
            && (Shr(target, log) + 1) % 2 == PhaseOf(total + count - 1, Pow2(log))
  {
    hide Mod, Shr, Pow2;
    WrapSum(total, count - 1);
    WrapKeepsPlace(total + count - 1, log);
  }

  lemma CountersAfter(total: nat, count: nat, log: nat)
    requires log <= 31
    ensures (total % WORD + count) % WORD == (total + count) % WORD
    ensures Mod((total % WORD + count) % WORD, Pow2(log)) == Mod(total + count, Pow2(log))
  {
    PositionOf(total, count, log);
    WrapSum(total, count);
  }
}

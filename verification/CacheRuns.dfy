// What every run of the page cache (include/page_cache.h) guarantees, from an empty cache on: reads see the last store,
// pages stay while they are pinned, no access faults; and what a controller override does to reads.
module CacheRuns {
  import opened Options
  import opened PageCache

  // ----- whole runs -----

  lemma GoKeeps(s: State, t: nat, x: nat)
    requires Inv(s) && OverrideOk(s.places, s.readCtrl) && Step(s, Go(t, x)).Some?
    ensures Inv(Step(s, Go(t, x)).value)
  {
    hide Inv, OverrideOk;
    match s.threads[t].pc
    case Start => StartKeeps(s, t);
    case Look(_) => LookKeeps(s, t);
    case Reload => ReloadKeeps(s, t);
    case Raced => RacedKeeps(s, t);
    case Pick => PickKeeps(s, t, x);
    case Try(_, _) => TryKeeps(s, t, x);
    case SetFree(_) => SetTransKeeps(s, t);
    case Held(_) => HeldKeeps(s, t);
    case Check(_, _) => CheckKeeps(s, t);
    case TryBusy(_, _) => TryBusyKeeps(s, t);
    case Undo(_, _) => UndoKeeps(s, t);
    case WriteBack(_, _, _) => WriteBackKeeps(s, t);
    case Clear(_, _) => ClearKeeps(s, t);
    case SetNew(_) => SetTransKeeps(s, t);
    case Finish(_) => FinishKeeps(s, t);
    case GiveUp(_) => GiveUpKeeps(s, t);
    case Fetch(_) => FetchKeeps(s, t, x);
    case SetOffset(_) => SetOffsetKeeps(s, t);
    case SetDirty(_) => SetDirtyKeeps(s, t);
    case SetValid(_) => SetValidKeeps(s, t);
    case HitDirty => HitDirtyKeeps(s, t);
    case HitOffset => HitOffsetKeeps(s, t);
    case Pinned(_) => ReleaseKeeps(s, t);
    case Gone =>
  }

  lemma StepKeeps(s: State, a: Action)
    requires Inv(s) && OverrideOk(s.places, s.readCtrl) && Step(s, a).Some?
    ensures Inv(Step(s, a).value)
  {
    hide Inv, Step, OverrideOk;
    match a
    case Begin(g, n, write) => BeginKeeps(s, g, n, write);
    case Go(t, x) => GoKeeps(s, t, x);
    case Store(t, i, v) => StoreKeeps(s, t, i, v);
  }

  ghost function Run(s0: State, actions: seq<Action>): Option<State> {
    if actions == [] then Some(s0)
    else
      match Run(s0, actions[..|actions| - 1])
      case None => None
      case Some(s) => if Sized(s) then Step(s, actions[|actions| - 1]) else None
  }

  ghost predicate Reaches(s0: State, actions: seq<Action>, s: State) {
    Initial(s0) && OverrideOk(s0.places, s0.readCtrl) && Run(s0, actions) == Some(s)
  }

  /** Threads keep their pages, and loading or evicting changes no content. */
  ghost predicate Frame(s: State, t: nat, s': State)
    requires t < |s.threads|
  {
    && s'.places == s.places && s'.readCtrl == s.readCtrl && s'.content == s.content && |s'.threads| == |s.threads|
    && s'.threads == s.threads[t := s.threads[t].(pc := s'.threads[t].pc)]
  }

  lemma AcquireFrame(s: State, t: nat, x: nat)
    requires Sized(s) && t < |s.threads| && AcquireStep(s, t, x).Some?
    ensures Frame(s, t, AcquireStep(s, t, x).value)
  {
    hide Sized, Source, Fetched;
  }

  lemma FindFrame(s: State, t: nat, x: nat)
    requires Sized(s) && t < |s.threads| && FindStep(s, t, x).Some?
    ensures Frame(s, t, FindStep(s, t, x).value)
  {
    hide Sized;
  }

  lemma StepConst(s: State, a: Action)
    requires Sized(s) && Step(s, a).Some?
    ensures Step(s, a).value.places == s.places && Step(s, a).value.readCtrl == s.readCtrl
  {
    hide Sized, AcquireStep, FindStep;
    if a.Go? {
      if AcquireStep(s, a.t, a.x).Some? { AcquireFrame(s, a.t, a.x); } else { FindFrame(s, a.t, a.x); }
    }
  }

  lemma {:induction false} RunInv(s0: State, actions: seq<Action>, s: State)
    requires Reaches(s0, actions, s)
    ensures Inv(s) && s.places == s0.places && s.readCtrl == s0.readCtrl
  {
    hide Inv, Step, Initial, OverrideOk;
    if actions == [] {
      InitialInv(s0);
    } else {
      var before := actions[..|actions| - 1];
      RunInv(s0, before, Run(s0, before).value);
      StepKeeps(Run(s0, before).value, actions[|actions| - 1]);
      StepConst(Run(s0, before).value, actions[|actions| - 1]);
    }
  }

  // ----- what every run guarantees -----

  /** The pages that the acquisitions ask for, in order: entry `t` is the page of thread `t`. */
  function Asked(actions: seq<Action>): seq<nat> {
    if actions == [] then []
    else
      var a := actions[|actions| - 1];
      Asked(actions[..|actions| - 1]) + (if a.Begin? then [a.page] else [])
  }

  /** Plain memory: the stores of the run replayed in order, each at its thread's page. */
  function Plain(content: seq<Data>, actions: seq<Action>): (c: seq<Data>)
    ensures |c| == |content| && forall g | 0 <= g < |c| :: |c[g]| == |content[g]|
  {
    if actions == [] then content
    else
      var n := |actions| - 1;
      var c := Plain(content, actions[..n]);
      StoreTo(c, Asked(actions[..n]), actions[n])
  }

  function StoreTo(c: seq<Data>, asked: seq<nat>, a: Action): (c': seq<Data>)
    ensures |c'| == |c| && forall g | 0 <= g < |c| :: |c'[g]| == |c[g]|
  {
    if a.Store? && a.t < |asked| && asked[a.t] < |c| && a.i < |c[asked[a.t]]|
    then c[asked[a.t] := c[asked[a.t]][a.i := a.v]] else c
  }

  ghost predicate Serves(ths: seq<Thread>, asked: seq<nat>) {
    |ths| == |asked| && forall t | 0 <= t < |ths| :: ths[t].page == asked[t]
  }

  lemma StepPlain(s: State, a: Action, asked: seq<nat>)
    requires Sized(s) && Step(s, a).Some? && Serves(s.threads, asked)
    ensures var s' := Step(s, a).value;
            s'.content == StoreTo(s.content, asked, a) && Serves(s'.threads, asked + (if a.Begin? then [a.page] else []))
  {
    hide AcquireStep, FindStep;
    assert asked + [] == asked;
    if a.Go? {
      if AcquireStep(s, a.t, a.x).Some? { AcquireFrame(s, a.t, a.x); } else { FindFrame(s, a.t, a.x); }
    }
  }

  /** Whatever the threads, the slots and the evictions do, the content after a run is the initial content with the
      stores of the run replayed in order. */
  lemma {:induction false} ContentIsPlain(s0: State, actions: seq<Action>, s: State)
    requires s0.threads == [] && Run(s0, actions) == Some(s)
    ensures s.content == Plain(s0.content, actions) && Serves(s.threads, Asked(actions))
  {
    hide Step, Sized;
    if actions != [] {
      var n := |actions| - 1;
      ContentIsPlain(s0, actions[..n], Run(s0, actions[..n]).value);
      StepPlain(Run(s0, actions[..n]).value, actions[n], Asked(actions[..n]));
    }
  }

  /** Action `k` stores element `i` of page `g`. */
  predicate StoresAt(actions: seq<Action>, k: nat, g: nat, i: nat)
    requires k < |actions|
  {
    var asked := Asked(actions[..k]);
    actions[k].Store? && actions[k].t < |asked| && asked[actions[k].t] == g && actions[k].i == i
  }

  /** In plain memory the last store to an element is what it holds. */
  lemma {:induction false} LastStore(content: seq<Data>, actions: seq<Action>, g: nat, i: nat, k: nat)
    requires g < |content| && i < |content[g]| && k < |actions| && StoresAt(actions, k, g, i)
    requires forall j | k < j < |actions| :: !StoresAt(actions, j, g, i)
    ensures Plain(content, actions)[g][i] == actions[k].v
  {
    var n := |actions| - 1;
    if k < n {
      var front := actions[..n];
      forall j | k <= j < n ensures StoresAt(front, j, g, i) == StoresAt(actions, j, g, i) {
        assert front[..j] == actions[..j];
      }
      LastStore(content, front, g, i, k);
      assert !StoresAt(actions, n, g, i);
    }
  }

  lemma {:induction false} NeverStored(content: seq<Data>, actions: seq<Action>, g: nat, i: nat)
    requires g < |content| && i < |content[g]| && forall j | 0 <= j < |actions| :: !StoresAt(actions, j, g, i)
    ensures Plain(content, actions)[g][i] == content[g][i]
  {
    if actions != [] {
      var n := |actions| - 1;
      var front := actions[..n];
      forall j | 0 <= j < n ensures !StoresAt(front, j, g, i) {
        assert front[..j] == actions[..j] && !StoresAt(actions, j, g, i);
      }
      NeverStored(content, front, g, i);
      assert !StoresAt(actions, n, g, i);
    }
  }

  /** Reading through the slot a thread holds gives what plain memory holds: the stores of the whole run, in order. */
  lemma ReadIsPlain(s0: State, actions: seq<Action>, s: State, t: nat)
    requires Reaches(s0, actions, s) && t < |s.threads| && s.threads[t].pc.Pinned?
    ensures var th := s.threads[t];
            th.page < |s0.content| == |s.words| && th.pc.p < |s.bufs| && s.bufs[th.pc.p] == Plain(s0.content, actions)[th.page]
            && (th.write ==> s.words[th.page].dirty)
  {
    hide Inv, Initial, OverrideOk, Run;
    RunInv(s0, actions, s);
    ThreadFacts(s, t);
    PinnedAlone(s, t);
    InitialEmpty(s0);
    ContentIsPlain(s0, actions, s);
  }

  lemma InitialEmpty(s0: State)
    requires Initial(s0)
    ensures s0.threads == []
  {
  }

  /** Coherence: at every moment plain memory's value of a page is in its slot's buffer when the page is valid, and at every
      one of its places on the controllers when it is not, or is clean. */
  lemma Coherence(s0: State, actions: seq<Action>, s: State, g: nat)
    requires Reaches(s0, actions, s) && g < |s.words|
    ensures Sized(s) && |s0.content| == |s.words|
    ensures s.words[g].valid ==> s.offset[g] < |s.bufs| && s.bufs[s.offset[g]] == Plain(s0.content, actions)[g]
    ensures !s.words[g].valid || !s.words[g].dirty ==>
              forall r | 0 <= r < |s.places[g]| :: s.disk[s.places[g][r]] == Plain(s0.content, actions)[g]
  {
    hide Run, OverrideOk, Initial, Counts, Busy, NoClash, Disjoint, SlotsResident, ValidPlaced, FillersPlaced, SlotLocks, Pinning,
      OutCoherent, Stable, FilledCoherent, Plain;
    RunInv(s0, actions, s);
    InitialEmpty(s0);
    ContentIsPlain(s0, actions, s);
    if !s.words[g].valid || !s.words[g].dirty { CleanIsBacked(s, g); }
  }

  /** So a read returns the value of the last store to that element, by whichever thread. */
  lemma ReadsLastStore(s0: State, actions: seq<Action>, s: State, t: nat, i: nat, k: nat)
    requires Reaches(s0, actions, s) && t < |s.threads| && s.threads[t].pc.Pinned?
    requires s.threads[t].page < |s0.content| && i < |s0.content[s.threads[t].page]|
    requires k < |actions| && StoresAt(actions, k, s.threads[t].page, i)
    requires forall j | k < j < |actions| :: !StoresAt(actions, j, s.threads[t].page, i)
    ensures s.threads[t].pc.p < |s.bufs| && i < |s.bufs[s.threads[t].pc.p]| && s.bufs[s.threads[t].pc.p][i] == actions[k].v
  {
    hide Reaches, StoresAt, Plain;
    ReadIsPlain(s0, actions, s, t);
    LastStore(s0.content, actions, s.threads[t].page, i, k);
  }

  /** Pin safety: from the return of acquire_page to release_page a page keeps its slot, whatever the other threads do. */
  lemma PinKeepsSlot(s0: State, actions: seq<Action>, s: State, a: Action, t: nat)
    requires Reaches(s0, actions, s) && t < |s.threads| && s.threads[t].pc.Pinned?
    requires Sized(s) && Step(s, a).Some? && !(a.Go? && a.t == t)
    ensures var s', th := Step(s, a).value, s.threads[t];
            && t < |s'.threads| && s'.threads[t] == th && th.page < |s'.words| == |s'.offset| && |s'.trans| == |s'.locks|
            && s'.words[th.page].valid && s'.offset[th.page] == th.pc.p < |s'.trans| && s'.trans[th.pc.p] == th.page
            && s'.words[th.page].cnt >= th.count
  {
    hide Initial, Run, OverrideOk, Inv;
    RunInv(s0, actions, s);
    StepKeeps(s, a);
    OthersStay(s, a, t);
    PinnedFacts(Step(s, a).value, t);
  }

  lemma OthersStay(s: State, a: Action, t: nat)
    requires Sized(s) && t < |s.threads| && Step(s, a).Some? && !(a.Go? && a.t == t)
    ensures t < |Step(s, a).value.threads| && Step(s, a).value.threads[t] == s.threads[t]
  {
    hide Sized, AcquireStep, FindStep;
    if a.Go? {
      if AcquireStep(s, a.t, a.x).Some? { AcquireFrame(s, a.t, a.x); } else { FindFrame(s, a.t, a.x); }
    }
  }

  lemma PinnedFacts(s: State, t: nat)
    requires Inv(s) && t < |s.threads| && s.threads[t].pc.Pinned?
    ensures var th := s.threads[t];
            && Sized(s) && th.page < |s.words| && s.words[th.page].valid && s.offset[th.page] == th.pc.p < |s.trans|
            && s.trans[th.pc.p] == th.page && s.words[th.page].cnt >= th.count
  {
    hide Counts, Busy, NoClash, Disjoint, SlotsResident, FillersPlaced, SlotLocks, OutCoherent, Stable, FilledCoherent, BufsCoherent,
      DiskCoherent;
    ThreadFacts(s, t);
  }

  /** Distinct resident pages occupy distinct slots. */
  lemma DistinctSlots(s0: State, actions: seq<Action>, s: State, g: nat, h: nat)
    requires Reaches(s0, actions, s) && g < |s.words| && h < |s.words| && s.words[g].valid && s.words[h].valid && g != h
    ensures Sized(s) && s.offset[g] != s.offset[h]
  {
    hide Reaches, Counts, Busy, NoClash, Disjoint, SlotsResident, FillersPlaced, SlotLocks, OutCoherent, Stable, FilledCoherent,
      BufsCoherent, DiskCoherent, Pinning;
    RunInv(s0, actions, s);
  }

  /** Every unlocked slot that is not free names a page that is valid there, or that exactly one thread is loading there. */
  lemma OpenSlotNamesPage(s0: State, actions: seq<Action>, s: State, p: nat)
    requires Reaches(s0, actions, s) && p < |s.locks| && s.locks[p].Open?
    ensures Sized(s) && s.trans[p] < |s.words|
    ensures var g := s.trans[p];
            (s.words[g].valid && s.offset[g] == p)
            || (&& s.words[g].busy.Some? && s.words[g].busy.value < |s.threads|
                && (var t := s.words[g].busy.value;
                    && s.threads[t].page == g && Fills(s.threads[t].pc) && s.threads[t].pc.p == p
                    && (forall u | 0 <= u < |s.threads| && u != t && Loading(s.threads[u].pc) :: s.threads[u].page != g)))
  {
    hide Reaches, Counts, Busy, NoClash, Disjoint, FillersPlaced, ValidPlaced, SlotLocks, OutCoherent, Stable, FilledCoherent,
      BufsCoherent, DiskCoherent, Pinning, Loading;
    RunInv(s0, actions, s);
    assert Occupied(s.locks, s.threads, p);
    var g := s.trans[p];
    assert Resident(s.words, s.offset, s.threads, p, g);
    if !(s.words[g].valid && s.offset[g] == p) {
      FillsIsLoading(s.threads[s.words[g].busy.value].pc);
      LoaderAlone(s, s.words[g].busy.value);
    }
  }

  lemma FillsIsLoading(pc: Pc)
    requires Fills(pc)
    ensures Loading(pc)
  {
  }

  /** The reference count of a page is the number of references its threads hold. */
  lemma CountIsPins(s0: State, actions: seq<Action>, s: State, g: nat)
    requires Reaches(s0, actions, s) && g < |s.words|
    ensures s.words[g].cnt == Pins(s.threads, g)
  {
    hide Reaches, Pins;
    RunInv(s0, actions, s);
  }

  /** No step of a thread ever faults: whatever the others did, its next access is in range, its count suffices and its
      step is defined; and a pinned writer can write every element of its page. */
  lemma NeverFaults(s0: State, actions: seq<Action>, s: State, t: nat)
    requires Reaches(s0, actions, s) && t < |s.threads| && !s.threads[t].pc.Gone? && |s.locks| > 0
    ensures Sized(s) && Step(s, Go(t, 0)).Some?
    ensures s.threads[t].pc.Pinned? && s.threads[t].write ==>
              forall i: nat, v: int | i < |s.content[s.threads[t].page]| :: Step(s, Store(t, i, v)).Some?
  {
    hide Reaches, Counts, Busy, NoClash, Disjoint, SlotsResident, FillersPlaced, ValidPlaced, SlotLocks, OutCoherent, Stable,
      FilledCoherent, BufsCoherent, DiskCoherent, Pinning;
    RunInv(s0, actions, s);
    ThreadFacts(s, t);
    if s.threads[t].pc.Pinned? { PinnedAlone(s, t); }
  }

  // ----- the override -----

  /** A run of one reader of page `g`, which takes slot 0: the state with the values it has changed so far. */
  ghost function Solo(s0: State, g: nat, pc: Pc, w: Word, lock: Lock, tr: nat, off: nat, buf: Data): (s: State)
    requires Sized(s0) && s0.threads == [] && g < |s0.words| && |s0.locks| > 0
    ensures Sized(s)
  {
    s0.(threads := [Thread(g, 1, false, pc)], words := s0.words[g := w], locks := s0.locks[0 := lock], trans := s0.trans[0 := tr],
        offset := s0.offset[g := off], bufs := s0.bufs[0 := buf])
  }

  lemma SoloBegins(s0: State, g: nat)
    requires Sized(s0) && s0.threads == [] && g < |s0.words| && |s0.locks| > 0
    ensures Step(s0, Begin(g, 1, false)) == Some(Solo(s0, g, Start, s0.words[g], s0.locks[0], s0.trans[0], s0.offset[g], s0.bufs[0]))
  {
    assert s0.words[g := s0.words[g]] == s0.words && s0.locks[0 := s0.locks[0]] == s0.locks;
    assert s0.trans[0 := s0.trans[0]] == s0.trans && s0.offset[g := s0.offset[g]] == s0.offset && s0.bufs[0 := s0.bufs[0]] == s0.bufs;
    assert s0.threads + [Thread(g, 1, false, Start)] == [Thread(g, 1, false, Start)];
  }

  lemma SoloMoves(s0: State, g: nat, pc: Pc, w: Word, lock: Lock, tr: nat, off: nat, buf: Data, pc': Pc)
    requires Sized(s0) && s0.threads == [] && g < |s0.words| && |s0.locks| > 0
    ensures To(Solo(s0, g, pc, w, lock, tr, off, buf), 0, pc') == Solo(s0, g, pc', w, lock, tr, off, buf)
  {
    assert [Thread(g, 1, false, pc)][0 := Thread(g, 1, false, pc')] == [Thread(g, 1, false, pc')];
  }

  lemma SoloWord(s0: State, g: nat, pc: Pc, w: Word, lock: Lock, tr: nat, off: nat, buf: Data, w': Word)
    requires Sized(s0) && s0.threads == [] && g < |s0.words| && |s0.locks| > 0
    ensures SetWord(Solo(s0, g, pc, w, lock, tr, off, buf), g, w') == Solo(s0, g, pc, w', lock, tr, off, buf)
    ensures Solo(s0, g, pc, w, lock, tr, off, buf).words[g] == w
  {
    assert s0.words[g := w][g := w'] == s0.words[g := w'];
  }

  lemma SoloAsks(s0: State, g: nat, tr: nat, off: nat, buf: Data)
    requires Sized(s0) && s0.threads == [] && g < |s0.words| && |s0.locks| > 0
    ensures Step(Solo(s0, g, Start, Word(false, None, false, 0), Free, tr, off, buf), Go(0, 0))
         == Some(Solo(s0, g, Look(Seen(false, false, false)), Word(false, None, false, 1), Free, tr, off, buf))
    ensures Step(Solo(s0, g, Look(Seen(false, false, false)), Word(false, None, false, 1), Free, tr, off, buf), Go(0, 0))
         == Some(Solo(s0, g, Pick, Word(false, Some(0), false, 1), Free, tr, off, buf))
  {
    hide Sized, Solo;
    var look, one := Look(Seen(false, false, false)), Word(false, None, false, 1);
    SoloWord(s0, g, Start, Word(false, None, false, 0), Free, tr, off, buf, one);
    SoloMoves(s0, g, Start, Word(false, None, false, 0), Free, tr, off, buf, look);
    SoloWord(s0, g, look, Word(false, None, false, 0), Free, tr, off, buf, one);
    SoloMoves(s0, g, look, one, Free, tr, off, buf, Pick);
    SoloWord(s0, g, look, one, Free, tr, off, buf, one);
    SoloWord(s0, g, Pick, one, Free, tr, off, buf, Word(false, Some(0), false, 1));
    SoloThread(s0, g, Start, Word(false, None, false, 0), Free, tr, off, buf);
    SoloThread(s0, g, look, one, Free, tr, off, buf);
  }

  lemma SoloThread(s0: State, g: nat, pc: Pc, w: Word, lock: Lock, tr: nat, off: nat, buf: Data)
    requires Sized(s0) && s0.threads == [] && g < |s0.words| && |s0.locks| > 0
    ensures var s := Solo(s0, g, pc, w, lock, tr, off, buf);
            |s.threads| == 1 && s.threads[0] == Thread(g, 1, false, pc) && g < |s.words| && |s.locks| > 0
  {
  }

  const BUSY_ONE: Word := Word(false, Some(0), false, 1)

  lemma SoloTakes(s0: State, g: nat, tr: nat, off: nat, buf: Data)
    requires Sized(s0) && s0.threads == [] && g < |s0.words| && |s0.locks| > 0
    ensures Step(Solo(s0, g, Pick, BUSY_ONE, Free, tr, off, buf), Go(0, 0))
         == Some(Solo(s0, g, Try(0, true), BUSY_ONE, Free, tr, off, buf))
    ensures Step(Solo(s0, g, Try(0, true), BUSY_ONE, Free, tr, off, buf), Go(0, 1))
         == Some(Solo(s0, g, SetFree(0), BUSY_ONE, Taken(0), tr, off, buf))
  {
    hide Sized;
    SoloMoves(s0, g, Pick, BUSY_ONE, Free, tr, off, buf, Try(0, true));
    SoloMoves(s0, g, Try(0, true), BUSY_ONE, Free, tr, off, buf, SetFree(0));
    assert s0.locks[0 := Free][0 := Taken(0)] == s0.locks[0 := Taken(0)];
  }

  lemma SoloPlaces(s0: State, g: nat, tr: nat, off: nat, buf: Data)
    requires Sized(s0) && s0.threads == [] && g < |s0.words| && |s0.locks| > 0
    ensures Step(Solo(s0, g, SetFree(0), BUSY_ONE, Taken(0), tr, off, buf), Go(0, 0))
         == Some(Solo(s0, g, Finish(0), BUSY_ONE, Taken(0), g, off, buf))
    ensures Step(Solo(s0, g, Finish(0), BUSY_ONE, Taken(0), g, off, buf), Go(0, 0))
         == Some(Solo(s0, g, Fetch(0), BUSY_ONE, Open, g, off, buf))
  {
    SoloMoves(s0, g, SetFree(0), BUSY_ONE, Taken(0), tr, off, buf, Finish(0));
    SoloMoves(s0, g, Finish(0), BUSY_ONE, Taken(0), g, off, buf, Fetch(0));
    assert s0.trans[0 := tr][0 := g] == s0.trans[0 := g];
    assert s0.locks[0 := Taken(0)][0 := Open] == s0.locks[0 := Open];
  }

  lemma SoloReads(s0: State, g: nat, off: nat, buf: Data)
    requires Sized(s0) && s0.threads == [] && g < |s0.words| && |s0.locks| > 0
    ensures var got := Fetched(s0.disk, Source(s0.places, s0.readCtrl, g, 0));
            && Step(Solo(s0, g, Fetch(0), BUSY_ONE, Open, g, off, buf), Go(0, 0))
               == Some(Solo(s0, g, SetOffset(0), BUSY_ONE, Open, g, off, got))
            && Step(Solo(s0, g, SetOffset(0), BUSY_ONE, Open, g, off, got), Go(0, 0))
               == Some(Solo(s0, g, SetValid(0), BUSY_ONE, Open, g, 0, got))
            && Step(Solo(s0, g, SetValid(0), BUSY_ONE, Open, g, 0, got), Go(0, 0))
               == Some(Solo(s0, g, Pinned(0), Word(true, None, false, 1), Open, g, 0, got))
  {
    hide Source, Fetched;
    var got := Fetched(s0.disk, Source(s0.places, s0.readCtrl, g, 0));
    SoloMoves(s0, g, Fetch(0), BUSY_ONE, Open, g, off, buf, SetOffset(0));
    SoloMoves(s0, g, SetOffset(0), BUSY_ONE, Open, g, off, got, SetValid(0));
    SoloMoves(s0, g, SetValid(0), BUSY_ONE, Open, g, 0, got, Pinned(0));
    SoloWord(s0, g, Pinned(0), BUSY_ONE, Open, g, 0, got, Word(true, None, false, 1));
    assert s0.bufs[0 := buf][0 := got] == s0.bufs[0 := got];
    assert s0.offset[g := off][g := 0] == s0.offset[g := 0];
  }

  lemma Extend(s0: State, actions: seq<Action>, a: Action) returns (more: seq<Action>)
    requires Run(s0, actions).Some? && Sized(Run(s0, actions).value) && Step(Run(s0, actions).value, a).Some?
    ensures more == actions + [a] && Run(s0, more) == Step(Run(s0, actions).value, a)
  {
    hide Step, Sized;
    more := actions + [a];
    assert more[..|actions|] == actions;
  }

  function OneReader(g: nat): seq<Action> {
    [Begin(g, 1, false), Go(0, 0), Go(0, 0), Go(0, 0), Go(0, 1), Go(0, 0), Go(0, 0), Go(0, 0), Go(0, 0), Go(0, 0)]
  }

  lemma OneReaderRun(s0: State, g: nat)
    requires Initial(s0) && g < |s0.words| && |s0.locks| > 0
    ensures Sized(s0) && s0.threads == []
    ensures Run(s0, OneReader(g))
         == Some(Solo(s0, g, Pinned(0), Word(true, None, false, 1), Open, g, 0, Fetched(s0.disk, Source(s0.places, s0.readCtrl, g, 0))))
  {
    hide Step, Run, Solo, Sized, Disjoint, Backed, Source, Fetched;
    var tr, off, buf := SoloFrom(s0, g);
    RunNothing(s0);
    SoloBegins(s0, g);
    SoloAsks(s0, g, tr, off, buf);
    SoloTakes(s0, g, tr, off, buf);
    SoloPlaces(s0, g, tr, off, buf);
    SoloReads(s0, g, off, buf);
    var a := Extend(s0, [], Begin(g, 1, false));
    a := Extend(s0, a, Go(0, 0));
    a := Extend(s0, a, Go(0, 0));
    a := Extend(s0, a, Go(0, 0));
    a := Extend(s0, a, Go(0, 1));
    a := Extend(s0, a, Go(0, 0));
    a := Extend(s0, a, Go(0, 0));
    a := Extend(s0, a, Go(0, 0));
    a := Extend(s0, a, Go(0, 0));
    a := Extend(s0, a, Go(0, 0));
    assert a == OneReader(g);
  }

  lemma RunNothing(s0: State)
    ensures Run(s0, []) == Some(s0)
  {
  }

  lemma SoloFrom(s0: State, g: nat) returns (tr: nat, off: nat, buf: Data)
    requires Initial(s0) && g < |s0.words| && |s0.locks| > 0
    ensures Sized(s0) && s0.words[g] == Word(false, None, false, 0) && s0.locks[0] == Free
    ensures tr == s0.trans[0] && off == s0.offset[g] && buf == s0.bufs[0]
  {
    tr, off, buf := s0.trans[0], s0.offset[g], s0.bufs[0];
  }

  /** A page that the overriding controller does not hold is read wrongly by the first reader, unless what happens to be
      there is equal. */
  lemma WrongRead(s0: State, g: nat)
    requires Initial(s0) && g < |s0.words| && |s0.locks| > 0
    requires Sized(s0) && Fetched(s0.disk, Source(s0.places, s0.readCtrl, g, 0)) != s0.content[g]
    ensures var s := Run(s0, OneReader(g));
            s.Some? && |s.value.threads| == 1 && s.value.threads[0] == Thread(g, 1, false, Pinned(0)) && |s.value.bufs| > 0
            && |s.value.content| == |s0.content| && s.value.bufs[0] != s.value.content[g]
  {
    hide Run, OneReader, Source, Fetched, Initial;
    OneReaderRun(s0, g);
  }

  /** What `ReadIsPlain` promises a pinned thread. */
  ghost predicate PlainRead(s0: State, actions: seq<Action>, s: State, t: nat)
    requires t < |s.threads| && s.threads[t].pc.Pinned?
  {
    var th := s.threads[t];
    th.page < |s0.content| && th.pc.p < |s.bufs| && s.bufs[th.pc.p] == Plain(s0.content, actions)[th.page]
  }

  /** Every read of every run from every initial state with this backing is plain. */
  ghost predicate AlwaysPlain(places: seq<seq<Place>>, readCtrl: Option<nat>) {
    forall s0, actions, s, t: nat | Initial(s0) && s0.places == places && s0.readCtrl == readCtrl && Run(s0, actions) == Some(s)
                                    && t < |s.threads| && s.threads[t].pc.Pinned? ::
      PlainRead(s0, actions, s, t)
  }

  /** A cache of one slot where page `g` holds zero and every other page one. */
  ghost function OneSlot(places: seq<seq<Place>>, readCtrl: Option<nat>, g: nat): State
    requires g < |places|
  {
    var held := set h, r | 0 <= h < |places| && 0 <= r < |places[h]| :: places[h][r];
    State(places, readCtrl, seq(|places|, _ => Word(false, None, false, 0)), seq(|places|, _ => 0), [Free], [0], [[]],
          map p | p in held :: if p in places[g] then [0] else [1],
          seq(|places|, (h: nat) => if h == g then [0] else [1]), [])
  }

  lemma OneSlotInitial(places: seq<seq<Place>>, readCtrl: Option<nat>, g: nat)
    requires g < |places| && Disjoint(places) && forall h | 0 <= h < |places| :: |places[h]| > 0
    ensures Initial(OneSlot(places, readCtrl, g))
  {
    var s0 := OneSlot(places, readCtrl, g);
    forall h | 0 <= h < |places| ensures Backed(places, s0.disk, s0.content, h, |places[h]|) {
      forall k | 0 <= k < |places[h]| ensures places[h][k] in s0.disk && s0.disk[places[h][k]] == s0.content[h] {
        if h != g && places[h][k] in places[g] { assert false; }
      }
    }
  }

  lemma Misplaced(places: seq<seq<Place>>, readCtrl: Option<nat>, g: nat)
    requires g < |places| && |places[g]| > 0 && readCtrl.Some? && Place(readCtrl.value, places[g][0].page) !in places[g]
    ensures var s0 := OneSlot(places, readCtrl, g);
            |s0.content| == |places| && Fetched(s0.disk, Source(places, readCtrl, g, 0)) != s0.content[g]
  {
  }

  /** Reads are plain in all runs exactly when the override, if there is one, names a controller that holds every page. */
  lemma OverrideIff(places: seq<seq<Place>>, readCtrl: Option<nat>)
    requires Disjoint(places) && forall h | 0 <= h < |places| :: |places[h]| > 0
    ensures AlwaysPlain(places, readCtrl) <==> OverrideOk(places, readCtrl)
  {
    if OverrideOk(places, readCtrl) {
      hide Initial, Disjoint, OverrideOk, Run, Plain;
      forall s0, actions, s, t: nat | Initial(s0) && s0.places == places && s0.readCtrl == readCtrl && Run(s0, actions) == Some(s)
                                      && t < |s.threads| && s.threads[t].pc.Pinned?
        ensures PlainRead(s0, actions, s, t)
      {
        ReadIsPlain(s0, actions, s, t);
      }
    } else {
      var g :| 0 <= g < |places| && Place(readCtrl.value, places[g][0].page) !in places[g];
      NotPlain(places, readCtrl, g);
    }
  }

  lemma NotPlain(places: seq<seq<Place>>, readCtrl: Option<nat>, g: nat)
    requires Disjoint(places) && (forall h | 0 <= h < |places| :: |places[h]| > 0) && g < |places|
    requires readCtrl.Some? && Place(readCtrl.value, places[g][0].page) !in places[g]
    ensures !AlwaysPlain(places, readCtrl)
  {
    hide Initial, Disjoint, Run, Plain, OneReader, Fetched, Source;
    var s0 := OneSlot(places, readCtrl, g);
    OneSlotInitial(places, readCtrl, g);
    InitialSized(s0);
    Misplaced(places, readCtrl, g);
    WrongRead(s0, g);
    var s := Run(s0, OneReader(g)).value;
    ContentIsPlain(s0, OneReader(g), s);
    assert !PlainRead(s0, OneReader(g), s, 0);
  }

  lemma InitialSized(s0: State)
    requires Initial(s0)
    ensures Sized(s0)
  {
  }
}

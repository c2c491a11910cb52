// The page cache (include/page_cache.h): acquire_page, find_slot, release_page and element accesses by any number of
// threads, on the direct path: pages are read from and written back to the backing controllers. Every atomic
// operation on a state word, every access to a slot's lock, translation or buffer is a step of its own.
module PageCache {
  import opened Options

  type Data = seq<int>

  /** A page on a controller. */
  datatype Place = Place(ctrl: nat, page: nat)

  /** The state word: VALID, BUSY with the thread that set it, DIRTY, and the reference count. */
  datatype Word = Word(valid: bool, busy: Option<nat>, dirty: bool, cnt: nat)

  /** page_take_lock. */
  datatype Lock = Free | Open | Taken(owner: nat)

  datatype Seen = Seen(valid: bool, busy: bool, dirty: bool)

  /** Where a thread stands between acquire_page and release_page. */
  datatype Pc =
    | Start
    | Look(seen: Seen)                        // holds a value of the state word, reference counted
    | Reload
    | Raced                                   // set BUSY on a page that turned out valid
    | Pick                                    // find_slot: next candidate
    | Try(p: nat, free: bool)                 // saw the slot FREE, or unlocked
    | SetFree(p: nat)
    | Held(p: nat)
    | Check(p: nat, q: nat)
    | TryBusy(p: nat, q: nat)
    | Undo(p: nat, q: nat)
    | WriteBack(p: nat, q: nat, r: nat)       // replica r is next
    | Clear(p: nat, q: nat)
    | SetNew(p: nat)
    | Finish(p: nat)
    | GiveUp(p: nat)
    | Fetch(p: nat)                           // back in acquire_page with a slot
    | SetOffset(p: nat)
    | SetDirty(p: nat)
    | SetValid(p: nat)
    | HitDirty
    | HitOffset
    | Pinned(p: nat)
    | Gone

  datatype Thread = Thread(page: nat, count: nat, write: bool, pc: Pc)

  datatype State = State(
    places: seq<seq<Place>>,     // where each page lives: one controller, or all of them
    readCtrl: Option<nat>,       // read_ctrl_override
    words: seq<Word>, offset: seq<nat>,
    locks: seq<Lock>, trans: seq<nat>, bufs: seq<Data>,
    disk: map<Place, Data>,
    content: seq<Data>,          // what plain memory would hold
    threads: seq<Thread>)

  datatype Action =
    | Begin(page: nat, count: nat, write: bool)
    | Go(t: nat, x: nat)                      // one step; x: the slot tried, the replica read, or 0 when a weak exchange fails
    | Store(t: nat, i: nat, v: int)

  ghost predicate Sized(s: State) {
    && |s.words| == |s.offset| == |s.content| == |s.places| && |s.locks| == |s.trans| == |s.bufs|
    && (forall g | 0 <= g < |s.places| :: |s.places[g]| > 0)
    && (forall g, r | 0 <= g < |s.places| && 0 <= r < |s.places[g]| :: s.places[g][r] in s.disk)
    && (forall t | 0 <= t < |s.threads| :: s.threads[t].page < |s.words| && s.threads[t].count > 0)
  }

  function See(w: Word): Seen {
    Seen(w.valid, w.busy.Some?, w.dirty)
  }

  function To(s: State, t: nat, pc: Pc): State
    requires t < |s.threads|
  {
    s.(threads := s.threads[t := s.threads[t].(pc := pc)])
  }

  /** fetch_or(BUSY). */
  function OrBusy(s: State, g: nat, t: nat): State
    requires g < |s.words|
  {
    if s.words[g].busy.Some? then s else s.(words := s.words[g := s.words[g].(busy := Some(t))])
  }

  function SetWord(s: State, g: nat, w: Word): State
    requires g < |s.words|
  {
    s.(words := s.words[g := w])
  }

  /** Where page `g` is read from: replica `x`, or the overriding controller at the page's place there. */
  function Source(places: seq<seq<Place>>, readCtrl: Option<nat>, g: nat, x: nat): Place
    requires g < |places| && x < |places[g]|
  {
    if readCtrl.Some? then Place(readCtrl.value, places[g][0].page) else places[g][x]
  }

  /** What a controller returns for a place; nothing in particular where no page lives. */
  function Fetched(disk: map<Place, Data>, p: Place): Data {
    if p in disk then disk[p] else []
  }

  /** acquire_page outside find_slot, and release_page. */
  ghost function AcquireStep(s: State, t: nat, x: nat): Option<State>
    requires Sized(s) && t < |s.threads|
  {
    var th := s.threads[t];
    var g := th.page;
    var w := s.words[g];
    match th.pc
    case Start => Some(SetWord(To(s, t, Look(See(w))), g, w.(cnt := w.cnt + th.count)))
    case Reload => Some(To(s, t, Look(See(w))))
    case Look(seen) =>
      if seen.busy then Some(To(s, t, Reload))
      else if seen.valid then Some(To(s, t, if th.write && !seen.dirty then HitDirty else HitOffset))
      else if w.busy.Some? then Some(To(s, t, Reload))
      else Some(OrBusy(To(s, t, if w.valid then Raced else Pick), g, t))
    case Raced => Some(SetWord(To(s, t, Reload), g, w.(busy := None)))
    case HitDirty => Some(SetWord(To(s, t, HitOffset), g, w.(dirty := true)))
    case HitOffset => Some(To(s, t, Pinned(s.offset[g])))
    case Fetch(p) =>
      if x < |s.places[g]| && p < |s.bufs|
      then Some(To(s, t, SetOffset(p)).(bufs := s.bufs[p := Fetched(s.disk, Source(s.places, s.readCtrl, g, x))])) else None
    case SetOffset(p) => Some(To(s, t, if th.write then SetDirty(p) else SetValid(p)).(offset := s.offset[g := p]))
    case SetDirty(p) => Some(SetWord(To(s, t, SetValid(p)), g, w.(dirty := true)))
    case SetValid(p) => Some(SetWord(To(s, t, Pinned(p)), g, w.(valid := !w.valid, busy := if w.busy.Some? then None else Some(t))))
    case Pinned(_) => if w.cnt >= th.count then Some(SetWord(To(s, t, Gone), g, w.(cnt := w.cnt - th.count))) else None
    case _ => None
  }

  /** find_slot. */
  ghost function FindStep(s: State, t: nat, x: nat): Option<State>
    requires Sized(s) && t < |s.threads|
  {
    var g := s.threads[t].page;
    match s.threads[t].pc
    case Pick =>
      if x < |s.locks| then Some(if s.locks[x].Taken? then s else To(s, t, Try(x, s.locks[x].Free?))) else None
    case Try(p, free) =>
      if p < |s.locks| then
        if x > 0 && free && s.locks[p].Free? then Some(To(s, t, SetFree(p)).(locks := s.locks[p := Taken(t)]))
        else if x > 0 && !free && s.locks[p].Open? then Some(To(s, t, Held(p)).(locks := s.locks[p := Taken(t)]))
        else Some(To(s, t, Pick))
      else None
    case SetFree(p) => if p < |s.trans| then Some(To(s, t, Finish(p)).(trans := s.trans[p := g])) else None
    case Held(p) => if p < |s.trans| then Some(To(s, t, Check(p, s.trans[p]))) else None
    case Check(p, q) =>
      if q < |s.words| then Some(To(s, t, if s.words[q].cnt == 0 && s.words[q].busy.None? then TryBusy(p, q) else GiveUp(p))) else None
    case TryBusy(p, q) =>
      if q < |s.words| then
        var w := s.words[q];
        Some(OrBusy(To(s, t, if w.busy.Some? then GiveUp(p) else if w.cnt != 0 then Undo(p, q)
                             else if w.dirty then WriteBack(p, q, 0) else Clear(p, q)), q, t))
      else None
    case Undo(p, q) => if q < |s.words| then Some(SetWord(To(s, t, GiveUp(p)), q, s.words[q].(busy := None))) else None
    case WriteBack(p, q, r) =>
      if q < |s.places| && p < |s.bufs| then
        if r < |s.places[q]| then Some(To(s, t, WriteBack(p, q, r + 1)).(disk := s.disk[s.places[q][r] := s.bufs[p]]))
        else Some(To(s, t, Clear(p, q)))
      else None
    case Clear(p, q) => if q < |s.words| then Some(SetWord(To(s, t, SetNew(p)), q, Word(false, None, false, s.words[q].cnt))) else None
    case SetNew(p) => if p < |s.trans| then Some(To(s, t, Finish(p)).(trans := s.trans[p := g])) else None
    case Finish(p) => if p < |s.locks| then Some(To(s, t, Fetch(p)).(locks := s.locks[p := Open])) else None
    case GiveUp(p) => if p < |s.locks| then Some(To(s, t, Pick).(locks := s.locks[p := Open])) else None
    case _ => None
  }

  ghost function Step(s: State, a: Action): Option<State>
    requires Sized(s)
  {
    match a
    case Begin(g, n, write) =>
      if g < |s.words| && n > 0 then Some(s.(threads := s.threads + [Thread(g, n, write, Start)])) else None
    case Go(t, x) =>
      if t < |s.threads| then
        match AcquireStep(s, t, x)
        case Some(s') => Some(s')
        case None => FindStep(s, t, x)
      else None
    case Store(t, i, v) =>
      if t < |s.threads| && s.threads[t].pc.Pinned? && s.threads[t].write && s.threads[t].pc.p < |s.bufs|
         && i < |s.bufs[s.threads[t].pc.p]| && i < |s.content[s.threads[t].page]| then
        var p, g := s.threads[t].pc.p, s.threads[t].page;
        Some(s.(bufs := s.bufs[p := s.bufs[p][i := v]], content := s.content[g := s.content[g][i := v]]))
      else None
  }

  // ----- classes of program counters -----

  /** From winning BUSY on its own page to publishing it: the page is being loaded by this thread. */
  predicate Loading(pc: Pc) {
    match pc
    case Start => false
    case Look(_) => false
    case Reload => false
    case Raced => false
    case HitDirty => false
    case HitOffset => false
    case Pinned(_) => false
    case Gone => false
    case _ => true
  }

  /** Holds the lock of slot `p`. */
  predicate Locks(pc: Pc) {
    pc.SetFree? || pc.SetNew? || pc.Finish? || Keeps(pc)
  }

  /** Holds the lock of a slot whose resident is still there. */
  predicate Keeps(pc: Pc) {
    pc.Held? || pc.Check? || pc.TryBusy? || pc.GiveUp? || Evicts(pc)
  }

  /** Holds BUSY of the resident `q` of slot `p`. */
  predicate Evicts(pc: Pc) {
    pc.Undo? || Commits(pc)
  }

  /** Found the resident unreferenced: it is going out. */
  predicate Commits(pc: Pc) {
    pc.WriteBack? || pc.Clear?
  }

  /** Slot `p` is assigned to the thread's page. */
  predicate Fills(pc: Pc) {
    pc.Finish? || pc.Fetch? || Filled(pc)
  }

  /** The page's bytes are in slot `p`. */
  predicate Filled(pc: Pc) {
    pc.SetOffset? || pc.SetDirty? || pc.SetValid?
  }

  predicate Counted(pc: Pc) {
    !pc.Start? && !pc.Gone?
  }

  /** Saw the page valid and not busy while counted. */
  predicate Active(pc: Pc) {
    pc.HitDirty? || pc.HitOffset? || pc.Pinned? || (pc.Look? && pc.seen.valid && !pc.seen.busy)
  }

  // ----- the invariant -----

  function Weight(th: Thread, g: nat): nat {
    if th.page == g && Counted(th.pc) then th.count else 0
  }

  /** References that threads hold on page `g`. */
  function Pins(ths: seq<Thread>, g: nat): nat {
    if ths == [] then 0 else Pins(ths[..|ths| - 1], g) + Weight(ths[|ths| - 1], g)
  }

  ghost predicate Counts(words: seq<Word>, ths: seq<Thread>) {
    forall g | 0 <= g < |words| :: words[g].cnt == Pins(ths, g)
  }

  /** BUSY is held by whoever loads, raced for, or evicts the page, and by nobody else. */
  predicate OwnsBusy(th: Thread, g: nat) {
    (th.page == g && (Loading(th.pc) || th.pc.Raced?)) || (Evicts(th.pc) && th.pc.q == g)
  }

  ghost predicate Busy(words: seq<Word>, ths: seq<Thread>) {
    && (forall t: nat, g: nat {:trigger OwnsBusy(ths[t], g)} | t < |ths| && g < |words| && OwnsBusy(ths[t], g) :: words[g].busy == Some(t))
    && (forall g | 0 <= g < |words| && words[g].busy.Some? ::
          words[g].busy.value < |ths| && OwnsBusy(ths[words[g].busy.value], g))
  }

  ghost predicate SlotLocks(locks: seq<Lock>, ths: seq<Thread>) {
    && (forall t | 0 <= t < |ths| && Locks(ths[t].pc) :: ths[t].pc.p < |locks| && locks[ths[t].pc.p] == Taken(t))
    && (forall p | 0 <= p < |locks| && locks[p].Taken? ::
          locks[p].owner < |ths| && Locks(ths[locks[p].owner].pc) && ths[locks[p].owner].pc.p == p)
  }

  /** A page being loaded is not valid; a page being evicted is, in the slot it is evicted from. */
  predicate StableThread(words: seq<Word>, offset: seq<nat>, trans: seq<nat>, th: Thread)
    requires |offset| == |words|
  {
    var pc := th.pc;
    && (Loading(pc) ==> th.page < |words| && !words[th.page].valid)
    && ((pc.Check? || pc.TryBusy? || Evicts(pc)) ==> pc.p < |trans| && trans[pc.p] == pc.q && pc.q < |words|)
    && (Evicts(pc) ==> words[pc.q].valid && offset[pc.q] == pc.p)
    && (Fills(pc) ==> pc.p < |trans| && trans[pc.p] == th.page)
    && ((pc.SetDirty? || pc.SetValid?) ==> th.page < |words| && offset[th.page] == pc.p)
    && (pc.Try? ==> pc.p < |trans|)
  }

  ghost predicate Stable(words: seq<Word>, offset: seq<nat>, trans: seq<nat>, ths: seq<Thread>)
    requires |offset| == |words|
  {
    forall t | 0 <= t < |ths| :: StableThread(words, offset, trans, ths[t])
  }

  /** The slot still has a resident. */
  predicate Occupied(locks: seq<Lock>, ths: seq<Thread>, p: nat)
    requires p < |locks|
  {
    locks[p].Open? || (locks[p].Taken? && locks[p].owner < |ths| && Keeps(ths[locks[p].owner].pc))
  }

  /** The thread fills slot `p` and no longer holds its lock. */
  predicate FillsOpenly(th: Thread, p: nat) {
    Fills(th.pc) && !th.pc.Finish? && th.pc.p == p
  }

  /** Page `g` is valid in slot `p`, or its loader is filling that slot. */
  predicate Resident(words: seq<Word>, offset: seq<nat>, ths: seq<Thread>, p: nat, g: nat)
    requires |offset| == |words|
  {
    && g < |words|
    && ((words[g].valid && offset[g] == p)
        || (words[g].busy.Some? && words[g].busy.value < |ths|
            && ths[words[g].busy.value].page == g && FillsOpenly(ths[words[g].busy.value], p)))
  }

  ghost predicate SlotsResident(words: seq<Word>, offset: seq<nat>, locks: seq<Lock>, trans: seq<nat>, ths: seq<Thread>)
    requires |offset| == |words| && |locks| == |trans|
  {
    forall p | 0 <= p < |locks| && Occupied(locks, ths, p) :: Resident(words, offset, ths, p, trans[p])
  }

  ghost predicate ValidPlaced(words: seq<Word>, offset: seq<nat>, locks: seq<Lock>, trans: seq<nat>, ths: seq<Thread>)
    requires |offset| == |words| && |locks| == |trans|
  {
    forall g | 0 <= g < |words| && words[g].valid :: offset[g] < |locks| && trans[offset[g]] == g && Occupied(locks, ths, offset[g])
  }

  ghost predicate FillersPlaced(locks: seq<Lock>, ths: seq<Thread>) {
    forall t: nat, p: nat {:trigger FillsOpenly(ths[t], p)} | t < |ths| && FillsOpenly(ths[t], p) :: p < |locks| && Occupied(locks, ths, p)
  }

  /** Whoever saw the page valid keeps it. */
  predicate PinningThread(words: seq<Word>, offset: seq<nat>, th: Thread)
    requires |offset| == |words|
  {
    && (Active(th.pc) ==>
          && th.page < |words| && words[th.page].valid && (th.pc.Pinned? ==> offset[th.page] == th.pc.p)
          && (th.pc.Look? && th.pc.seen.dirty ==> words[th.page].dirty)
          && (th.write && (th.pc.HitOffset? || th.pc.Pinned?) ==> words[th.page].dirty))
    && (th.pc.SetValid? && th.write ==> th.page < |words| && words[th.page].dirty)
  }

  ghost predicate Pinning(words: seq<Word>, offset: seq<nat>, ths: seq<Thread>)
    requires |offset| == |words|
  {
    forall t | 0 <= t < |ths| :: PinningThread(words, offset, ths[t])
  }

  /** No eviction of a page is under way that somebody has seen valid. */
  ghost predicate NoClash(ths: seq<Thread>) {
    forall t, u | 0 <= t < |ths| && 0 <= u < |ths| && Active(ths[t].pc) && Commits(ths[u].pc) :: ths[t].page != ths[u].pc.q
  }

  /** The first `r` replicas of page `g` hold what plain memory would. */
  ghost predicate Backed(places: seq<seq<Place>>, disk: map<Place, Data>, content: seq<Data>, g: nat, r: nat)
    requires g < |places| == |content|
  {
    forall k | 0 <= k < r && k < |places[g]| :: places[g][k] in disk && disk[places[g][k]] == content[g]
  }

  /** A valid page's slot holds its content ... */
  ghost predicate BufsCoherent(words: seq<Word>, offset: seq<nat>, bufs: seq<Data>, content: seq<Data>)
    requires |words| == |offset| == |content|
  {
    forall g | 0 <= g < |words| && words[g].valid :: offset[g] < |bufs| && bufs[offset[g]] == content[g]
  }

  /** ... and so do the controllers when the page is not valid, or clean ... */
  ghost predicate DiskCoherent(words: seq<Word>, places: seq<seq<Place>>, disk: map<Place, Data>, content: seq<Data>)
    requires |words| == |places| == |content|
  {
    forall g | 0 <= g < |words| && (!words[g].valid || !words[g].dirty) :: Backed(places, disk, content, g, |places[g]|)
  }

  /** ... and a slot just filled. */
  ghost predicate FilledCoherent(ths: seq<Thread>, bufs: seq<Data>, content: seq<Data>) {
    forall t | 0 <= t < |ths| && Filled(ths[t].pc) ::
      ths[t].pc.p < |bufs| && ths[t].page < |content| && bufs[ths[t].pc.p] == content[ths[t].page]
  }

  /** A page on its way out is written back replica by replica. */
  ghost predicate OutCoherent(ths: seq<Thread>, places: seq<seq<Place>>, disk: map<Place, Data>, content: seq<Data>)
    requires |places| == |content|
  {
    forall t | 0 <= t < |ths| && Commits(ths[t].pc) ::
      ths[t].pc.q < |places|
      && Backed(places, disk, content, ths[t].pc.q, if ths[t].pc.WriteBack? then ths[t].pc.r else |places[ths[t].pc.q]|)
  }

  /** Different pages live at different places. */
  ghost predicate Disjoint(places: seq<seq<Place>>) {
    && (forall g, h, i, j | 0 <= g < h < |places| && 0 <= i < |places[g]| && 0 <= j < |places[h]| :: places[g][i] != places[h][j])
    && (forall g, i, j | 0 <= g < |places| && 0 <= i < j < |places[g]| :: places[g][i] != places[g][j])
  }

  ghost predicate Inv(s: State) {
    && Sized(s) && Disjoint(s.places) && Counts(s.words, s.threads) && Busy(s.words, s.threads) && SlotLocks(s.locks, s.threads)
    && Stable(s.words, s.offset, s.trans, s.threads)
    && SlotsResident(s.words, s.offset, s.locks, s.trans, s.threads)
    && ValidPlaced(s.words, s.offset, s.locks, s.trans, s.threads) && FillersPlaced(s.locks, s.threads)
    && Pinning(s.words, s.offset, s.threads) && NoClash(s.threads)
    && BufsCoherent(s.words, s.offset, s.bufs, s.content) && DiskCoherent(s.words, s.places, s.disk, s.content)
    && FilledCoherent(s.threads, s.bufs, s.content) && OutCoherent(s.threads, s.places, s.disk, s.content)
  }

  /** The cache starts empty: no page valid, every slot free, plain memory is what the controllers hold. */
  ghost predicate Initial(s: State) {
    && Sized(s) && Disjoint(s.places) && s.threads == []
    && (forall g | 0 <= g < |s.words| :: s.words[g] == Word(false, None, false, 0))
    && (forall p | 0 <= p < |s.locks| :: s.locks[p].Free?)
    && (forall g | 0 <= g < |s.words| :: Backed(s.places, s.disk, s.content, g, |s.places[g]|))
  }

  lemma InitialInv(s: State)
    requires Initial(s)
    ensures Inv(s)
  {
    hide Disjoint, Backed;
  }

  // ----- reference counts -----

  lemma {:induction false} PinsChange(ths: seq<Thread>, t: nat, th: Thread, g: nat)
    requires t < |ths|
    ensures Pins(ths[t := th], g) == Pins(ths, g) - Weight(ths[t], g) + Weight(th, g)
  {
    var n := |ths| - 1;
    if t < n {
      PinsChange(ths[..n], t, th, g);
      assert ths[t := th][..n] == ths[..n][t := th];
    } else {
      assert ths[t := th][..n] == ths[..n];
    }
  }

  lemma {:induction false} PinsAtLeast(ths: seq<Thread>, t: nat, g: nat)
    requires t < |ths|
    ensures Pins(ths, g) >= Weight(ths[t], g)
  {
    if t < |ths| - 1 { PinsAtLeast(ths[..|ths| - 1], t, g); }
  }

  /** One thread's program counter moves, and the word of one page changes its count by as much as the thread's weight. */
  lemma CountsMove(words: seq<Word>, ths: seq<Thread>, t: nat, pc: Pc, words': seq<Word>)
    requires Counts(words, ths) && t < |ths| && |words'| == |words|
    requires forall g | 0 <= g < |words| ::
               words'[g].cnt == words[g].cnt - Weight(ths[t], g) + Weight(ths[t].(pc := pc), g)
    ensures Counts(words', ths[t := ths[t].(pc := pc)])
  {
    hide Weight;
    forall g | 0 <= g < |words| ensures words'[g].cnt == Pins(ths[t := ths[t].(pc := pc)], g) {
      PinsChange(ths, t, ths[t].(pc := pc), g);
    }
  }

  // ----- a thread moves, and flags of state words change -----

  function Moved(s: State, t: nat, pc: Pc): seq<Thread>
    requires t < |s.threads|
  {
    s.threads[t := s.threads[t].(pc := pc)]
  }

  lemma MoveBusy(words: seq<Word>, ths: seq<Thread>, t: nat, pc: Pc)
    requires Busy(words, ths) && t < |ths|
    requires forall g: nat :: OwnsBusy(ths[t].(pc := pc), g) == OwnsBusy(ths[t], g)
    ensures Busy(words, ths[t := ths[t].(pc := pc)])
  {
    hide Loading, Evicts;
  }

  /** BUSY of `g` is taken by `t` ... */
  lemma TakeBusy(words: seq<Word>, ths: seq<Thread>, t: nat, pc: Pc, g: nat, w: Word)
    requires Busy(words, ths) && t < |ths| && g < |words| && words[g].busy.None? && w.busy == Some(t)
    requires forall h: nat :: OwnsBusy(ths[t].(pc := pc), h) == (OwnsBusy(ths[t], h) || h == g)
    ensures Busy(words[g := w], ths[t := ths[t].(pc := pc)])
  {
    hide OwnsBusy;
  }

  /** ... or given back by it. */
  lemma DropBusy(words: seq<Word>, ths: seq<Thread>, t: nat, pc: Pc, g: nat, w: Word)
    requires Busy(words, ths) && t < |ths| && g < |words| && words[g].busy == Some(t) && w.busy.None?
    requires forall h: nat :: OwnsBusy(ths[t].(pc := pc), h) == (OwnsBusy(ths[t], h) && h != g)
    ensures Busy(words[g := w], ths[t := ths[t].(pc := pc)])
  {
    hide OwnsBusy;
    var words', ths' := words[g := w], ths[t := ths[t].(pc := pc)];
    forall u: nat, h: nat | u < |ths'| && h < |words'| && OwnsBusy(ths'[u], h) ensures words'[h].busy == Some(u) {
      assert OwnsBusy(ths[u], h);
    }
  }

  lemma SameBusy(words: seq<Word>, words': seq<Word>, ths: seq<Thread>)
    requires Busy(words, ths) && |words| == |words'| && (forall g | 0 <= g < |words| :: words'[g].busy == words[g].busy)
    ensures Busy(words', ths)
  {
    hide OwnsBusy;
  }

  lemma MoveLocks(locks: seq<Lock>, ths: seq<Thread>, t: nat, pc: Pc)
    requires SlotLocks(locks, ths) && t < |ths|
    requires Locks(pc) == Locks(ths[t].pc) && (Locks(pc) ==> pc.p == ths[t].pc.p)
    ensures SlotLocks(locks, ths[t := ths[t].(pc := pc)])
  {
    hide Locks;
  }

  /** The same pages are valid, and no page became clean. */
  ghost predicate SameFlags(words: seq<Word>, words': seq<Word>) {
    && |words| == |words'|
    && forall g | 0 <= g < |words| :: words'[g].valid == words[g].valid && (words[g].dirty ==> words'[g].dirty)
  }

  lemma FlagStable(s: State, t: nat, pc: Pc, words: seq<Word>)
    requires Inv(s) && t < |s.threads| && SameFlags(s.words, words)
    requires StableThread(words, s.offset, s.trans, s.threads[t].(pc := pc))
    ensures Stable(words, s.offset, s.trans, Moved(s, t, pc))
  {
    hide Loading, Fills, Counts, Busy, Pinning, NoClash, BufsCoherent, DiskCoherent, FilledCoherent, OutCoherent,
      SlotLocks, Disjoint, SlotsResident, ValidPlaced, FillersPlaced;
    forall u | 0 <= u < |s.threads| ensures StableThread(words, s.offset, s.trans, Moved(s, t, pc)[u]) {
      assert StableThread(s.words, s.offset, s.trans, s.threads[u]);
    }
  }

  lemma FlagPinning(s: State, t: nat, pc: Pc, words: seq<Word>)
    requires Inv(s) && t < |s.threads| && SameFlags(s.words, words)
    requires PinningThread(words, s.offset, s.threads[t].(pc := pc))
    ensures Pinning(words, s.offset, Moved(s, t, pc))
  {
    hide Active, Counts, Busy, Stable, NoClash, BufsCoherent, DiskCoherent, FilledCoherent, OutCoherent,
      SlotLocks, Disjoint, SlotsResident, ValidPlaced, FillersPlaced;
    forall u | 0 <= u < |s.threads| ensures PinningThread(words, s.offset, Moved(s, t, pc)[u]) {
      assert PinningThread(s.words, s.offset, s.threads[u]);
    }
  }

  lemma SameOccupied(locks: seq<Lock>, ths: seq<Thread>, t: nat, pc: Pc, p: nat)
    requires t < |ths| && p < |locks| && Keeps(pc) == Keeps(ths[t].pc)
    ensures Occupied(locks, ths[t := ths[t].(pc := pc)], p) == Occupied(locks, ths, p)
  {
    hide Keeps;
  }

  /** Residents stay residents: a filler still owns the BUSY bit of its page. */
  lemma SameResident(s: State, t: nat, pc: Pc, words: seq<Word>, p: nat, g: nat)
    requires Inv(s) && t < |s.threads| && SameFlags(s.words, words) && Busy(words, Moved(s, t, pc))
    requires FillsOpenly(s.threads[t], p) ==> FillsOpenly(s.threads[t].(pc := pc), p)
    requires Resident(s.words, s.offset, s.threads, p, g)
    ensures Resident(words, s.offset, Moved(s, t, pc), p, g)
  {
    hide Keeps, Counts, Stable, Pinning, NoClash, BufsCoherent, DiskCoherent, FilledCoherent, OutCoherent, SlotLocks, Disjoint,
      SlotsResident, ValidPlaced, FillersPlaced;
    if !(s.words[g].valid && s.offset[g] == p) {
      var u := s.words[g].busy.value;
      assert OwnsBusy(Moved(s, t, pc)[u], g);
    }
  }

  lemma FlagResidency(s: State, t: nat, pc: Pc, words: seq<Word>)
    requires Inv(s) && t < |s.threads| && SameFlags(s.words, words) && Busy(words, Moved(s, t, pc))
    requires Keeps(pc) == Keeps(s.threads[t].pc)
    requires forall p: nat :: FillsOpenly(s.threads[t].(pc := pc), p) == FillsOpenly(s.threads[t], p)
    ensures SlotsResident(words, s.offset, s.locks, s.trans, Moved(s, t, pc))
    ensures ValidPlaced(words, s.offset, s.locks, s.trans, Moved(s, t, pc)) && FillersPlaced(s.locks, Moved(s, t, pc))
  {
    hide Keeps, Fills, Counts, Busy, Stable, Pinning, NoClash, BufsCoherent, DiskCoherent, FilledCoherent, OutCoherent,
      SlotLocks, Disjoint, Resident, Occupied;
    var ths := Moved(s, t, pc);
    forall p | 0 <= p < |s.locks| ensures Occupied(s.locks, ths, p) == Occupied(s.locks, s.threads, p) {
      SameOccupied(s.locks, s.threads, t, pc, p);
    }
    forall p | 0 <= p < |s.locks| && Occupied(s.locks, ths, p) ensures Resident(words, s.offset, ths, p, s.trans[p]) {
      SameResident(s, t, pc, words, p, s.trans[p]);
    }
    forall u: nat, p: nat | u < |ths| && FillsOpenly(ths[u], p) ensures p < |s.locks| && Occupied(s.locks, ths, p) {
      assert FillsOpenly(s.threads[u], p);
    }
  }

  lemma MoveClash(ths: seq<Thread>, t: nat, pc: Pc)
    requires NoClash(ths) && t < |ths| && !(Active(pc) && Commits(pc))
    requires Commits(pc) ==> (Commits(ths[t].pc) && pc.q == ths[t].pc.q) || forall u | 0 <= u < |ths| && Active(ths[u].pc) :: ths[u].page != pc.q
    requires Active(pc) ==> Active(ths[t].pc) || forall u | 0 <= u < |ths| && Commits(ths[u].pc) :: ths[u].pc.q != ths[t].page
    ensures NoClash(ths[t := ths[t].(pc := pc)])
  {
    hide Active, Commits;
  }

  lemma MoveCoherent(s: State, t: nat, pc: Pc)
    requires Inv(s) && t < |s.threads|
    requires Filled(pc) ==> Filled(s.threads[t].pc) && pc.p == s.threads[t].pc.p
    requires Commits(pc) ==> pc.q < |s.places|
                             && Backed(s.places, s.disk, s.content, pc.q, if pc.WriteBack? then pc.r else |s.places[pc.q]|)
    ensures FilledCoherent(Moved(s, t, pc), s.bufs, s.content) && OutCoherent(Moved(s, t, pc), s.places, s.disk, s.content)
  {
    hide Filled, Commits, Backed, Counts, Busy, Stable, Pinning, NoClash, BufsCoherent, DiskCoherent, SlotLocks, Disjoint,
      SlotsResident, ValidPlaced, FillersPlaced;
  }

  lemma FlagCoherent(s: State, words: seq<Word>)
    requires Inv(s) && SameFlags(s.words, words)
    ensures BufsCoherent(words, s.offset, s.bufs, s.content) && DiskCoherent(words, s.places, s.disk, s.content)
  {
    hide Backed, Counts, Busy, Stable, Pinning, NoClash, SlotLocks, Disjoint, SlotsResident, ValidPlaced, FillersPlaced,
      FilledCoherent, OutCoherent;
  }

  /** Everything but the reference counts, the BUSY bits and the clash between readers and evictors. */
  ghost predicate MayMove(s: State, t: nat, pc: Pc, words: seq<Word>)
    requires Sized(s) && t < |s.threads|
  {
    && SameFlags(s.words, words)
    && Locks(pc) == Locks(s.threads[t].pc) && (Locks(pc) ==> pc.p == s.threads[t].pc.p)
    && Keeps(pc) == Keeps(s.threads[t].pc)
    && (forall p: nat :: FillsOpenly(s.threads[t].(pc := pc), p) == FillsOpenly(s.threads[t], p))
    && StableThread(words, s.offset, s.trans, s.threads[t].(pc := pc))
    && PinningThread(words, s.offset, s.threads[t].(pc := pc))
    && (Filled(pc) ==> Filled(s.threads[t].pc) && pc.p == s.threads[t].pc.p)
    && (Commits(pc) ==> pc.q < |s.places|
                        && Backed(s.places, s.disk, s.content, pc.q, if pc.WriteBack? then pc.r else |s.places[pc.q]|))
  }

  lemma FlagKeeps(s: State, t: nat, pc: Pc, words: seq<Word>)
    requires Inv(s) && t < |s.threads| && MayMove(s, t, pc, words)
    requires Counts(words, Moved(s, t, pc)) && Busy(words, Moved(s, t, pc)) && NoClash(Moved(s, t, pc))
    ensures Inv(To(s, t, pc).(words := words))
  {
    hide Filled, Commits, Backed, Counts, Busy, Stable, Pinning, NoClash, BufsCoherent, DiskCoherent, FilledCoherent, OutCoherent,
      SlotLocks, Disjoint, SlotsResident, ValidPlaced, FillersPlaced, Locks, Keeps, FillsOpenly, StableThread, PinningThread;
    MoveLocks(s.locks, s.threads, t, pc);
    FlagStable(s, t, pc, words);
    FlagResidency(s, t, pc, words);
    FlagPinning(s, t, pc, words);
    FlagCoherent(s, words);
    MoveCoherent(s, t, pc);
  }

  /** A move that leaves the words alone. */
  lemma MoveKeeps(s: State, t: nat, pc: Pc)
    requires Inv(s) && t < |s.threads| && MayMove(s, t, pc, s.words) && Counted(pc) == Counted(s.threads[t].pc)
    requires forall g: nat :: OwnsBusy(s.threads[t].(pc := pc), g) == OwnsBusy(s.threads[t], g)
    requires NoClash(Moved(s, t, pc))
    ensures Inv(To(s, t, pc))
  {
    hide MayMove, OwnsBusy, NoClash, Disjoint, SlotsResident, ValidPlaced, FillersPlaced, BufsCoherent, DiskCoherent, FilledCoherent,
      OutCoherent, SlotLocks, Stable, Pinning, Counts, Busy;
    CountsMove(s.words, s.threads, t, pc, s.words);
    MoveBusy(s.words, s.threads, t, pc);
    FlagKeeps(s, t, pc, s.words);
  }

  /** What the invariant says of one thread. */
  lemma ThreadFacts(s: State, t: nat)
    requires Inv(s) && t < |s.threads|
    ensures var th := s.threads[t];
            && Sized(s) && th.page < |s.words| && NoClash(s.threads)
            && StableThread(s.words, s.offset, s.trans, th) && PinningThread(s.words, s.offset, th)
            && (Loading(th.pc) || th.pc.Raced? ==> s.words[th.page].busy == Some(t))
            && (Evicts(th.pc) ==> th.pc.q < |s.words| && s.words[th.pc.q].busy == Some(t))
            && (Locks(th.pc) ==> th.pc.p < |s.locks| && s.locks[th.pc.p] == Taken(t))
            && (Commits(th.pc) ==> th.pc.q < |s.places| && Backed(s.places, s.disk, s.content, th.pc.q,
                                          if th.pc.WriteBack? then th.pc.r else |s.places[th.pc.q]|))
            && s.words[th.page].cnt >= Weight(th, th.page)
  {
    hide Backed, Counts, NoClash, BufsCoherent, DiskCoherent, FilledCoherent, Disjoint, SlotsResident, ValidPlaced, FillersPlaced,
      PinningThread, Loading, Weight;
    CountAtLeast(s.words, s.threads, t);
    var th := s.threads[t];
    assert StableThread(s.words, s.offset, s.trans, th);
    assert OwnsBusy(th, th.page) ==> s.words[th.page].busy == Some(t);
    if Evicts(th.pc) { assert OwnsBusy(th, th.pc.q); }
  }

  lemma CountAtLeast(words: seq<Word>, ths: seq<Thread>, t: nat)
    requires Counts(words, ths) && t < |ths| && ths[t].page < |words|
    ensures words[ths[t].page].cnt >= Weight(ths[t], ths[t].page)
  {
    hide Weight;
    PinsAtLeast(ths, t, ths[t].page);
  }

  /** A page somebody is about to drop from the cache is busy, so whoever sees it not busy may keep it. */
  lemma NoCommitOn(s: State, g: nat)
    requires Inv(s) && g < |s.words| && s.words[g].busy.None?
    ensures forall u | 0 <= u < |s.threads| && Commits(s.threads[u].pc) :: s.threads[u].pc.q != g
  {
    hide Backed, Counts, NoClash, BufsCoherent, DiskCoherent, FilledCoherent, Disjoint, SlotsResident, ValidPlaced, FillersPlaced,
      Stable, Pinning, OutCoherent, SlotLocks, Loading;
    forall u | 0 <= u < |s.threads| && Commits(s.threads[u].pc) ensures s.threads[u].pc.q != g {
      assert OwnsBusy(s.threads[u], s.threads[u].pc.q);
    }
  }

  // ----- acquire_page -----

  lemma ReloadKeeps(s: State, t: nat)
    requires Inv(s) && t < |s.threads| && s.threads[t].pc.Reload?
    ensures Inv(AcquireStep(s, t, 0).value)
  {
    hide Inv;
    ThreadFacts(s, t);
    var w := s.words[s.threads[t].page];
    if w.busy.None? { NoCommitOn(s, s.threads[t].page); }
    MoveClash(s.threads, t, Look(See(w)));
    MoveKeeps(s, t, Look(See(w)));
  }

  lemma StartKeeps(s: State, t: nat)
    requires Inv(s) && t < |s.threads| && s.threads[t].pc.Start?
    ensures Inv(AcquireStep(s, t, 0).value)
  {
    hide Counts, Busy, NoClash, Disjoint, SlotsResident, ValidPlaced, FillersPlaced, BufsCoherent, DiskCoherent, FilledCoherent,
      OutCoherent, SlotLocks, Stable, Pinning;
    ThreadFacts(s, t);
    var g := s.threads[t].page;
    var w := s.words[g];
    var pc, words := Look(See(w)), s.words[g := w.(cnt := w.cnt + s.threads[t].count)];
    if w.busy.None? { NoCommitOn(s, g); }
    MoveClash(s.threads, t, pc);
    CountsMove(s.words, s.threads, t, pc, words);
    MoveBusy(s.words, s.threads, t, pc);
    SameBusy(s.words, words, Moved(s, t, pc));
    FlagKeeps(s, t, pc, words);
  }

  lemma LookKeeps(s: State, t: nat)
    requires Inv(s) && t < |s.threads| && s.threads[t].pc.Look?
    ensures Inv(AcquireStep(s, t, 0).value)
  {
    hide Counts, Busy, NoClash, Disjoint, SlotsResident, ValidPlaced, FillersPlaced, BufsCoherent, DiskCoherent, FilledCoherent,
      OutCoherent, SlotLocks, Stable, Pinning;
    ThreadFacts(s, t);
    var th := s.threads[t];
    var g, seen := th.page, th.pc.seen;
    var w := s.words[g];
    if seen.busy || (!seen.valid && w.busy.Some?) {
      MoveClash(s.threads, t, Reload);
      MoveKeeps(s, t, Reload);
    } else if seen.valid {
      var pc := if th.write && !seen.dirty then HitDirty else HitOffset;
      MoveClash(s.threads, t, pc);
      MoveKeeps(s, t, pc);
    } else {
      WinBusy(s, t);
    }
  }

  lemma WinBusy(s: State, t: nat)
    requires Inv(s) && t < |s.threads| && s.threads[t].pc.Look? && s.words[s.threads[t].page].busy.None?
    ensures var g := s.threads[t].page; Inv(OrBusy(To(s, t, if s.words[g].valid then Raced else Pick), g, t))
  {
    hide Counts, Busy, NoClash, Disjoint, SlotsResident, ValidPlaced, FillersPlaced, BufsCoherent, DiskCoherent, FilledCoherent,
      OutCoherent, SlotLocks, Stable, Pinning;
    ThreadFacts(s, t);
    var g := s.threads[t].page;
    var pc, words := if s.words[g].valid then Raced else Pick, s.words[g := s.words[g].(busy := Some(t))];
    MoveClash(s.threads, t, pc);
    CountsMove(s.words, s.threads, t, pc, words);
    TakeBusy(s.words, s.threads, t, pc, g, words[g]);
    FlagKeeps(s, t, pc, words);
  }

  lemma RacedKeeps(s: State, t: nat)
    requires Inv(s) && t < |s.threads| && s.threads[t].pc.Raced?
    ensures Inv(AcquireStep(s, t, 0).value)
  {
    hide Counts, Busy, NoClash, Disjoint, SlotsResident, ValidPlaced, FillersPlaced, BufsCoherent, DiskCoherent, FilledCoherent,
      OutCoherent, SlotLocks, Stable, Pinning;
    ThreadFacts(s, t);
    var g := s.threads[t].page;
    var words := s.words[g := s.words[g].(busy := None)];
    MoveClash(s.threads, t, Reload);
    CountsMove(s.words, s.threads, t, Reload, words);
    DropBusy(s.words, s.threads, t, Reload, g, words[g]);
    FlagKeeps(s, t, Reload, words);
  }

  /** DIRTY is set on the way to `pc`. */
  lemma DirtyKeeps(s: State, t: nat, pc: Pc)
    requires Inv(s) && t < |s.threads| && Counted(pc) == Counted(s.threads[t].pc)
    requires var g := s.threads[t].page; var words := s.words[g := s.words[g].(dirty := true)]; MayMove(s, t, pc, words)
    requires forall g: nat :: OwnsBusy(s.threads[t].(pc := pc), g) == OwnsBusy(s.threads[t], g)
    requires NoClash(Moved(s, t, pc))
    ensures var g := s.threads[t].page; Inv(SetWord(To(s, t, pc), g, s.words[g].(dirty := true)))
  {
    hide MayMove, OwnsBusy, NoClash, Disjoint, SlotsResident, ValidPlaced, FillersPlaced, BufsCoherent, DiskCoherent, FilledCoherent,
      OutCoherent, SlotLocks, Stable, Pinning, Counts, Busy;
    var g := s.threads[t].page;
    var words := s.words[g := s.words[g].(dirty := true)];
    CountsMove(s.words, s.threads, t, pc, words);
    MoveBusy(s.words, s.threads, t, pc);
    SameBusy(s.words, words, Moved(s, t, pc));
    FlagKeeps(s, t, pc, words);
  }

  lemma HitDirtyKeeps(s: State, t: nat)
    requires Inv(s) && t < |s.threads| && s.threads[t].pc.HitDirty?
    ensures Inv(AcquireStep(s, t, 0).value)
  {
    hide Inv, NoClash;
    ThreadFacts(s, t);
    MoveClash(s.threads, t, HitOffset);
    DirtyKeeps(s, t, HitOffset);
  }

  lemma HitOffsetKeeps(s: State, t: nat)
    requires Inv(s) && t < |s.threads| && s.threads[t].pc.HitOffset?
    ensures Inv(AcquireStep(s, t, 0).value)
  {
    hide Inv, NoClash;
    ThreadFacts(s, t);
    var pc := Pinned(s.offset[s.threads[t].page]);
    MoveClash(s.threads, t, pc);
    MoveKeeps(s, t, pc);
  }

  lemma SetDirtyKeeps(s: State, t: nat)
    requires Inv(s) && t < |s.threads| && s.threads[t].pc.SetDirty?
    ensures Inv(AcquireStep(s, t, 0).value)
  {
    hide Inv, NoClash;
    ThreadFacts(s, t);
    var pc := SetValid(s.threads[t].pc.p);
    MoveClash(s.threads, t, pc);
    DirtyKeeps(s, t, pc);
  }

  lemma ReleaseKeeps(s: State, t: nat)
    requires Inv(s) && t < |s.threads| && s.threads[t].pc.Pinned?
    ensures AcquireStep(s, t, 0).Some? && Inv(AcquireStep(s, t, 0).value)
  {
    hide Counts, Busy, NoClash, Disjoint, SlotsResident, ValidPlaced, FillersPlaced, BufsCoherent, DiskCoherent, FilledCoherent,
      OutCoherent, SlotLocks, Stable, Pinning;
    ThreadFacts(s, t);
    var g := s.threads[t].page;
    var words := s.words[g := s.words[g].(cnt := s.words[g].cnt - s.threads[t].count)];
    MoveClash(s.threads, t, Gone);
    CountsMove(s.words, s.threads, t, Gone, words);
    MoveBusy(s.words, s.threads, t, Gone);
    SameBusy(s.words, words, Moved(s, t, Gone));
    FlagKeeps(s, t, Gone, words);
  }

  // ----- find_slot: steps that only look -----

  lemma PickKeeps(s: State, t: nat, x: nat)
    requires Inv(s) && t < |s.threads| && s.threads[t].pc.Pick? && x < |s.locks|
    ensures Inv(FindStep(s, t, x).value)
  {
    hide Inv, NoClash;
    ThreadFacts(s, t);
    var pc := Try(x, s.locks[x].Free?);
    MoveClash(s.threads, t, pc);
    MoveKeeps(s, t, pc);
  }

  lemma RetryKeeps(s: State, t: nat)
    requires Inv(s) && t < |s.threads| && s.threads[t].pc.Try?
    ensures Inv(To(s, t, Pick))
  {
    hide Inv, NoClash;
    ThreadFacts(s, t);
    MoveClash(s.threads, t, Pick);
    MoveKeeps(s, t, Pick);
  }

  /** The resident of a slot held by an evictor. */
  lemma HeldResident(s: State, t: nat)
    requires Inv(s) && t < |s.threads| && Keeps(s.threads[t].pc)
    ensures var p := s.threads[t].pc.p;
            p < |s.locks| == |s.trans| && s.trans[p] < |s.words| && Resident(s.words, s.offset, s.threads, p, s.trans[p])
  {
    hide Counts, Busy, NoClash, Disjoint, ValidPlaced, FillersPlaced, BufsCoherent, DiskCoherent, FilledCoherent,
      OutCoherent, Stable, Pinning;
    assert Locks(s.threads[t].pc);
    assert Occupied(s.locks, s.threads, s.threads[t].pc.p);
  }

  lemma HeldKeeps(s: State, t: nat)
    requires Inv(s) && t < |s.threads| && s.threads[t].pc.Held?
    ensures FindStep(s, t, 0).Some? && Inv(FindStep(s, t, 0).value)
  {
    hide Inv, NoClash;
    ThreadFacts(s, t);
    HeldResident(s, t);
    var p := s.threads[t].pc.p;
    MoveClash(s.threads, t, Check(p, s.trans[p]));
    MoveKeeps(s, t, Check(p, s.trans[p]));
  }

  lemma CheckKeeps(s: State, t: nat)
    requires Inv(s) && t < |s.threads| && s.threads[t].pc.Check?
    ensures FindStep(s, t, 0).Some? && Inv(FindStep(s, t, 0).value)
  {
    hide Inv, NoClash;
    ThreadFacts(s, t);
    var p, q := s.threads[t].pc.p, s.threads[t].pc.q;
    var pc := if s.words[q].cnt == 0 && s.words[q].busy.None? then TryBusy(p, q) else GiveUp(p);
    MoveClash(s.threads, t, pc);
    MoveKeeps(s, t, pc);
  }

  // ----- find_slot: eviction -----

  /** A page without references has nobody who saw it valid. */
  lemma NoActiveOn(s: State, g: nat)
    requires Inv(s) && g < |s.words| && s.words[g].cnt == 0
    ensures forall u | 0 <= u < |s.threads| && Active(s.threads[u].pc) :: s.threads[u].page != g
  {
    hide Busy, NoClash, Disjoint, SlotsResident, ValidPlaced, FillersPlaced, BufsCoherent, DiskCoherent, FilledCoherent, OutCoherent,
      SlotLocks, Stable, Pinning, Counts;
    forall u | 0 <= u < |s.threads| && Active(s.threads[u].pc) ensures s.threads[u].page != g {
      CountAtLeast(s.words, s.threads, u);
    }
  }

  lemma CleanIsBacked(s: State, g: nat)
    requires Inv(s) && g < |s.words| && (!s.words[g].valid || !s.words[g].dirty)
    ensures g < |s.places| && Backed(s.places, s.disk, s.content, g, |s.places[g]|)
  {
    hide Busy, NoClash, Disjoint, SlotsResident, ValidPlaced, FillersPlaced, BufsCoherent, FilledCoherent, OutCoherent,
      SlotLocks, Stable, Pinning, Counts, Backed;
  }

  lemma TryBusyKeeps(s: State, t: nat)
    requires Inv(s) && t < |s.threads| && s.threads[t].pc.TryBusy?
    ensures FindStep(s, t, 0).Some? && Inv(FindStep(s, t, 0).value)
  {
    hide Counts, Busy, NoClash, Disjoint, SlotsResident, ValidPlaced, FillersPlaced, BufsCoherent, DiskCoherent, FilledCoherent,
      OutCoherent, SlotLocks, Stable, Pinning, Backed;
    ThreadFacts(s, t);
    HeldResident(s, t);
    var p, q := s.threads[t].pc.p, s.threads[t].pc.q;
    var w := s.words[q];
    if w.busy.Some? {
      MoveClash(s.threads, t, GiveUp(p));
      MoveKeeps(s, t, GiveUp(p));
    } else {
      var pc := if w.cnt != 0 then Undo(p, q) else if w.dirty then WriteBack(p, q, 0) else Clear(p, q);
      BusyResident(s, t, pc);
    }
  }

  lemma BusyResident(s: State, t: nat, pc: Pc)
    requires Inv(s) && t < |s.threads| && s.threads[t].pc.TryBusy?
    requires var p, q := s.threads[t].pc.p, s.threads[t].pc.q;
             && q < |s.words| && s.words[q].busy.None?
             && (pc == Undo(p, q) || (s.words[q].cnt == 0 && pc == WriteBack(p, q, 0))
                 || (s.words[q].cnt == 0 && !s.words[q].dirty && pc == Clear(p, q)))
    ensures Inv(OrBusy(To(s, t, pc), s.threads[t].pc.q, t))
  {
    hide Counts, Busy, NoClash, Disjoint, SlotsResident, ValidPlaced, FillersPlaced, BufsCoherent, DiskCoherent, FilledCoherent,
      OutCoherent, SlotLocks, Stable, Pinning;
    ThreadFacts(s, t);
    HeldResident(s, t);
    var p, q := s.threads[t].pc.p, s.threads[t].pc.q;
    var words := s.words[q := s.words[q].(busy := Some(t))];
    if s.words[q].cnt == 0 { NoActiveOn(s, q); }
    if pc.Clear? { CleanIsBacked(s, q); }
    MoveClash(s.threads, t, pc);
    CountsMove(s.words, s.threads, t, pc, words);
    TakeBusy(s.words, s.threads, t, pc, q, words[q]);
    FlagKeeps(s, t, pc, words);
  }

  lemma UndoKeeps(s: State, t: nat)
    requires Inv(s) && t < |s.threads| && s.threads[t].pc.Undo?
    ensures FindStep(s, t, 0).Some? && Inv(FindStep(s, t, 0).value)
  {
    hide Counts, Busy, NoClash, Disjoint, SlotsResident, ValidPlaced, FillersPlaced, BufsCoherent, DiskCoherent, FilledCoherent,
      OutCoherent, SlotLocks, Stable, Pinning;
    ThreadFacts(s, t);
    var p, q := s.threads[t].pc.p, s.threads[t].pc.q;
    var words := s.words[q := s.words[q].(busy := None)];
    MoveClash(s.threads, t, GiveUp(p));
    CountsMove(s.words, s.threads, t, GiveUp(p), words);
    DropBusy(s.words, s.threads, t, GiveUp(p), q, words[q]);
    FlagKeeps(s, t, GiveUp(p), words);
  }

  /** Writing a page's content to one of its own places keeps what is backed, everywhere. */
  lemma BackedAfter(places: seq<seq<Place>>, disk: map<Place, Data>, content: seq<Data>, q: nat, r: nat, g: nat, n: nat)
    requires |places| == |content| && q < |places| && r < |places[q]| && g < |places| && Disjoint(places)
    requires Backed(places, disk, content, g, n)
    ensures Backed(places, disk[places[q][r] := content[q]], content, g, n)
    ensures g == q && n == r ==> Backed(places, disk[places[q][r] := content[q]], content, q, r + 1)
  {
  }

  lemma WriteBackKeeps(s: State, t: nat)
    requires Inv(s) && t < |s.threads| && s.threads[t].pc.WriteBack?
    ensures FindStep(s, t, 0).Some? && Inv(FindStep(s, t, 0).value)
  {
    hide Counts, Busy, NoClash, Disjoint, SlotsResident, ValidPlaced, FillersPlaced, DiskCoherent, FilledCoherent,
      OutCoherent, SlotLocks, Stable, Pinning, Backed;
    ThreadFacts(s, t);
    var p, q, r := s.threads[t].pc.p, s.threads[t].pc.q, s.threads[t].pc.r;
    if r < |s.places[q]| {
      assert s.bufs[p] == s.content[q];
      WriteReplica(s, t);
    } else {
      AllReplicas(s.places, s.disk, s.content, q, r);
      MoveClash(s.threads, t, Clear(p, q));
      MoveKeeps(s, t, Clear(p, q));
    }
  }

  lemma AllReplicas(places: seq<seq<Place>>, disk: map<Place, Data>, content: seq<Data>, q: nat, r: nat)
    requires q < |places| == |content| && r >= |places[q]| && Backed(places, disk, content, q, r)
    ensures Backed(places, disk, content, q, |places[q]|)
  {
  }

  lemma WriteReplica(s: State, t: nat)
    requires Inv(s) && t < |s.threads| && s.threads[t].pc.WriteBack?
    requires var pc := s.threads[t].pc;
             pc.q < |s.places| && pc.r < |s.places[pc.q]| && pc.p < |s.bufs| && s.bufs[pc.p] == s.content[pc.q]
    ensures var pc := s.threads[t].pc;
            Inv(To(s, t, WriteBack(pc.p, pc.q, pc.r + 1)).(disk := s.disk[s.places[pc.q][pc.r] := s.bufs[pc.p]]))
  {
    hide Counts, Busy, NoClash, Disjoint, SlotsResident, ValidPlaced, FillersPlaced, BufsCoherent, FilledCoherent,
      SlotLocks, Stable, Pinning, Backed, DiskCoherent, OutCoherent;
    ThreadFacts(s, t);
    var p, q, r := s.threads[t].pc.p, s.threads[t].pc.q, s.threads[t].pc.r;
    var pc, disk := WriteBack(p, q, r + 1), s.disk[s.places[q][r] := s.bufs[p]];
    DiskAfter(s, t, disk);
    var s1 := s.(disk := disk);
    MoveClash(s1.threads, t, pc);
    MoveKeeps(s1, t, pc);
  }

  lemma DiskAfter(s: State, t: nat, disk: map<Place, Data>)
    requires Inv(s) && t < |s.threads| && s.threads[t].pc.WriteBack?
    requires var pc := s.threads[t].pc;
             && pc.q < |s.places| && pc.r < |s.places[pc.q]| && disk == s.disk[s.places[pc.q][pc.r] := s.content[pc.q]]
    ensures Inv(s.(disk := disk))
    ensures Backed(s.places, disk, s.content, s.threads[t].pc.q, s.threads[t].pc.r + 1)
  {
    hide Counts, Busy, NoClash, Disjoint, SlotsResident, ValidPlaced, FillersPlaced, BufsCoherent, FilledCoherent,
      SlotLocks, Stable, Pinning, Backed;
    var q, r := s.threads[t].pc.q, s.threads[t].pc.r;
    ThreadFacts(s, t);
    BackedAfter(s.places, s.disk, s.content, q, r, q, r);
    forall g | 0 <= g < |s.words| && (!s.words[g].valid || !s.words[g].dirty)
      ensures Backed(s.places, disk, s.content, g, |s.places[g]|)
    {
      BackedAfter(s.places, s.disk, s.content, q, r, g, |s.places[g]|);
    }
    forall u | 0 <= u < |s.threads| && Commits(s.threads[u].pc)
      ensures var pc := s.threads[u].pc;
              pc.q < |s.places| && Backed(s.places, disk, s.content, pc.q, if pc.WriteBack? then pc.r else |s.places[pc.q]|)
    {
      var pc := s.threads[u].pc;
      BackedAfter(s.places, s.disk, s.content, q, r, pc.q, if pc.WriteBack? then pc.r else |s.places[pc.q]|);
    }
  }

  // ----- find_slot: locks and translations -----

  /** Slot locks after thread `t` takes or drops the lock of slot `p`. */
  lemma TakeSlot(locks: seq<Lock>, ths: seq<Thread>, t: nat, pc: Pc, p: nat)
    requires SlotLocks(locks, ths) && t < |ths| && p < |locks| && !locks[p].Taken? && !Locks(ths[t].pc) && Locks(pc) && pc.p == p
    ensures SlotLocks(locks[p := Taken(t)], ths[t := ths[t].(pc := pc)])
  {
  }

  lemma DropSlot(locks: seq<Lock>, ths: seq<Thread>, t: nat, pc: Pc, p: nat)
    requires SlotLocks(locks, ths) && t < |ths| && p < |locks| && Locks(ths[t].pc) && ths[t].pc.p == p && !Locks(pc)
    ensures SlotLocks(locks[p := Open], ths[t := ths[t].(pc := pc)])
  {
  }

  /** What does not depend on slot locks, when a loader moves on inside find_slot. */
  lemma LockRest(s: State, t: nat, pc: Pc)
    requires Inv(s) && t < |s.threads| && Loading(s.threads[t].pc) && Loading(pc) && !Evicts(pc) && !Evicts(s.threads[t].pc) && !Filled(pc)
    requires StableThread(s.words, s.offset, s.trans, s.threads[t].(pc := pc))
    ensures var ths := Moved(s, t, pc);
            && Counts(s.words, ths) && Busy(s.words, ths) && Stable(s.words, s.offset, s.trans, ths)
            && Pinning(s.words, s.offset, ths) && NoClash(ths) && FilledCoherent(ths, s.bufs, s.content)
            && OutCoherent(ths, s.places, s.disk, s.content)
  {
    hide Counts, Busy, NoClash, Disjoint, SlotsResident, ValidPlaced, FillersPlaced, BufsCoherent, FilledCoherent, SlotLocks, Stable,
      Pinning, Backed, DiskCoherent, OutCoherent;
    CountsMove(s.words, s.threads, t, pc, s.words);
    MoveBusy(s.words, s.threads, t, pc);
    FlagStable(s, t, pc, s.words);
    FlagPinning(s, t, pc, s.words);
    MoveClash(s.threads, t, pc);
    MoveCoherent(s, t, pc);
  }

  /** Residency when slot `p` changes hands but stays as occupied as it was. */
  lemma SameSlots(s: State, t: nat, pc: Pc, locks: seq<Lock>)
    requires Inv(s) && t < |s.threads| && |locks| == |s.locks|
    requires forall p: nat :: FillsOpenly(s.threads[t].(pc := pc), p) == FillsOpenly(s.threads[t], p)
    requires forall p: nat | p < |locks| :: Occupied(locks, Moved(s, t, pc), p) == Occupied(s.locks, s.threads, p)
    requires Busy(s.words, Moved(s, t, pc))
    ensures var ths := Moved(s, t, pc);
            && SlotsResident(s.words, s.offset, locks, s.trans, ths) && ValidPlaced(s.words, s.offset, locks, s.trans, ths)
            && FillersPlaced(locks, ths)
  {
    hide Counts, Busy, NoClash, Disjoint, BufsCoherent, FilledCoherent, SlotLocks, Stable, Pinning, DiskCoherent, OutCoherent,
      Occupied, Resident, Fills;
    var ths := Moved(s, t, pc);
    forall p | 0 <= p < |locks| && Occupied(locks, ths, p) ensures Resident(s.words, s.offset, ths, p, s.trans[p]) {
      SameResident(s, t, pc, s.words, p, s.trans[p]);
    }
    forall g | 0 <= g < |s.words| && s.words[g].valid ensures Occupied(locks, ths, s.offset[g]) {
      assert Occupied(s.locks, s.threads, s.offset[g]);
    }
    forall u: nat, p: nat | u < |ths| && FillsOpenly(ths[u], p) ensures p < |locks| && Occupied(locks, ths, p) {
      assert FillsOpenly(s.threads[u], p);
      assert Occupied(s.locks, s.threads, p);
    }
  }

  lemma SlotChange(s: State, t: nat, pc: Pc, locks: seq<Lock>)
    requires Inv(s) && t < |s.threads| && Loading(s.threads[t].pc) && Loading(pc) && !Evicts(pc) && !Evicts(s.threads[t].pc) && !Filled(pc)
    requires StableThread(s.words, s.offset, s.trans, s.threads[t].(pc := pc)) && |locks| == |s.locks|
    requires SlotLocks(locks, Moved(s, t, pc))
    requires forall p: nat :: FillsOpenly(s.threads[t].(pc := pc), p) == FillsOpenly(s.threads[t], p)
    requires forall p: nat | p < |locks| :: Occupied(locks, Moved(s, t, pc), p) == Occupied(s.locks, s.threads, p)
    ensures Inv(To(s, t, pc).(locks := locks))
  {
    hide Counts, Busy, NoClash, Disjoint, SlotsResident, ValidPlaced, FillersPlaced, BufsCoherent, FilledCoherent, SlotLocks, Stable,
      Pinning, Backed, DiskCoherent, OutCoherent, Occupied, FillsOpenly, StableThread, Loading, Evicts, Filled;
    LockRest(s, t, pc);
    SameSlots(s, t, pc, locks);
  }

  lemma TryKeeps(s: State, t: nat, x: nat)
    requires Inv(s) && t < |s.threads| && s.threads[t].pc.Try? && s.threads[t].pc.p < |s.locks|
    ensures Inv(FindStep(s, t, x).value)
  {
    hide Counts, Busy, NoClash, Disjoint, SlotsResident, ValidPlaced, FillersPlaced, BufsCoherent, FilledCoherent, Stable,
      Pinning, Backed, DiskCoherent, OutCoherent;
    ThreadFacts(s, t);
    var p := s.threads[t].pc.p;
    if x > 0 && s.threads[t].pc.free && s.locks[p].Free? {
      TakeSlot(s.locks, s.threads, t, SetFree(p), p);
      SlotChange(s, t, SetFree(p), s.locks[p := Taken(t)]);
    } else if x > 0 && !s.threads[t].pc.free && s.locks[p].Open? {
      TakeSlot(s.locks, s.threads, t, Held(p), p);
      SlotChange(s, t, Held(p), s.locks[p := Taken(t)]);
    } else {
      RetryKeeps(s, t);
    }
  }

  lemma GiveUpKeeps(s: State, t: nat)
    requires Inv(s) && t < |s.threads| && s.threads[t].pc.GiveUp?
    ensures FindStep(s, t, 0).Some? && Inv(FindStep(s, t, 0).value)
  {
    hide Counts, Busy, NoClash, Disjoint, SlotsResident, ValidPlaced, FillersPlaced, BufsCoherent, FilledCoherent, Stable,
      Pinning, Backed, DiskCoherent, OutCoherent;
    ThreadFacts(s, t);
    var p := s.threads[t].pc.p;
    DropSlot(s.locks, s.threads, t, Pick, p);
    SlotChange(s, t, Pick, s.locks[p := Open]);
  }

  /** A slot whose lock is held by somebody who has emptied it, or never found anything in it, belongs to nobody else. */
  lemma VacantSlot(s: State, t: nat)
    requires Inv(s) && t < |s.threads| && Locks(s.threads[t].pc) && !Keeps(s.threads[t].pc)
    ensures var p := s.threads[t].pc.p;
            && p < |s.locks| && s.locks[p] == Taken(t) && !Occupied(s.locks, s.threads, p)
            && (forall g | 0 <= g < |s.words| && s.words[g].valid :: s.offset[g] != p)
            && (forall u: nat | u < |s.threads| :: !FillsOpenly(s.threads[u], p))
            && (forall u | 0 <= u < |s.threads| && u != t && Locks(s.threads[u].pc) :: s.threads[u].pc.p != p)
  {
    hide Counts, Busy, NoClash, Disjoint, SlotsResident, BufsCoherent, FilledCoherent, Stable, Pinning, DiskCoherent, OutCoherent;
  }

  lemma TransStable(s: State, t: nat, p: nat)
    requires Inv(s) && t < |s.threads| && (s.threads[t].pc == SetFree(p) || s.threads[t].pc == SetNew(p))
    ensures p < |s.trans| && Stable(s.words, s.offset, s.trans[p := s.threads[t].page], Moved(s, t, Finish(p)))
  {
    hide Counts, Busy, NoClash, Disjoint, SlotsResident, ValidPlaced, FillersPlaced, BufsCoherent, FilledCoherent, SlotLocks,
      Pinning, Backed, DiskCoherent, OutCoherent;
    VacantSlot(s, t);
    var trans, ths := s.trans[p := s.threads[t].page], Moved(s, t, Finish(p));
    forall u | 0 <= u < |ths| ensures StableThread(s.words, s.offset, trans, ths[u]) {
      assert StableThread(s.words, s.offset, s.trans, s.threads[u]);
      assert !FillsOpenly(s.threads[u], p);
    }
  }

  lemma TransResidency(s: State, t: nat, p: nat)
    requires Inv(s) && t < |s.threads| && (s.threads[t].pc == SetFree(p) || s.threads[t].pc == SetNew(p))
    requires Busy(s.words, Moved(s, t, Finish(p)))
    ensures p < |s.trans|
    ensures var trans, ths := s.trans[p := s.threads[t].page], Moved(s, t, Finish(p));
            SlotsResident(s.words, s.offset, s.locks, trans, ths) && ValidPlaced(s.words, s.offset, s.locks, trans, ths)
            && FillersPlaced(s.locks, ths)
  {
    hide Counts, Busy, NoClash, Disjoint, BufsCoherent, FilledCoherent, SlotLocks, Pinning, Backed, DiskCoherent, OutCoherent, Stable,
      SlotsResident, ValidPlaced, FillersPlaced;
    VacantSlot(s, t);
    FlagResidency(s, t, Finish(p), s.words);
    SameOccupied(s.locks, s.threads, t, Finish(p), p);
    OtherSlots(s.words, s.offset, s.locks, s.trans, s.threads[t].page, Moved(s, t, Finish(p)), p);
  }

  lemma OtherSlots(words: seq<Word>, offset: seq<nat>, locks: seq<Lock>, trans: seq<nat>, g: nat, ths: seq<Thread>, p: nat)
    requires |offset| == |words| && |locks| == |trans| && p < |trans| && !Occupied(locks, ths, p)
    requires SlotsResident(words, offset, locks, trans, ths) && ValidPlaced(words, offset, locks, trans, ths)
    ensures SlotsResident(words, offset, locks, trans[p := g], ths) && ValidPlaced(words, offset, locks, trans[p := g], ths)
  {
    hide Occupied, Resident;
  }

  lemma SetTransKeeps(s: State, t: nat)
    requires Inv(s) && t < |s.threads| && (s.threads[t].pc.SetFree? || s.threads[t].pc.SetNew?)
    ensures FindStep(s, t, 0).Some? && Inv(FindStep(s, t, 0).value)
  {
    hide Counts, Busy, NoClash, Disjoint, SlotsResident, ValidPlaced, FillersPlaced, BufsCoherent, FilledCoherent, SlotLocks,
      Pinning, Backed, DiskCoherent, OutCoherent, Stable;
    ThreadFacts(s, t);
    var p := s.threads[t].pc.p;
    TransStable(s, t, p);
    CountsMove(s.words, s.threads, t, Finish(p), s.words);
    MoveBusy(s.words, s.threads, t, Finish(p));
    MoveLocks(s.locks, s.threads, t, Finish(p));
    TransResidency(s, t, p);
    FlagPinning(s, t, Finish(p), s.words);
    MoveClash(s.threads, t, Finish(p));
    MoveCoherent(s, t, Finish(p));
  }

  lemma FinishResidency(s: State, t: nat, p: nat)
    requires Inv(s) && t < |s.threads| && s.threads[t].pc == Finish(p) && Busy(s.words, Moved(s, t, Fetch(p)))
    ensures p < |s.locks|
    ensures var locks, ths := s.locks[p := Open], Moved(s, t, Fetch(p));
            && SlotsResident(s.words, s.offset, locks, s.trans, ths) && ValidPlaced(s.words, s.offset, locks, s.trans, ths)
            && FillersPlaced(locks, ths)
  {
    hide Counts, NoClash, Disjoint, BufsCoherent, FilledCoherent, Pinning, Backed, DiskCoherent, OutCoherent, Stable, SlotLocks;
    VacantSlot(s, t);
    ThreadFacts(s, t);
    var locks, ths := s.locks[p := Open], Moved(s, t, Fetch(p));
    forall k | 0 <= k < |locks| ensures Occupied(locks, ths, k) == (k == p || Occupied(s.locks, s.threads, k)) {
      OnlySlot(s, t, p, k);
    }
    forall k | 0 <= k < |locks| && Occupied(locks, ths, k) ensures Resident(s.words, s.offset, ths, k, s.trans[k]) {
      if k != p { SameResident(s, t, Fetch(p), s.words, k, s.trans[k]); }
    }
    forall u: nat, k: nat | u < |ths| && FillsOpenly(ths[u], k) ensures k < |locks| && Occupied(locks, ths, k) {
      if u != t { assert FillsOpenly(s.threads[u], k); }
    }
  }

  lemma OnlySlot(s: State, t: nat, p: nat, k: nat)
    requires Inv(s) && t < |s.threads| && s.threads[t].pc == Finish(p) && p < |s.locks| && k < |s.locks| && s.locks[p] == Taken(t)
    ensures Occupied(s.locks[p := Open], Moved(s, t, Fetch(p)), k) == (k == p || Occupied(s.locks, s.threads, k))
  {
    hide Counts, Busy, NoClash, Disjoint, BufsCoherent, FilledCoherent, Pinning, Backed, DiskCoherent, OutCoherent, Stable,
      SlotsResident, ValidPlaced, FillersPlaced;
  }

  lemma FinishKeeps(s: State, t: nat)
    requires Inv(s) && t < |s.threads| && s.threads[t].pc.Finish?
    ensures FindStep(s, t, 0).Some? && Inv(FindStep(s, t, 0).value)
  {
    hide Counts, Busy, NoClash, Disjoint, SlotsResident, ValidPlaced, FillersPlaced, BufsCoherent, FilledCoherent, SlotLocks,
      Pinning, Backed, DiskCoherent, OutCoherent, Stable;
    ThreadFacts(s, t);
    var p := s.threads[t].pc.p;
    LockRest(s, t, Fetch(p));
    DropSlot(s.locks, s.threads, t, Fetch(p), p);
    FinishResidency(s, t, p);
  }

  // ----- steps that change which pages are valid -----

  /** Nobody else owns, fills or refers to the page a thread is loading. */
  lemma LoaderAlone(s: State, t: nat)
    requires Inv(s) && t < |s.threads| && Loading(s.threads[t].pc)
    ensures var g := s.threads[t].page;
            && (forall u | 0 <= u < |s.threads| && u != t && Loading(s.threads[u].pc) :: s.threads[u].page != g)
            && (forall u | 0 <= u < |s.threads| && Evicts(s.threads[u].pc) :: s.threads[u].pc.q != g)
            && (forall u | 0 <= u < |s.threads| && Active(s.threads[u].pc) :: s.threads[u].page != g)
  {
    hide Counts, NoClash, Disjoint, SlotsResident, ValidPlaced, FillersPlaced, BufsCoherent, FilledCoherent, SlotLocks,
      Backed, DiskCoherent, OutCoherent, Loading;
    var g := s.threads[t].page;
    ThreadFacts(s, t);
    forall u | 0 <= u < |s.threads| && u != t && Loading(s.threads[u].pc) ensures s.threads[u].page != g {
      assert OwnsBusy(s.threads[u], s.threads[u].page);
    }
    forall u | 0 <= u < |s.threads| && Evicts(s.threads[u].pc) ensures s.threads[u].pc.q != g {
      assert StableThread(s.words, s.offset, s.trans, s.threads[u]);
    }
    forall u | 0 <= u < |s.threads| && Active(s.threads[u].pc) ensures s.threads[u].page != g {
      assert PinningThread(s.words, s.offset, s.threads[u]);
    }
  }

  /** The slot a thread fills is the slot of no valid page and of no other filler. */
  lemma SlotAlone(s: State, t: nat)
    requires Inv(s) && t < |s.threads| && Fills(s.threads[t].pc)
    ensures var p := s.threads[t].pc.p;
            && p < |s.trans| && s.trans[p] == s.threads[t].page
            && (forall g | 0 <= g < |s.words| && s.words[g].valid :: s.offset[g] != p)
            && (forall u | 0 <= u < |s.threads| && u != t && Fills(s.threads[u].pc) :: s.threads[u].pc.p != p)
  {
    hide Counts, Busy, NoClash, Disjoint, SlotsResident, FillersPlaced, BufsCoherent, FilledCoherent, SlotLocks, Pinning,
      Backed, DiskCoherent, OutCoherent;
    LoaderAlone(s, t);
    assert StableThread(s.words, s.offset, s.trans, s.threads[t]);
    forall u | 0 <= u < |s.threads| && u != t && Fills(s.threads[u].pc) ensures s.threads[u].pc.p != s.threads[t].pc.p {
      assert StableThread(s.words, s.offset, s.trans, s.threads[u]);
    }
  }

  /** The overriding controller, if there is one, is among the places of every page. */
  ghost predicate OverrideOk(places: seq<seq<Place>>, readCtrl: Option<nat>) {
    readCtrl.Some? ==> forall g | 0 <= g < |places| && |places[g]| > 0 :: Place(readCtrl.value, places[g][0].page) in places[g]
  }

  lemma FetchKeeps(s: State, t: nat, x: nat)
    requires Inv(s) && OverrideOk(s.places, s.readCtrl) && t < |s.threads| && s.threads[t].pc.Fetch? && AcquireStep(s, t, x).Some?
    ensures Inv(AcquireStep(s, t, x).value)
  {
    hide Counts, Busy, NoClash, Disjoint, SlotsResident, ValidPlaced, FillersPlaced, SlotLocks, Pinning, Backed, DiskCoherent,
      OutCoherent, Stable, OverrideOk, Source, Fetched;
    ThreadFacts(s, t);
    SlotAlone(s, t);
    var p, g := s.threads[t].pc.p, s.threads[t].page;
    CleanIsBacked(s, g);
    SourceBacked(s, g, x);
    var pc := SetOffset(p);
    CountsMove(s.words, s.threads, t, pc, s.words);
    MoveBusy(s.words, s.threads, t, pc);
    MoveLocks(s.locks, s.threads, t, pc);
    FlagStable(s, t, pc, s.words);
    FlagResidency(s, t, pc, s.words);
    FlagPinning(s, t, pc, s.words);
    MoveClash(s.threads, t, pc);
    OutMove(s, t, pc);
  }

  lemma BackedPlace(s: State, g: nat, x: nat)
    requires Inv(s) && g < |s.places| && x < |s.places[g]| && Backed(s.places, s.disk, s.content, g, |s.places[g]|)
    ensures s.places[g][x] in s.disk && s.disk[s.places[g][x]] == s.content[g]
  {
    hide Counts, Busy, NoClash, Disjoint, SlotsResident, ValidPlaced, FillersPlaced, SlotLocks, Pinning, DiskCoherent,
      OutCoherent, Stable, FilledCoherent, BufsCoherent;
  }

  lemma SourceBacked(s: State, g: nat, x: nat)
    requires Inv(s) && OverrideOk(s.places, s.readCtrl) && g < |s.places| && x < |s.places[g]|
    requires Backed(s.places, s.disk, s.content, g, |s.places[g]|)
    ensures Fetched(s.disk, Source(s.places, s.readCtrl, g, x)) == s.content[g]
  {
    hide Inv;
    if s.readCtrl.Some? {
      var y :| 0 <= y < |s.places[g]| && s.places[g][y] == Source(s.places, s.readCtrl, g, x);
      BackedPlace(s, g, y);
    } else {
      BackedPlace(s, g, x);
    }
  }

  lemma OutMove(s: State, t: nat, pc: Pc)
    requires Inv(s) && t < |s.threads| && !Commits(pc)
    ensures OutCoherent(Moved(s, t, pc), s.places, s.disk, s.content)
  {
    hide Counts, Busy, NoClash, Disjoint, SlotsResident, ValidPlaced, FillersPlaced, SlotLocks, Pinning, DiskCoherent,
      Stable, FilledCoherent, BufsCoherent, Backed;
  }

  lemma OffsetStable(s: State, t: nat, pc: Pc)
    requires Inv(s) && t < |s.threads| && s.threads[t].pc.SetOffset?
    requires pc == SetDirty(s.threads[t].pc.p) || pc == SetValid(s.threads[t].pc.p)
    ensures s.threads[t].page < |s.offset| && Stable(s.words, s.offset[s.threads[t].page := pc.p], s.trans, Moved(s, t, pc))
  {
    hide Counts, Busy, NoClash, Disjoint, SlotsResident, ValidPlaced, FillersPlaced, SlotLocks, Pinning, DiskCoherent,
      OutCoherent, FilledCoherent, BufsCoherent, Backed;
    LoaderAlone(s, t);
    var offset, ths := s.offset[s.threads[t].page := pc.p], Moved(s, t, pc);
    assert StableThread(s.words, s.offset, s.trans, s.threads[t]);
    forall u | 0 <= u < |ths| ensures StableThread(s.words, offset, s.trans, ths[u]) {
      assert StableThread(s.words, s.offset, s.trans, s.threads[u]);
    }
  }

  lemma OffsetPinning(s: State, t: nat, pc: Pc)
    requires Inv(s) && t < |s.threads| && s.threads[t].pc.SetOffset?
    requires pc == if s.threads[t].write then SetDirty(s.threads[t].pc.p) else SetValid(s.threads[t].pc.p)
    ensures s.threads[t].page < |s.offset| && Pinning(s.words, s.offset[s.threads[t].page := pc.p], Moved(s, t, pc))
  {
    hide Counts, Busy, NoClash, Disjoint, SlotsResident, ValidPlaced, FillersPlaced, SlotLocks, Stable, DiskCoherent,
      OutCoherent, FilledCoherent, BufsCoherent, Backed;
    LoaderAlone(s, t);
    var offset, ths := s.offset[s.threads[t].page := pc.p], Moved(s, t, pc);
    forall u | 0 <= u < |ths| ensures PinningThread(s.words, offset, ths[u]) {
      assert PinningThread(s.words, s.offset, s.threads[u]);
    }
  }

  /** Only the offset of a page that is not valid changes. */
  lemma OffsetTables(s: State, ths: seq<Thread>, g: nat, p: nat)
    requires Sized(s) && g < |s.words| && !s.words[g].valid
    requires SlotsResident(s.words, s.offset, s.locks, s.trans, ths) && ValidPlaced(s.words, s.offset, s.locks, s.trans, ths)
    requires BufsCoherent(s.words, s.offset, s.bufs, s.content)
    ensures var offset := s.offset[g := p];
            && SlotsResident(s.words, offset, s.locks, s.trans, ths) && ValidPlaced(s.words, offset, s.locks, s.trans, ths)
            && BufsCoherent(s.words, offset, s.bufs, s.content)
  {
    hide Occupied, FillsOpenly;
    forall k | 0 <= k < |s.locks| && Occupied(s.locks, ths, k) ensures Resident(s.words, s.offset[g := p], ths, k, s.trans[k]) {
      assert Resident(s.words, s.offset, ths, k, s.trans[k]);
    }
  }

  lemma SetOffsetKeeps(s: State, t: nat)
    requires Inv(s) && t < |s.threads| && s.threads[t].pc.SetOffset?
    ensures Inv(AcquireStep(s, t, 0).value)
  {
    hide Counts, Busy, NoClash, Disjoint, SlotsResident, ValidPlaced, FillersPlaced, SlotLocks, Pinning, Backed, DiskCoherent,
      OutCoherent, Stable, BufsCoherent, FilledCoherent;
    ThreadFacts(s, t);
    var p, g := s.threads[t].pc.p, s.threads[t].page;
    var pc := if s.threads[t].write then SetDirty(p) else SetValid(p);
    CountsMove(s.words, s.threads, t, pc, s.words);
    MoveBusy(s.words, s.threads, t, pc);
    MoveLocks(s.locks, s.threads, t, pc);
    OffsetStable(s, t, pc);
    FlagResidency(s, t, pc, s.words);
    OffsetTables(s, Moved(s, t, pc), g, p);
    OffsetPinning(s, t, pc);
    MoveClash(s.threads, t, pc);
    MoveCoherent(s, t, pc);
  }

  /** The page is published: VALID on, BUSY off. */
  lemma ValidStable(s: State, t: nat)
    requires Inv(s) && t < |s.threads| && s.threads[t].pc.SetValid?
    ensures s.threads[t].page < |s.words|
    ensures var g := s.threads[t].page;
            Stable(s.words[g := s.words[g].(valid := true, busy := None)], s.offset, s.trans, Moved(s, t, Pinned(s.threads[t].pc.p)))
  {
    hide Counts, Busy, NoClash, Disjoint, SlotsResident, ValidPlaced, FillersPlaced, SlotLocks, Pinning, DiskCoherent,
      OutCoherent, FilledCoherent, BufsCoherent, Backed;
    LoaderAlone(s, t);
    var g, ths := s.threads[t].page, Moved(s, t, Pinned(s.threads[t].pc.p));
    var words := s.words[g := s.words[g].(valid := true, busy := None)];
    forall u | 0 <= u < |ths| ensures StableThread(words, s.offset, s.trans, ths[u]) {
      assert StableThread(s.words, s.offset, s.trans, s.threads[u]);
    }
  }

  lemma ValidPinning(s: State, t: nat)
    requires Inv(s) && t < |s.threads| && s.threads[t].pc.SetValid?
    ensures s.threads[t].page < |s.words|
    ensures var g := s.threads[t].page;
            Pinning(s.words[g := s.words[g].(valid := true, busy := None)], s.offset, Moved(s, t, Pinned(s.threads[t].pc.p)))
    ensures NoClash(Moved(s, t, Pinned(s.threads[t].pc.p)))
  {
    hide Counts, Busy, Disjoint, SlotsResident, ValidPlaced, FillersPlaced, SlotLocks, Stable, DiskCoherent,
      OutCoherent, FilledCoherent, BufsCoherent, Backed, NoClash;
    ThreadFacts(s, t);
    LoaderAlone(s, t);
    MoveClash(s.threads, t, Pinned(s.threads[t].pc.p));
    var g, ths := s.threads[t].page, Moved(s, t, Pinned(s.threads[t].pc.p));
    var words := s.words[g := s.words[g].(valid := true, busy := None)];
    forall u | 0 <= u < |ths| ensures PinningThread(words, s.offset, ths[u]) {
      assert PinningThread(s.words, s.offset, s.threads[u]);
    }
  }

  lemma ValidResidency(s: State, t: nat)
    requires Inv(s) && t < |s.threads| && s.threads[t].pc.SetValid?
    ensures var g := s.threads[t].page; g < |s.words| && s.offset[g] == s.threads[t].pc.p
    ensures var g, ths := s.threads[t].page, Moved(s, t, Pinned(s.threads[t].pc.p));
            var words := s.words[g := s.words[g].(valid := true, busy := None)];
            && SlotsResident(words, s.offset, s.locks, s.trans, ths) && ValidPlaced(words, s.offset, s.locks, s.trans, ths)
            && FillersPlaced(s.locks, ths)
  {
    hide Counts, Busy, NoClash, Disjoint, SlotLocks, Pinning, DiskCoherent, OutCoherent, FilledCoherent, BufsCoherent, Backed, Stable;
    ThreadFacts(s, t);
    var p, g := s.threads[t].pc.p, s.threads[t].page;
    var ths, words := Moved(s, t, Pinned(p)), s.words[g := s.words[g].(valid := true, busy := None)];
    forall k | 0 <= k < |s.locks| ensures Occupied(s.locks, ths, k) == Occupied(s.locks, s.threads, k) {
      SameOccupied(s.locks, s.threads, t, Pinned(p), k);
    }
    assert FillsOpenly(s.threads[t], p);
    forall k | 0 <= k < |s.locks| && Occupied(s.locks, ths, k) ensures Resident(words, s.offset, ths, k, s.trans[k]) {
      assert Resident(s.words, s.offset, s.threads, k, s.trans[k]);
    }
    forall u: nat, k: nat | u < |ths| && FillsOpenly(ths[u], k) ensures k < |s.locks| && Occupied(s.locks, ths, k) {
      assert FillsOpenly(s.threads[u], k);
    }
  }

  lemma ValidCoherent(s: State, t: nat)
    requires Inv(s) && t < |s.threads| && s.threads[t].pc.SetValid? && s.threads[t].page < |s.words|
    requires s.offset[s.threads[t].page] == s.threads[t].pc.p
    ensures var g := s.threads[t].page; var words := s.words[g := s.words[g].(valid := true, busy := None)];
            BufsCoherent(words, s.offset, s.bufs, s.content) && DiskCoherent(words, s.places, s.disk, s.content)
  {
    hide Counts, Busy, NoClash, Disjoint, SlotsResident, ValidPlaced, FillersPlaced, SlotLocks, Stable, Pinning,
      OutCoherent, Backed;
  }

  lemma SetValidKeeps(s: State, t: nat)
    requires Inv(s) && t < |s.threads| && s.threads[t].pc.SetValid?
    ensures Inv(AcquireStep(s, t, 0).value)
  {
    hide Counts, Busy, NoClash, Disjoint, SlotsResident, ValidPlaced, FillersPlaced, SlotLocks, Pinning, Backed, DiskCoherent,
      OutCoherent, Stable, BufsCoherent, FilledCoherent;
    ThreadFacts(s, t);
    var p, g := s.threads[t].pc.p, s.threads[t].page;
    var pc, words := Pinned(p), s.words[g := s.words[g].(valid := true, busy := None)];
    CountsMove(s.words, s.threads, t, pc, words);
    DropBusy(s.words, s.threads, t, pc, g, words[g]);
    MoveLocks(s.locks, s.threads, t, pc);
    ValidStable(s, t);
    ValidResidency(s, t);
    ValidPinning(s, t);
    ValidCoherent(s, t);
    MoveCoherent(s, t, pc);
  }

  /** The evicted page: its slot, and who has nothing to do with it. */
  lemma EvictedAlone(s: State, t: nat)
    requires Inv(s) && t < |s.threads| && s.threads[t].pc.Clear?
    ensures var p, q := s.threads[t].pc.p, s.threads[t].pc.q;
            && q < |s.words| && p < |s.trans| && s.trans[p] == q && s.words[q].valid && s.offset[q] == p && s.locks[p] == Taken(t)
            && (forall u | 0 <= u < |s.threads| && u != t && Evicts(s.threads[u].pc) :: s.threads[u].pc.q != q)
            && (forall u | 0 <= u < |s.threads| && Loading(s.threads[u].pc) :: s.threads[u].page != q)
            && (forall u | 0 <= u < |s.threads| && Active(s.threads[u].pc) :: s.threads[u].page != q)
            && (forall u: nat | u < |s.threads| :: !FillsOpenly(s.threads[u], p))
  {
    hide Counts, Disjoint, SlotsResident, ValidPlaced, FillersPlaced, BufsCoherent, FilledCoherent, SlotLocks,
      Backed, DiskCoherent, OutCoherent, Pinning;
    ThreadFacts(s, t);
    var p, q := s.threads[t].pc.p, s.threads[t].pc.q;
    forall u | 0 <= u < |s.threads| && u != t && Evicts(s.threads[u].pc) ensures s.threads[u].pc.q != q {
      assert StableThread(s.words, s.offset, s.trans, s.threads[u]);
      assert OwnsBusy(s.threads[u], s.threads[u].pc.q);
    }
    forall u | 0 <= u < |s.threads| && Loading(s.threads[u].pc) ensures s.threads[u].page != q {
      assert StableThread(s.words, s.offset, s.trans, s.threads[u]);
    }
    forall u: nat | u < |s.threads| ensures !FillsOpenly(s.threads[u], p) {
      assert StableThread(s.words, s.offset, s.trans, s.threads[u]);
    }
  }

  lemma ClearStable(s: State, t: nat, words: seq<Word>)
    requires Inv(s) && t < |s.threads| && s.threads[t].pc.Clear? && s.threads[t].pc.q < |s.words|
    requires words == s.words[s.threads[t].pc.q := Word(false, None, false, s.words[s.threads[t].pc.q].cnt)]
    ensures Stable(words, s.offset, s.trans, Moved(s, t, SetNew(s.threads[t].pc.p)))
    ensures Pinning(words, s.offset, Moved(s, t, SetNew(s.threads[t].pc.p)))
  {
    hide Counts, Busy, NoClash, Disjoint, SlotsResident, ValidPlaced, FillersPlaced, SlotLocks, DiskCoherent,
      OutCoherent, FilledCoherent, BufsCoherent, Backed;
    EvictedAlone(s, t);
    var ths := Moved(s, t, SetNew(s.threads[t].pc.p));
    forall u | 0 <= u < |ths| ensures StableThread(words, s.offset, s.trans, ths[u]) && PinningThread(words, s.offset, ths[u]) {
      assert StableThread(s.words, s.offset, s.trans, s.threads[u]);
      assert PinningThread(s.words, s.offset, s.threads[u]);
    }
  }

  lemma ClearResidency(s: State, t: nat, words: seq<Word>)
    requires Inv(s) && t < |s.threads| && s.threads[t].pc.Clear? && s.threads[t].pc.q < |s.words|
    requires words == s.words[s.threads[t].pc.q := Word(false, None, false, s.words[s.threads[t].pc.q].cnt)]
    ensures var ths := Moved(s, t, SetNew(s.threads[t].pc.p));
            && SlotsResident(words, s.offset, s.locks, s.trans, ths) && ValidPlaced(words, s.offset, s.locks, s.trans, ths)
            && FillersPlaced(s.locks, ths)
  {
    hide Counts, Busy, NoClash, Disjoint, Pinning, DiskCoherent, OutCoherent, FilledCoherent, BufsCoherent, Backed, Stable;
    EvictedAlone(s, t);
    var p, ths := s.threads[t].pc.p, Moved(s, t, SetNew(s.threads[t].pc.p));
    forall k | 0 <= k < |s.locks| ensures Occupied(s.locks, ths, k) == (k != p && Occupied(s.locks, s.threads, k)) {
      ClearedSlot(s, t, k);
    }
    forall k | 0 <= k < |s.locks| && Occupied(s.locks, ths, k) ensures Resident(words, s.offset, ths, k, s.trans[k]) {
      assert Resident(s.words, s.offset, s.threads, k, s.trans[k]);
    }
    forall u: nat, k: nat | u < |ths| && FillsOpenly(ths[u], k) ensures k < |s.locks| && Occupied(s.locks, ths, k) {
      assert FillsOpenly(s.threads[u], k);
    }
  }

  lemma ClearedSlot(s: State, t: nat, k: nat)
    requires Inv(s) && t < |s.threads| && s.threads[t].pc.Clear? && k < |s.locks|
    ensures Occupied(s.locks, Moved(s, t, SetNew(s.threads[t].pc.p)), k) == (k != s.threads[t].pc.p && Occupied(s.locks, s.threads, k))
  {
    hide Counts, Busy, NoClash, Disjoint, BufsCoherent, FilledCoherent, Pinning, Backed, DiskCoherent, OutCoherent, Stable,
      SlotsResident, ValidPlaced, FillersPlaced;
  }

  lemma ClearCoherent(s: State, t: nat, words: seq<Word>)
    requires Inv(s) && t < |s.threads| && s.threads[t].pc.Clear? && s.threads[t].pc.q < |s.words|
    requires words == s.words[s.threads[t].pc.q := Word(false, None, false, s.words[s.threads[t].pc.q].cnt)]
    ensures BufsCoherent(words, s.offset, s.bufs, s.content) && DiskCoherent(words, s.places, s.disk, s.content)
  {
    hide Counts, Busy, NoClash, Disjoint, SlotsResident, ValidPlaced, FillersPlaced, SlotLocks, Stable, Pinning, Backed;
  }

  lemma ClearKeeps(s: State, t: nat)
    requires Inv(s) && t < |s.threads| && s.threads[t].pc.Clear?
    ensures FindStep(s, t, 0).Some? && Inv(FindStep(s, t, 0).value)
  {
    hide Counts, Busy, NoClash, Disjoint, SlotsResident, ValidPlaced, FillersPlaced, SlotLocks, Pinning, Backed, DiskCoherent,
      OutCoherent, Stable, BufsCoherent, FilledCoherent;
    ThreadFacts(s, t);
    EvictedAlone(s, t);
    var p, q := s.threads[t].pc.p, s.threads[t].pc.q;
    var pc, words := SetNew(p), s.words[q := Word(false, None, false, s.words[q].cnt)];
    CountsMove(s.words, s.threads, t, pc, words);
    DropBusy(s.words, s.threads, t, pc, q, words[q]);
    MoveLocks(s.locks, s.threads, t, pc);
    ClearStable(s, t, words);
    ClearResidency(s, t, words);
    ClearCoherent(s, t, words);
    MoveClash(s.threads, t, pc);
    MoveCoherent(s, t, pc);
  }

  // ----- element writes, new threads -----

  /** The slot of a pinned page belongs to that page alone. */
  lemma PinnedAlone(s: State, t: nat)
    requires Inv(s) && t < |s.threads| && s.threads[t].pc.Pinned?
    ensures var p, g := s.threads[t].pc.p, s.threads[t].page;
            && g < |s.words| && s.words[g].valid && s.offset[g] == p < |s.bufs| && s.bufs[p] == s.content[g]
            && (s.threads[t].write ==> s.words[g].dirty)
            && (forall h | 0 <= h < |s.words| && s.words[h].valid && h != g :: s.offset[h] != p)
            && (forall u | 0 <= u < |s.threads| && Fills(s.threads[u].pc) :: s.threads[u].pc.p != p && s.threads[u].page != g)
            && (forall u | 0 <= u < |s.threads| && Commits(s.threads[u].pc) :: s.threads[u].pc.q != g)
  {
    hide Counts, Busy, Disjoint, SlotsResident, FillersPlaced, FilledCoherent, SlotLocks, Backed, DiskCoherent, OutCoherent;
    var p, g := s.threads[t].pc.p, s.threads[t].page;
    assert PinningThread(s.words, s.offset, s.threads[t]);
    forall u | 0 <= u < |s.threads| && Fills(s.threads[u].pc) ensures s.threads[u].pc.p != p && s.threads[u].page != g {
      assert StableThread(s.words, s.offset, s.trans, s.threads[u]);
    }
  }

  /** What is backed for another page does not depend on this page's content. */
  lemma BackedOther(places: seq<seq<Place>>, disk: map<Place, Data>, content: seq<Data>, g: nat, d: Data, h: nat, n: nat)
    requires |places| == |content| && g < |content| && h < |content| && h != g && Backed(places, disk, content, h, n)
    ensures Backed(places, disk, content[g := d], h, n)
  {
  }

  lemma StoreDisk(s: State, t: nat, d: Data)
    requires Inv(s) && t < |s.threads| && s.threads[t].pc.Pinned? && s.threads[t].write && s.threads[t].page < |s.content|
    ensures DiskCoherent(s.words, s.places, s.disk, s.content[s.threads[t].page := d])
    ensures OutCoherent(s.threads, s.places, s.disk, s.content[s.threads[t].page := d])
  {
    hide Counts, Busy, NoClash, Disjoint, SlotsResident, ValidPlaced, FillersPlaced, SlotLocks, Stable, Pinning, Backed,
      FilledCoherent, BufsCoherent;
    PinnedAlone(s, t);
    var g := s.threads[t].page;
    forall h | 0 <= h < |s.words| && (!s.words[h].valid || !s.words[h].dirty)
      ensures Backed(s.places, s.disk, s.content[g := d], h, |s.places[h]|)
    {
      BackedOther(s.places, s.disk, s.content, g, d, h, |s.places[h]|);
    }
    forall u | 0 <= u < |s.threads| && Commits(s.threads[u].pc)
      ensures var pc := s.threads[u].pc;
              pc.q < |s.places| && Backed(s.places, s.disk, s.content[g := d], pc.q, if pc.WriteBack? then pc.r else |s.places[pc.q]|)
    {
      var pc := s.threads[u].pc;
      BackedOther(s.places, s.disk, s.content, g, d, pc.q, if pc.WriteBack? then pc.r else |s.places[pc.q]|);
    }
  }

  lemma StoreBufs(s: State, t: nat, d: Data)
    requires Inv(s) && t < |s.threads| && s.threads[t].pc.Pinned? && s.threads[t].pc.p < |s.bufs| && s.threads[t].page < |s.content|
    ensures var bufs, content := s.bufs[s.threads[t].pc.p := d], s.content[s.threads[t].page := d];
            BufsCoherent(s.words, s.offset, bufs, content) && FilledCoherent(s.threads, bufs, content)
  {
    hide Counts, Busy, NoClash, Disjoint, SlotsResident, ValidPlaced, FillersPlaced, SlotLocks, Stable, Pinning, Backed,
      DiskCoherent, OutCoherent;
    PinnedAlone(s, t);
  }

  lemma StoreKeeps(s: State, t: nat, i: nat, v: int)
    requires Inv(s) && Step(s, Store(t, i, v)).Some?
    ensures Inv(Step(s, Store(t, i, v)).value)
  {
    hide Counts, Busy, NoClash, Disjoint, SlotsResident, ValidPlaced, FillersPlaced, SlotLocks, Pinning, Backed, DiskCoherent,
      OutCoherent, Stable, BufsCoherent, FilledCoherent, AcquireStep, FindStep;
    PinnedAlone(s, t);
    var d := s.content[s.threads[t].page][i := v];
    StoreDisk(s, t, d);
    StoreBufs(s, t, d);
  }

  lemma BeginCounts(words: seq<Word>, ths: seq<Thread>, th: Thread)
    requires Counts(words, ths) && th.pc.Start?
    ensures Counts(words, ths + [th])
  {
    assert (ths + [th])[..|ths|] == ths;
    forall g | 0 <= g < |words| ensures words[g].cnt == Pins(ths + [th], g) {
      assert Pins(ths + [th], g) == Pins(ths, g) + Weight(th, g);
    }
  }

  lemma BeginOwners(s: State, th: Thread)
    requires Inv(s) && th.pc.Start?
    ensures Busy(s.words, s.threads + [th]) && SlotLocks(s.locks, s.threads + [th])
  {
    hide Counts, Disjoint, SlotsResident, ValidPlaced, FillersPlaced, Backed, DiskCoherent, BufsCoherent, NoClash, FilledCoherent,
      OutCoherent, Stable, Pinning;
    var ths := s.threads + [th];
    forall u: nat, g: nat | u < |ths| && g < |s.words| && OwnsBusy(ths[u], g) ensures s.words[g].busy == Some(u) {
      assert OwnsBusy(s.threads[u], g);
    }
  }

  lemma BeginThreads(s: State, th: Thread)
    requires Inv(s) && th.pc.Start?
    ensures Stable(s.words, s.offset, s.trans, s.threads + [th]) && Pinning(s.words, s.offset, s.threads + [th])
  {
    hide Counts, Busy, SlotLocks, Disjoint, SlotsResident, ValidPlaced, FillersPlaced, Backed, DiskCoherent, BufsCoherent, NoClash,
      FilledCoherent, OutCoherent;
    var ths := s.threads + [th];
    forall u | 0 <= u < |ths| ensures StableThread(s.words, s.offset, s.trans, ths[u]) && PinningThread(s.words, s.offset, ths[u]) {
      if u < |s.threads| {
        assert StableThread(s.words, s.offset, s.trans, s.threads[u]);
        assert PinningThread(s.words, s.offset, s.threads[u]);
      }
    }
  }

  lemma BeginCoherent(s: State, th: Thread)
    requires Inv(s) && th.pc.Start?
    ensures NoClash(s.threads + [th]) && FilledCoherent(s.threads + [th], s.bufs, s.content)
    ensures OutCoherent(s.threads + [th], s.places, s.disk, s.content)
  {
    hide Counts, Busy, SlotLocks, Disjoint, SlotsResident, ValidPlaced, FillersPlaced, Backed, DiskCoherent, BufsCoherent, Stable, Pinning;
  }

  lemma BeginResidency(s: State, th: Thread)
    requires Inv(s) && th.pc.Start?
    ensures var ths := s.threads + [th];
            && SlotsResident(s.words, s.offset, s.locks, s.trans, ths) && ValidPlaced(s.words, s.offset, s.locks, s.trans, ths)
            && FillersPlaced(s.locks, ths)
  {
    hide Counts, Disjoint, Backed, DiskCoherent, BufsCoherent, NoClash, Pinning, Stable, OutCoherent, FilledCoherent, Busy;
    var ths := s.threads + [th];
    forall k | 0 <= k < |s.locks| ensures Occupied(s.locks, ths, k) == Occupied(s.locks, s.threads, k) {}
    forall k | 0 <= k < |s.locks| && Occupied(s.locks, ths, k) ensures Resident(s.words, s.offset, ths, k, s.trans[k]) {
      assert Resident(s.words, s.offset, s.threads, k, s.trans[k]);
    }
    forall u: nat, k: nat | u < |ths| && FillsOpenly(ths[u], k) ensures k < |s.locks| && Occupied(s.locks, ths, k) {
      assert FillsOpenly(s.threads[u], k);
    }
  }

  lemma BeginKeeps(s: State, g: nat, n: nat, write: bool)
    requires Inv(s) && Step(s, Begin(g, n, write)).Some?
    ensures Inv(Step(s, Begin(g, n, write)).value)
  {
    hide Counts, Busy, NoClash, Disjoint, SlotsResident, ValidPlaced, FillersPlaced, SlotLocks, Pinning, Backed, DiskCoherent,
      OutCoherent, Stable, BufsCoherent, FilledCoherent, AcquireStep, FindStep;
    var th := Thread(g, n, write, Start);
    BeginCounts(s.words, s.threads, th);
    BeginOwners(s, th);
    BeginThreads(s, th);
    BeginCoherent(s, th);
    BeginResidency(s, th);
  }
}

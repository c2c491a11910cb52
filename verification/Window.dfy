// The windowed producer loop of benchmarks/io/gpu_io_benchmark.cu: one worker keeps
// up to `window` requests in flight, each using its own DMA entry.
module Window {
  import opened Bits
  import opened Options

  /** A request: its iteration, the ring ticket it waits for, its DMA entry. */
  datatype Flight = Flight(request: nat, ticket: nat, dma: nat)

  /** What the worker does: enqueue a request, or return from waiting for one and
      record its latency under the iteration number `finished`. */
  datatype Event = Enqueue(flight: Flight) | Await(ticket: nat, dma: nat, finished: nat)

  /** All requests so far in order, of which the first `awaited` have been awaited. */
  datatype World = World(requests: seq<Flight>, awaited: nat)

  /** The rules of the game. A DMA entry is handed out only while free, and the
      request awaited is the oldest one in flight, under its own number. */
  function Step(w: World, e: Event): Option<World> {
    match e
    case Enqueue(f) =>
      if exists i | w.awaited <= i < |w.requests| :: w.requests[i].dma == f.dma then None
      else Some(World(w.requests + [f], w.awaited))
    case Await(ticket, dma, finished) =>
      if w.awaited < |w.requests| && w.requests[w.awaited] == Flight(finished, ticket, dma)
      then Some(World(w.requests, w.awaited + 1)) else None
  }

  /** The world after a log, or `None` if the log breaks a rule. */
  function Replay(log: seq<Event>): Option<World> {
    if log == [] then Some(World([], 0))
    else
      match Replay(log[..|log| - 1])
      case None => None
      case Some(w) => Step(w, log[|log| - 1])
  }

  lemma Extend(log: seq<Event>, e: Event)
    ensures Replay(log + [e]) == if Replay(log).None? then None else Step(Replay(log).value, e)
  {
    assert (log + [e])[..|log|] == log;
  }

  /** The request of iteration `r` of a worker whose DMA entries start at `base`. */
  function Request(base: nat, window: nat, tickets: seq<nat>, r: nat): Flight
    requires window > 0 && r < |tickets|
  {
    Flight(r, tickets[r], base + Mod(r, window))
  }

  function Requests(base: nat, window: nat, tickets: seq<nat>, n: nat): (s: seq<Flight>)
    requires window > 0 && n <= |tickets|
    ensures |s| == n
    ensures forall r | 0 <= r < n :: s[r] == Request(base, window, tickets, r)
  {
    if n == 0 then [] else Requests(base, window, tickets, n - 1) + [Request(base, window, tickets, n - 1)]
  }

  /** What the loop keeps after enqueuing `n` requests of which `pending` are in flight. */
  ghost predicate Tracks(log: seq<Event>, slots: seq<nat>, head: nat, pending: nat, n: nat,
                         base: nat, window: nat, tickets: seq<nat>)
  {
    && 0 < window == |slots| && pending <= n <= |tickets| && pending <= window
    && head == Mod(n - pending, window)
    && (forall r {:trigger tickets[r]} | n - pending <= r < n :: slots[Mod(r, window)] == tickets[r])
    && Replay(log) == Some(World(Requests(base, window, tickets, n), n - pending))
  }

  lemma AwaitKeeps(log: seq<Event>, slots: seq<nat>, head: nat, pending: nat, n: nat,
                   base: nat, window: nat, tickets: seq<nat>)
    requires Tracks(log, slots, head, pending, n, base, window, tickets) && pending > 0
    ensures Tracks(log + [Await(slots[head], base + head, n - pending)], slots, Mod(head + 1, window), pending - 1,
                   n, base, window, tickets)
  {
    hide Requests, Replay, Mod;
    assert Requests(base, window, tickets, n)[n - pending] == Request(base, window, tickets, n - pending);
    Extend(log, Await(slots[head], base + head, n - pending));
    ModPlus(n - pending, 1, window);
  }

  lemma LogEnqueue(log: seq<Event>, lo: nat, n: nat, base: nat, window: nat, tickets: seq<nat>)
    requires window > 0 && lo <= n < |tickets| && n - lo < window
    requires Replay(log) == Some(World(Requests(base, window, tickets, n), lo))
    ensures Replay(log + [Enqueue(Request(base, window, tickets, n))]) == Some(World(Requests(base, window, tickets, n + 1), lo))
  {
    var s := Requests(base, window, tickets, n);
    forall i | lo <= i < n
      ensures s[i].dma != base + Mod(n, window)
    {
      ModApart(i, n, window);
    }
    Extend(log, Enqueue(Request(base, window, tickets, n)));
  }

  lemma EnqueueKeeps(log: seq<Event>, slots: seq<nat>, head: nat, pending: nat, n: nat,
                     base: nat, window: nat, tickets: seq<nat>)
    requires Tracks(log, slots, head, pending, n, base, window, tickets) && pending < window && n < |tickets|
    ensures var slot := Mod(head + pending, window);
            Tracks(log + [Enqueue(Flight(n, tickets[n], base + slot))], slots[slot := tickets[n]], head,
                   pending + 1, n + 1, base, window, tickets)
  {
    hide Mod, Replay;
    var slot := Mod(head + pending, window);
    assert slot == Mod(n, window) by { ModPlus(n - pending, pending, window); }
    LogEnqueue(log, n - pending, n, base, window, tickets);
    forall r | n - pending <= r < n + 1
      ensures slots[slot := tickets[n]][Mod(r, window)] == tickets[r]
    {
      ModApart(r, n, window);
    }
  }

  lemma TracksStart(slots: seq<nat>, base: nat, window: nat, tickets: seq<nat>)
    requires 0 < window == |slots|
    ensures Tracks([], slots, 0, 0, 0, base, window, tickets)
  {
  }

  lemma TracksFacts(log: seq<Event>, slots: seq<nat>, head: nat, pending: nat, n: nat,
                    base: nat, window: nat, tickets: seq<nat>)
    requires Tracks(log, slots, head, pending, n, base, window, tickets)
    ensures head < |slots| == window && pending <= n <= |tickets| && pending <= window
    ensures Replay(log) == Some(World(Requests(base, window, tickets, n), n - pending))
  {
  }

  /** The loop of `transfer` for one worker; `tickets[i]` is what the i-th call of
      `io_sched_enqueue` returns. Every request is enqueued once in order, awaited
      once and oldest first, no DMA entry is reused while busy, and none is left. */
  method Transfer(tid: nat, count: nat, window: nat, tickets: seq<nat>) returns (log: seq<Event>)
    requires window > 0 && |tickets| == count
    ensures Replay(log) == Some(World(Requests(tid * window, window, tickets, count), count))
  {
    hide *;
    var slots := seq(window, _ => 0);
    var head: nat, pending: nat, base := 0, 0, tid * window;
    log := [];
    TracksStart(slots, base, window, tickets);
    ghost var n: nat := 0;
    for i := 0 to count + window
      invariant n == if i < count then i else count
      invariant Tracks(log, slots, head, pending, n, base, window, tickets)
      invariant i > count ==> pending <= count + window - i
    {
      TracksFacts(log, slots, head, pending, n, base, window, tickets);
      if pending > 0 && (pending == window || i >= count) {
        AwaitKeeps(log, slots, head, pending, n, base, window, tickets);
        var finished := if i < count then i - window else count - pending;
        log := log + [Await(slots[head], base + head, finished)];
        head := Mod(head + 1, window);
        pending := pending - 1;
      }
      if i < count {
        EnqueueKeeps(log, slots, head, pending, n, base, window, tickets);
        var slot := Mod(head + pending, window);
        log := log + [Enqueue(Flight(i, tickets[i], base + slot))];
        slots := slots[slot := tickets[i]];
        pending, n := pending + 1, n + 1;
      }
    }
    TracksFacts(log, slots, head, pending, n, base, window, tickets);
  }

  /** Workers never share a DMA entry, whatever requests they are at. */
  lemma WorkersApart(tid: nat, other: nat, window: nat, tickets: seq<nat>, others: seq<nat>, r: nat, q: nat)
    requires window > 0 && tid != other && r < |tickets| && q < |others|
    ensures Request(tid * window, window, tickets, r).dma != Request(other * window, window, others, q).dma
  {
    hide Mod;
    if tid < other { MulMonotone(tid + 1, other, window); } else { MulMonotone(other + 1, tid, window); }
  }
}

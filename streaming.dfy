/**
 * The per-connection streaming loop of the visualization server (`stream`):
 * each cycle prefetches the vertex buffers, waits until the client has
 * acknowledged the previous transfer, announces the new buffers with a
 * `vbo_update` message, counts the buffers the client pulls, and waits for
 * the next animation tick or an explicit update request.
 *
 * The Rx plumbing becomes a sequential state machine: each socket message,
 * promise settlement or subject emission is one event, handled to
 * completion before the next. The module-level cache of compressed buffers
 * shared by all connections is the class `VboCache`.
 */
module Streaming {
  import opened JsValue

  /** A compressed buffer, by the bytes it holds. */
  type Buffer = seq<int>

  /** Where a connection's loop stands. */
  datatype Phase =
    | WaitingForGraph  // the graph has not been published yet
    | Prefetching      // step 0-1: fetching this cycle's buffers
    | AwaitingClient   // step 2: waiting for the client to be ready
    | Notifying        // steps 3-6: `vbo_update` sent, waiting for the client's callback
    | AwaitingTick     // step 7: waiting for an animation tick or an explicit update

  /**
   * The state of one connection's loop. `transferred` is the current
   * cycle's list of pulled buffers once its pull callback is installed;
   * `updateVbo` is whether the explicit-update subject last held a truthy
   * value; `outstanding` counts `vbo_update` notifications not yet
   * acknowledged with `received_buffers`.
   */
  datatype Session = Session(
    phase: Phase,
    clientReady: bool,
    step: nat,
    transferred: Option<seq<string>>,
    requested: seq<string>,
    updateVbo: bool,
    outstanding: nat)

  datatype Event =
    | GraphReady                             // the graph subject emits: the first cycle starts
    | Prefetched                             // `driver.fetchData` delivers this cycle's buffers
    | ReceivedBuffers                        // socket `received_buffers`
    | MetadataAcked                          // the client's callback for `vbo_update`
    | BufferPulled(name: string)             // GET /vbo for this connection
    | PlannedRequests(buffers: seq<string>)  // socket `planned_binary_requests`
    | UpdateVbo(truthy: bool)                // a value pushed on the explicit-update subject
    | Tick                                   // the simulator's next animation tick

  /** A new connection: the client is ready, and every active buffer is expected. */
  function Start(activeBuffers: seq<string>): Session {
    Session(WaitingForGraph, true, 0, None, activeBuffers, false, 0)
  }

  /**
   * Step 2: once the client is ready, mark it busy and start the transfer
   * (a fresh pull list and a `vbo_update` message).
   */
  function Gate(s: Session): Session {
    if s.phase == AwaitingClient && s.clientReady then
      s.(phase := Notifying, clientReady := false, transferred := Some([]), outstanding := s.outstanding + 1)
    else s
  }

  /** Step 8: wake up, reset the explicit-update flag and start the next cycle. */
  function Wake(s: Session): Session {
    s.(phase := Prefetching, step := s.step + 1, updateVbo := false)
  }

  /**
   * One event; the flag is true when a pull completes the transfer, that
   * is, when the pulled count reaches the number of requested buffers.
   */
  function SessionStep(s: Session, e: Event): (Session, bool) {
    match e
    case GraphReady => (if s.phase == WaitingForGraph then s.(phase := Prefetching, step := s.step + 1) else s, false)
    case Prefetched => (if s.phase == Prefetching then Gate(s.(phase := AwaitingClient)) else s, false)
    case ReceivedBuffers => (Gate(s.(clientReady := true, outstanding := 0)), false)
    case MetadataAcked =>
      (if s.phase != Notifying then s else if s.updateVbo then Wake(s) else s.(phase := AwaitingTick), false)
    case BufferPulled(name) =>
      if s.transferred.None? then (s, false)
      else (s.(transferred := Some(s.transferred.value + [name])), |s.transferred.value| + 1 == |s.requested|)
    case PlannedRequests(buffers) => (s.(requested := buffers), false)
    case UpdateVbo(v) => (if v && s.phase == AwaitingTick then Wake(s) else s.(updateVbo := v), false)
    case Tick => (if s.phase == AwaitingTick then Wake(s) else s, false)
  }

  /**
   * The loop's invariant: at most one `vbo_update` is unacknowledged, and
   * none while the client is ready; the loop never waits on a ready client
   * or on an explicit update that is already pending; cycles are counted
   * from the first.
   */
  predicate SessionInv(s: Session) {
    && s.outstanding <= 1
    && (s.clientReady ==> s.outstanding == 0)
    && (s.phase == AwaitingClient ==> !s.clientReady)
    && (s.phase == AwaitingTick ==> !s.updateVbo)
    && (s.phase == WaitingForGraph <==> s.step == 0)
  }

  lemma StartIsValid(activeBuffers: seq<string>)
    ensures SessionInv(Start(activeBuffers))
    ensures Start(activeBuffers).clientReady && Start(activeBuffers).requested == activeBuffers
  {
  }

  lemma {:induction false} SessionStepKeepsInv(s: Session, e: Event)
    requires SessionInv(s)
    ensures SessionInv(SessionStep(s, e).0)
  {
  }

  /** Only `received_buffers` makes the client ready again. */
  lemma {:induction false} OnlyAckReadiesClient(s: Session, e: Event)
    requires e != ReceivedBuffers && SessionStep(s, e).0.clientReady
    ensures s.clientReady
  {
  }

  /**
   * A transfer starts only on a ready client, and marks it busy: entering
   * the notification phase needs `clientReady` (possibly just set by
   * `received_buffers`) and leaves it false with one message outstanding.
   */
  lemma {:induction false} TransferWaitsForReadyClient(s: Session, e: Event)
    requires SessionInv(s)
    requires s.phase != Notifying && SessionStep(s, e).0.phase == Notifying
    ensures s.clientReady || e == ReceivedBuffers
    ensures !SessionStep(s, e).0.clientReady && SessionStep(s, e).0.outstanding == 1
    ensures SessionStep(s, e).0.transferred == Some([])
  {
  }

  /** Each pull appends its name to this cycle's list. */
  function Pulls(s: Session, names: seq<string>): (Session, seq<bool>)
    decreases |names|
  {
    if names == [] then (s, [])
    else
      var (s1, r) := SessionStep(s, BufferPulled(names[0]));
      var (s2, rs) := Pulls(s1, names[1..]);
      (s2, [r] + rs)
  }

  /**
   * During a transfer, pulls append their names in order, and completion
   * is reported at exactly the pull that brings the count to the number of
   * requested buffers (`activeBuffers` unless the client planned others).
   */
  lemma {:induction false} PullsReportCompletionOnce(s: Session, names: seq<string>)
    requires s.transferred.Some?
    ensures var (t, reports) := Pulls(s, names);
      && |reports| == |names|
      && t.transferred == Some(s.transferred.value + names)
      && t.requested == s.requested
      && forall k | 0 <= k < |names| :: reports[k] <==> |s.transferred.value| + k + 1 == |s.requested|
    decreases |names|
  {
    if names == [] {
      assert s.transferred.value + names == s.transferred.value;
    } else {
      var (s1, r) := SessionStep(s, BufferPulled(names[0]));
      PullsReportCompletionOnce(s1, names[1..]);
      assert names == [names[0]] + names[1..];
      assert s1.transferred.value + names[1..] == s.transferred.value + names;
      var (t, reports) := Pulls(s, names);
      forall k | 0 <= k < |names|
        ensures reports[k] <==> |s.transferred.value| + k + 1 == |s.requested|
      {
        if k > 0 {
          assert reports[k] == Pulls(s1, names[1..]).1[k - 1];
        }
      }
    }
  }

  /** Cycles started plus the one an explicit update may still force. */
  function Potential(s: Session): nat {
    s.step + (if s.updateVbo then 1 else 0)
  }

  function Run(s: Session, events: seq<Event>): Session
    decreases |events|
  {
    if events == [] then s else Run(SessionStep(s, events[0]).0, events[1..])
  }

  /** Events that can start a cycle of their own. */
  predicate Wakes(e: Event) {
    e == Tick || e == UpdateVbo(true) || e == GraphReady
  }

  lemma {:induction false} PotentialNeverGrows(s: Session, e: Event)
    requires !Wakes(e)
    ensures Potential(SessionStep(s, e).0) <= Potential(s)
  {
  }

  /**
   * The explicit-update flag is reset at every wake-up, so one explicit
   * update forces at most one extra cycle: without ticks and new updates,
   * the step counter grows by at most one.
   */
  lemma {:induction false} ExplicitUpdateIsOneShot(s: Session, events: seq<Event>)
    requires forall i | 0 <= i < |events| :: !Wakes(events[i])
    ensures Run(s, events).step <= s.step + (if s.updateVbo then 1 else 0)
    decreases |events|
  {
    if events != [] {
      PotentialNeverGrows(s, events[0]);
      ExplicitUpdateIsOneShot(SessionStep(s, events[0]).0, events[1..]);
    }
  }

  // ---------------------------------------------------------------------
  // The shared cache of compressed buffers
  // ---------------------------------------------------------------------

  /** The last compressed buffers, by socket id and buffer name. */
  type Cache = map<string, map<string, Buffer>>

  /** A new connection starts with an empty entry. */
  function Opened(c: Cache, id: string): Cache {
    c[id := map[]]
  }

  /** A prefetch creates the entry, or extends it with the new buffers. */
  function Stored(c: Cache, id: string, compressed: map<string, Buffer>): Cache {
    c[id := (if id in c then c[id] else map[]) + compressed]
  }

  /** A disconnect deletes the entry. */
  function Closed(c: Cache, id: string): Cache {
    c - {id}
  }

  /**
   * After a prefetch, the connection's entry serves each new buffer and
   * keeps every older buffer that was not replaced; other connections'
   * entries are untouched.
   */
  lemma StoredServesNewest(c: Cache, id: string, compressed: map<string, Buffer>, name: string, other: string)
    ensures id in Stored(c, id, compressed)
    ensures name in compressed ==> Stored(c, id, compressed)[id][name] == compressed[name]
    ensures name !in compressed && id in c && name in c[id] ==> Stored(c, id, compressed)[id][name] == c[id][name]
    ensures other != id ==> (other in Stored(c, id, compressed) <==> other in c)
    ensures other != id && other in c ==> Stored(c, id, compressed)[other] == c[other]
  {
  }

  /** A disconnect forgets exactly that connection's entry. */
  lemma ClosedForgets(c: Cache, id: string, other: string)
    ensures id !in Closed(c, id)
    ensures other != id ==> (other in Closed(c, id) <==> other in c)
    ensures other != id && other in c ==> Closed(c, id)[other] == c[other]
  {
  }

  /**
   * The loop is not stopped on disconnect, so a prefetch that completes
   * afterwards puts the deleted entry back.
   */
  lemma PrefetchAfterDisconnectRecreates(c: Cache, id: string, compressed: map<string, Buffer>)
    ensures id in Stored(Closed(c, id), id, compressed)
    ensures Stored(Closed(c, id), id, compressed)[id] == compressed
  {
  }

  class VboCache {
    var entries: Cache

    /** `resetState`: no connection has buffers. */
    constructor ()
      ensures entries == map[]
    {
      entries := map[];
    }

    method Open(id: string)
      modifies this
      ensures entries == Opened(old(entries), id)
    {
      entries := entries[id := map[]];
    }

    method Store(id: string, compressed: map<string, Buffer>)
      modifies this
      ensures entries == Stored(old(entries), id, compressed)
    {
      if id !in entries {
        assert map[] + compressed == compressed;
        entries := entries[id := compressed];
      } else {
        entries := entries[id := entries[id] + compressed];
      }
    }

    method Close(id: string)
      modifies this
      ensures entries == Closed(old(entries), id)
    {
      entries := entries - {id};
    }

    /** What GET /vbo sends for a connection and buffer name, if anything. */
    function Lookup(id: string, name: string): Option<Buffer>
      reads this
    {
      if id in entries && name in entries[id] then Some(entries[id][name]) else None
    }
  }

  // ---------------------------------------------------------------------
  // One connection
  // ---------------------------------------------------------------------

  class StreamSession {
    const socketId: string
    var phase: Phase
    var clientReady: bool
    var step: nat
    var transferred: Option<seq<string>>
    var requested: seq<string>
    var updateVbo: bool
    var outstanding: nat

    function Snap(): Session
      reads this
    {
      Session(phase, clientReady, step, transferred, requested, updateVbo, outstanding)
    }

    /** `stream`: opens the connection's cache entry and expects every active buffer. */
    constructor (socketId: string, activeBuffers: seq<string>, cache: VboCache)
      modifies cache
      ensures this.socketId == socketId
      ensures Snap() == Start(activeBuffers)
      ensures cache.entries == Opened(old(cache.entries), socketId)
    {
      this.socketId := socketId;
      phase, clientReady, step, transferred := WaitingForGraph, true, 0, None;
      requested, updateVbo, outstanding := activeBuffers, false, 0;
      new;
      cache.Open(socketId);
    }

    method PassGate()
      modifies this
      ensures Snap() == Gate(old(Snap()))
    {
      if phase == AwaitingClient && clientReady {
        clientReady := false;
        phase := Notifying;
        transferred := Some([]);
        outstanding := outstanding + 1;
      }
    }

    method WakeUp()
      modifies this
      ensures Snap() == Wake(old(Snap()))
    {
      updateVbo := false;
      phase := Prefetching;
      step := step + 1;
    }

    method OnGraphReady()
      modifies this
      ensures Snap() == SessionStep(old(Snap()), GraphReady).0
    {
      if phase == WaitingForGraph {
        step := step + 1;
        phase := Prefetching;
      }
    }

    /** The prefetched buffers go to the shared cache before the loop waits for the client. */
    method OnPrefetched(compressed: map<string, Buffer>, cache: VboCache)
      modifies this, cache
      ensures Snap() == SessionStep(old(Snap()), Prefetched).0
      ensures old(phase) == Prefetching ==> cache.entries == Stored(old(cache.entries), socketId, compressed)
      ensures old(phase) != Prefetching ==> cache.entries == old(cache.entries)
    {
      if phase == Prefetching {
        cache.Store(socketId, compressed);
        phase := AwaitingClient;
        PassGate();
      }
    }

    method OnReceivedBuffers()
      modifies this
      ensures Snap() == SessionStep(old(Snap()), ReceivedBuffers).0
    {
      clientReady := true;
      outstanding := 0;
      PassGate();
    }

    method OnMetadataAcked()
      modifies this
      ensures Snap() == SessionStep(old(Snap()), MetadataAcked).0
    {
      if phase == Notifying {
        if updateVbo {
          WakeUp();
        } else {
          phase := AwaitingTick;
        }
      }
    }

    /** `finishBufferTransfers[id](bufferName)`; returns whether this pull completes the transfer. */
    method OnBufferPulled(name: string) returns (allSent: bool)
      modifies this
      ensures (Snap(), allSent) == SessionStep(old(Snap()), BufferPulled(name))
    {
      allSent := false;
      if transferred.Some? {
        transferred := Some(transferred.value + [name]);
        allSent := |transferred.value| == |requested|;
      }
    }

    method OnPlannedRequests(buffers: seq<string>)
      modifies this
      ensures Snap() == SessionStep(old(Snap()), PlannedRequests(buffers)).0
    {
      requested := buffers;
    }

    method OnUpdateVbo(truthy: bool)
      modifies this
      ensures Snap() == SessionStep(old(Snap()), UpdateVbo(truthy)).0
    {
      if truthy && phase == AwaitingTick {
        WakeUp();
      } else {
        updateVbo := truthy;
      }
    }

    method OnTick()
      modifies this
      ensures Snap() == SessionStep(old(Snap()), Tick).0
    {
      if phase == AwaitingTick {
        WakeUp();
      }
    }

    /** `disconnect`: deletes the cache entry; the loop itself keeps running. */
    method OnDisconnect(cache: VboCache)
      modifies cache
      ensures cache.entries == Closed(old(cache.entries), socketId)
    {
      cache.Close(socketId);
    }
  }
}

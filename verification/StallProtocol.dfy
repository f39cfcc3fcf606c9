/**
 The watch on a Bot's stream (server/src/channels/stall-guard.ts) as a transition system.

 Every synchronous stretch of the guard's code is one action. The Bot, whoever reads the relayed
 copy, the clock and the sweep timer act between those stretches in any order.
 */
module StallProtocol {
  import opened Prelude
  import opened TurnWatchdogs

  type Bytes = seq<bv8>

  /** What can be written into the relayed stream: the Bot's own bytes, or the one sentence of a stall. */
  datatype Item = Chunk(bytes: Bytes) | RunError

  datatype RelayState = Open | Closing | Closed | Errored

  /** The identity TransformStream: items the reader has taken, and items written but not yet taken. */
  datatype Relay = Relay(taken: seq<Item>, queued: seq<Item>, state: RelayState) {
    function Log(): seq<Item> { taken + queued }

    /** A write is accepted only while the stream is open; otherwise its promise rejects. */
    function Write(item: Item): Relay {
      if state.Open? then this.(queued := queued + [item]) else this
    }

    /** A close is queued behind the writes; on a broken stream it rejects and changes nothing. */
    function Close(): Relay {
      if state.Open? then this.(state := Closing) else this
    }

    /** An abort or a cancel throws away what was not taken. */
    function Break(): Relay {
      if state.Closed? then this else Relay(taken, [], Errored)
    }
  }

  datatype BotEnd = Talking | Ended | Failed

  /**
   Where the pump is suspended: on the Bot, on the handover of one chunk, or finished.
   `slot` is the position of that chunk in the relay's log, or None when the write was refused.
   */
  datatype Pump = Reading | Writing(slot: Option<nat>) | Done

  datatype FinishKind = PumpClose | PumpAbort | StallClose

  /** Who ended a stream, and how many chunks had been read by then. */
  datatype Finish = Finish(kind: FinishKind, read: nat)

  /** The guard's entry for a stream. */
  datatype Entry = Entry(sse: bool, finished: bool)

  /** One stream as the whole system sees it. */
  datatype Conn = Conn(
    sse: bool,
    sent: seq<Bytes>,
    read: nat,
    end: BotEnd,
    cancelled: bool,
    pump: Pump,
    relay: Relay,
    finishes: seq<Finish>,
    reports: seq<StalledStream>)

  datatype World = World(
    stallMs: int,
    now: int,
    streams: map<StreamId, Entry>,
    watches: Watches,
    timer: Option<int>,
    conns: map<StreamId, Conn>)

  /** How often the sweep looks. */
  function SweepIntervalFor(stallMs: int): (every: int)
    ensures 50 <= every <= 1000
    ensures stallMs < 200 ==> every == 50
    ensures 200 <= stallMs < 4000 ==> 4 * every <= stallMs < 4 * every + 4
    ensures stallMs >= 4000 ==> every == 1000
  {
    var quarter := stallMs / 4;  // a positive divisor rounds down, as Math.floor does
    var atLeast := if quarter > 50 then quarter else 50;
    if atLeast < 1000 then atLeast else 1000
  }

  function NewConn(sse: bool): Conn {
    Conn(sse, [], 0, Talking, false, Reading, Relay([], [], Open), [], [])
  }

  function Init(stallMs: int, now: int): World {
    World(stallMs, now, map[], map[], None, map[])
  }

  // ---- the guard's own functions ----

  /** Whether `release` would hand this stream to its caller. */
  predicate Holds(w: World, id: StreamId) {
    id in w.streams && !w.streams[id].finished
  }

  function Released(w: World, id: StreamId): World {
    w.(streams := w.streams - {id}, watches := w.watches - {id})
  }

  /** The end a pump gives a stream it was allowed to release. */
  function EndedByPump(c: Conn, kind: FinishKind): Conn {
    var relay := if kind.PumpClose? then c.relay.Close() else c.relay.Break();
    c.(relay := relay, finishes := c.finishes + [Finish(kind, c.read)])
  }

  /** The end a stall gives: the Bot's side cancelled, one sentence if it may be written, the close. */
  function EndedByStall(c: Conn, sse: bool, report: StalledStream): Conn {
    var relay := if sse then c.relay.Write(RunError) else c.relay;
    c.(cancelled := true,
       relay := relay.Close(),
       finishes := c.finishes + [Finish(StallClose, c.read)],
       reports := c.reports + [report])
  }

  function GiveUp(w: World, report: StalledStream): World
    requires w.streams.Keys <= w.conns.Keys
  {
    var id := report.id;
    if Holds(w, id)
    then Released(w, id).(conns := w.conns[id := EndedByStall(w.conns[id], w.streams[id].sse, report)])
    else w
  }

  /** A pump leaving its loop: `if (release(id)) close or abort`, and then it is done. */
  function PumpFinishes(w: World, id: StreamId, kind: FinishKind): World
    requires id in w.conns
  {
    var c := w.conns[id];
    if Holds(w, id)
    then Released(w, id).(conns := w.conns[id := EndedByPump(c, kind).(pump := Done)])
    else w.(conns := w.conns[id := c.(pump := Done)])
  }

  function TakesChunk(c: Conn): Conn
    requires c.read < |c.sent|
  {
    var slot := if c.relay.state.Open? then Some(|c.relay.Log()|) else None;
    c.(read := c.read + 1, relay := c.relay.Write(Chunk(c.sent[c.read])), pump := Writing(slot))
  }

  /** The reader takes the oldest item. */
  function Delivered(r: Relay): Relay
    requires r.queued != []
  {
    r.(taken := r.taken + [r.queued[0]], queued := r.queued[1..])
  }

  /** A read resolved with a chunk: note it, stop the clock, and hand the chunk over. */
  function PumpTakes(w: World, id: StreamId): World
    requires id in w.conns && w.conns[id].read < |w.conns[id].sent|
  {
    w.(watches := Paused(Recorded(w.watches, id, w.now), id), conns := w.conns[id := TakesChunk(w.conns[id])])
  }

  predicate SilentIn(w: World, id: StreamId) {
    w.stallMs > 0 && id in w.watches && Silent(w.watches[id], w.now, w.stallMs)
  }

  function ReportOf(w: World, id: StreamId): StalledStream
    requires id in w.watches
  {
    StalledStream(id, w.now - w.watches[id].lastChunkAt, w.watches[id].chunks)
  }

  function SilentAmong(w: World, ids: set<StreamId>): set<StreamId> {
    set id | id in ids && SilentIn(w, id)
  }

  /** The sweep applied to the streams of `ids` only. */
  function SweptAmong(w: World, ids: set<StreamId>): World
    requires w.streams.Keys <= w.conns.Keys
  {
    var stalled := SilentAmong(w, ids);
    w.(watches := w.watches - stalled,
       streams := w.streams - (set id | id in stalled && Holds(w, id)),
       conns := map id | id in w.conns ::
         if id in stalled && Holds(w, id) then EndedByStall(w.conns[id], w.streams[id].sse, ReportOf(w, id))
         else w.conns[id])
  }

  /** One firing of the timer: look at everything watched, and stop looking when nothing is left. */
  function Swept(w: World): World
    requires w.streams.Keys <= w.conns.Keys
  {
    var w' := SweptAmong(w, w.watches.Keys);
    w'.(timer := if w'.watches == map[] then None else Some(w.now))
  }

  // ---- the transition system ----

  datatype Action =
    | Tick(ms: nat)
    | WatchStream(id: StreamId, sse: bool)
    | BotSends(id: StreamId, bytes: Bytes)
    | BotEnds(id: StreamId)
    | BotFails(id: StreamId)
    | PumpTakesChunk(id: StreamId)
    | PumpSeesEnd(id: StreamId)
    | PumpSeesFailure(id: StreamId)
    | PumpResumes(id: StreamId)
    | PumpWriteRejected(id: StreamId)
    | ConsumerTakes(id: StreamId)
    | ConsumerCancels(id: StreamId)
    | RelayDrains(id: StreamId)
    | TimerFires
    | StopGuard

  /** When an action can happen. Stream ids are fresh UUIDs, so a new one has never been used. */
  predicate Enabled(w: World, a: Action) {
    match a
    case Tick(_) => true
    case WatchStream(id, _) => w.stallMs > 0 && id !in w.conns
    case BotSends(id, _) => id in w.conns && w.conns[id].end.Talking?
    case BotEnds(id) => id in w.conns && w.conns[id].end.Talking?
    case BotFails(id) => id in w.conns && w.conns[id].end.Talking?
    case PumpTakesChunk(id) =>
      // Also after a cancel: a read that had already resolved is still delivered to the pump.
      id in w.conns && w.conns[id].pump.Reading? && w.conns[id].read < |w.conns[id].sent|
    case PumpSeesEnd(id) =>
      && id in w.conns && w.conns[id].pump.Reading?
      && (w.conns[id].cancelled || (w.conns[id].end.Ended? && w.conns[id].read == |w.conns[id].sent|))
    case PumpSeesFailure(id) => id in w.conns && w.conns[id].pump.Reading? && w.conns[id].end.Failed?
    case PumpResumes(id) =>
      && id in w.conns && w.conns[id].pump.Writing? && w.conns[id].pump.slot.Some?
      && w.conns[id].pump.slot.value < |w.conns[id].relay.taken|
    case PumpWriteRejected(id) =>
      && id in w.conns && w.conns[id].pump.Writing?
      && (w.conns[id].pump.slot.None? || w.conns[id].relay.state.Errored?)
    case ConsumerTakes(id) =>
      id in w.conns && !w.conns[id].relay.state.Errored? && w.conns[id].relay.queued != []
    case ConsumerCancels(id) =>
      id in w.conns && (w.conns[id].relay.state.Open? || w.conns[id].relay.state.Closing?)
    case RelayDrains(id) =>
      id in w.conns && w.conns[id].relay.state.Closing? && w.conns[id].relay.queued == []
    case TimerFires => w.timer.Some? && w.streams.Keys <= w.conns.Keys
    case StopGuard => true
  }

  function WithRelay(w: World, id: StreamId, relay: Relay): World
    requires id in w.conns
  {
    w.(conns := w.conns[id := w.conns[id].(relay := relay)])
  }

  function Step(w: World, a: Action): World
    requires Enabled(w, a)
  {
    match a
    case Tick(ms) => w.(now := w.now + ms)
    case WatchStream(id, sse) =>
      w.(streams := w.streams[id := Entry(sse, false)],
         watches := Opened(w.watches, id, w.now, w.stallMs),
         timer := if w.timer.Some? then w.timer else Some(w.now),
         conns := w.conns[id := NewConn(sse)])
    case BotSends(id, bytes) => w.(conns := w.conns[id := w.conns[id].(sent := w.conns[id].sent + [bytes])])
    case BotEnds(id) => w.(conns := w.conns[id := w.conns[id].(end := Ended)])
    case BotFails(id) => w.(conns := w.conns[id := w.conns[id].(end := Failed)])
    case PumpTakesChunk(id) => PumpTakes(w, id)
    case PumpSeesEnd(id) => PumpFinishes(w, id, PumpClose)
    case PumpSeesFailure(id) => PumpFinishes(w, id, PumpAbort)
    case PumpResumes(id) =>
      w.(watches := Resumed(w.watches, id, w.now), conns := w.conns[id := w.conns[id].(pump := Reading)])
    case PumpWriteRejected(id) => PumpFinishes(w, id, PumpAbort)
    case ConsumerTakes(id) => WithRelay(w, id, Delivered(w.conns[id].relay))
    case ConsumerCancels(id) => WithRelay(w, id, w.conns[id].relay.Break())
    case RelayDrains(id) => WithRelay(w, id, w.conns[id].relay.(state := Closed))
    case TimerFires => Swept(w)
    case StopGuard => w.(timer := None)
  }

  // ---- the invariant ----

  function Chunks(bytes: seq<Bytes>): (items: seq<Item>)
    ensures |items| == |bytes|
  {
    seq(|bytes|, i requires 0 <= i < |bytes| => Chunk(bytes[i]))
  }

  /** Everything that belongs in the relayed stream so far, in order, were nobody to break it. */
  function Intended(c: Conn): seq<Item> {
    if |c.finishes| == 1 && c.finishes[0].kind.StallClose? && c.finishes[0].read <= |c.sent|
    then Chunks(c.sent[..c.finishes[0].read]) + if c.sse then [RunError] else []
    else if c.read <= |c.sent| then Chunks(c.sent[..c.read])
    else []
  }

  /** One stream, given whether the guard still watches it. */
  ghost predicate ConnInv(c: Conn, watched: bool, stallMs: int) {
    && c.read <= |c.sent|
    && |c.finishes| <= 1
    && (watched <==> c.finishes == [])
    && (c.pump.Done? ==> c.finishes != [])
    && (c.finishes == [] ==> (c.relay.state.Open? || c.relay.state.Errored?) && !c.cancelled)
    && (c.finishes != [] ==> c.finishes[0].read <= c.read && !c.relay.state.Open?)
    && (c.finishes != [] && c.finishes[0].kind.PumpClose? ==> c.end.Ended? && c.read == |c.sent|)
    && (c.finishes != [] && c.finishes[0].kind.PumpAbort? ==> c.relay.state.Errored?)
    && (c.finishes != [] && !c.finishes[0].kind.StallClose? ==> c.pump.Done? && !c.cancelled)
    && (if c.finishes != [] && c.finishes[0].kind.StallClose?
        then |c.reports| == 1 && c.reports[0].silentForMs >= stallMs && c.reports[0].chunks == c.finishes[0].read
        else c.reports == [])
    && (c.relay.state.Closed? || c.relay.state.Errored? ==> c.relay.queued == [])
    && c.relay.Log() <= Intended(c)
    && (!c.relay.state.Errored? ==> c.relay.Log() == Intended(c))
    && (c.relay.state.Open? && c.pump.Reading? ==> c.relay.queued == [])
    && (c.relay.state.Open? && c.pump.Writing? ==>
          c.pump.slot.Some? && |c.relay.Log()| == c.pump.slot.value + 1)
  }

  /** What the system holds about one id. */
  datatype View = View(entry: Option<Entry>, watch: Option<Watch>, conn: Option<Conn>)

  function ViewOf(w: World, id: StreamId): View {
    View(
      if id in w.streams then Some(w.streams[id]) else None,
      if id in w.watches then Some(w.watches[id]) else None,
      if id in w.conns then Some(w.conns[id]) else None)
  }

  /**
   The guard's map and the watchdog's map agree on the id, and the entry is unpaused exactly while
   the pump waits on the Bot.
   */
  ghost predicate ViewInv(v: View, stallMs: int, now: int) {
    && (v.entry.Some? <==> v.watch.Some?)
    && (v.entry.Some? ==>
          && v.conn.Some? && stallMs > 0
          && !v.entry.value.finished
          && v.entry.value.sse == v.conn.value.sse
          && (!v.watch.value.paused <==> v.conn.value.pump.Reading?)
          && v.watch.value.chunks == v.conn.value.read
          && v.watch.value.lastChunkAt <= now)
    && (v.conn.Some? ==> ConnInv(v.conn.value, v.entry.Some?, stallMs))
  }

  ghost predicate Inv(w: World) {
    && (forall id :: ViewInv(ViewOf(w, id), w.stallMs, w.now))
    && (w.timer.Some? ==> w.timer.value <= w.now)
  }

  lemma InitInv(stallMs: int, now: int)
    ensures Inv(Init(stallMs, now))
  {
  }

  /** The two maps hold the same ids, all of them known connections. */
  lemma SameKeys(w: World)
    requires Inv(w)
    ensures w.streams.Keys == w.watches.Keys
    ensures w.streams.Keys <= w.conns.Keys
  {
    forall id
      ensures (id in w.streams <==> id in w.watches) && (id in w.streams ==> id in w.conns)
    {
      assert ViewInv(ViewOf(w, id), w.stallMs, w.now);
    }
  }

  // ---- what each step does to one connection ----

  lemma ChunksGrow(bytes: seq<Bytes>, n: nat)
    requires n < |bytes|
    ensures Chunks(bytes[..n + 1]) == Chunks(bytes[..n]) + [Chunk(bytes[n])]
  {
  }

  lemma TakesChunkInv(c: Conn, watched: bool, stallMs: int)
    requires ConnInv(c, watched, stallMs) && c.read < |c.sent| && c.pump.Reading?
    ensures ConnInv(TakesChunk(c), watched, stallMs)
  {
    ChunksGrow(c.sent, c.read);
    var c' := TakesChunk(c);
    if c.finishes == [] {
      assert Intended(c') == Intended(c) + [Chunk(c.sent[c.read])];
      if c.relay.state.Open? {
        assert c'.relay.Log() == c.relay.Log() + [Chunk(c.sent[c.read])];
      }
    } else {
      assert Intended(c') == Intended(c);
    }
  }

  lemma SendsInv(c: Conn, bytes: Bytes, watched: bool, stallMs: int)
    requires ConnInv(c, watched, stallMs) && c.end.Talking?
    ensures ConnInv(c.(sent := c.sent + [bytes]), watched, stallMs)
  {
    assert forall n | 0 <= n <= |c.sent| :: (c.sent + [bytes])[..n] == c.sent[..n];
    assert Intended(c.(sent := c.sent + [bytes])) == Intended(c);
  }

  lemma EndedByPumpInv(c: Conn, kind: FinishKind, stallMs: int)
    requires ConnInv(c, true, stallMs) && !c.pump.Done?
    requires kind.PumpClose? || kind.PumpAbort?
    requires kind.PumpClose? ==> c.pump.Reading? && c.end.Ended? && c.read == |c.sent|
    ensures ConnInv(EndedByPump(c, kind).(pump := Done), false, stallMs)
  {
    var c' := EndedByPump(c, kind).(pump := Done);
    assert c'.relay.taken <= c.relay.Log();
    assert Intended(c') == Intended(c);
  }

  lemma EndedByStallInv(c: Conn, report: StalledStream, stallMs: int)
    requires ConnInv(c, true, stallMs) && c.pump.Reading?
    requires report.silentForMs >= stallMs && report.chunks == c.read
    ensures ConnInv(EndedByStall(c, c.sse, report), false, stallMs)
  {
    var c' := EndedByStall(c, c.sse, report);
    assert Intended(c') == Intended(c) + if c.sse then [RunError] else [];
    if c.relay.state.Open? && c.sse {
      assert c'.relay.Log() == c.relay.Log() + [RunError];
    }
  }

  lemma ConsumerTakesInv(c: Conn, watched: bool, stallMs: int)
    requires ConnInv(c, watched, stallMs) && !c.relay.state.Errored? && c.relay.queued != []
    ensures ConnInv(c.(relay := Delivered(c.relay)), watched, stallMs)
  {
    assert Delivered(c.relay).Log() == c.relay.Log();
  }

  lemma BreakInv(c: Conn, watched: bool, stallMs: int)
    requires ConnInv(c, watched, stallMs)
    ensures ConnInv(c.(relay := c.relay.Break()), watched, stallMs)
  {
    assert c.relay.taken <= c.relay.Log();
    assert Intended(c.(relay := c.relay.Break())) == Intended(c);
  }

  lemma BotStopsInv(c: Conn, end: BotEnd, watched: bool, stallMs: int)
    requires ConnInv(c, watched, stallMs) && c.end.Talking?
    ensures ConnInv(c.(end := end), watched, stallMs)
  {
    assert Intended(c.(end := end)) == Intended(c);
  }

  lemma ResumesInv(c: Conn, watched: bool, stallMs: int)
    requires ConnInv(c, watched, stallMs) && c.pump.Writing? && c.pump.slot.Some?
    requires c.pump.slot.value < |c.relay.taken|
    ensures ConnInv(c.(pump := Reading), watched, stallMs)
  {
    assert Intended(c.(pump := Reading)) == Intended(c);
  }

  lemma DrainsInv(c: Conn, watched: bool, stallMs: int)
    requires ConnInv(c, watched, stallMs) && c.relay.state.Closing? && c.relay.queued == []
    ensures ConnInv(c.(relay := c.relay.(state := Closed)), watched, stallMs)
  {
    assert Intended(c.(relay := c.relay.(state := Closed))) == Intended(c);
  }

  // ---- every step keeps the invariant ----

  /** A step that touches one id only. */
  lemma OneStream(w: World, w': World, id: StreamId)
    requires Inv(w)
    requires w'.stallMs == w.stallMs && w'.now == w.now
    requires forall other :: other != id ==> ViewOf(w', other) == ViewOf(w, other)
    requires ViewInv(ViewOf(w', id), w.stallMs, w.now)
    requires w'.timer.Some? ==> w'.timer.value <= w'.now
    ensures Inv(w')
  {
    forall other
      ensures ViewInv(ViewOf(w', other), w'.stallMs, w'.now)
    {
      if other != id {
        assert ViewInv(ViewOf(w, other), w.stallMs, w.now);
      }
    }
  }

  lemma PumpFinishesInv(w: World, id: StreamId, kind: FinishKind)
    requires Inv(w) && id in w.conns && !w.conns[id].pump.Done?
    requires kind.PumpClose? || kind.PumpAbort?
    requires kind.PumpClose? ==> Enabled(w, PumpSeesEnd(id))
    ensures Inv(PumpFinishes(w, id, kind))
  {
    assert ViewInv(ViewOf(w, id), w.stallMs, w.now);
    if Holds(w, id) {
      EndedByPumpInv(w.conns[id], kind, w.stallMs);
    }
    OneStream(w, PumpFinishes(w, id, kind), id);
  }

  lemma SweptInv(w: World)
    requires Inv(w) && w.streams.Keys <= w.conns.Keys
    ensures Inv(Swept(w))
  {
    var w' := Swept(w);
    forall id
      ensures ViewInv(ViewOf(w', id), w.stallMs, w.now)
    {
      assert ViewInv(ViewOf(w, id), w.stallMs, w.now);
      if SilentIn(w, id) {
        EndedByStallInv(w.conns[id], ReportOf(w, id), w.stallMs);
      }
    }
  }

  /** Every action keeps the invariant. */
  lemma StepInv(w: World, a: Action)
    requires Inv(w) && Enabled(w, a)
    ensures Inv(Step(w, a))
  {
    var w' := Step(w, a);
    match a {
      case Tick(_) =>
        forall id
          ensures ViewInv(ViewOf(w', id), w'.stallMs, w'.now)
        {
          assert ViewInv(ViewOf(w, id), w.stallMs, w.now);
        }
      case StopGuard =>
        forall id
          ensures ViewInv(ViewOf(w', id), w'.stallMs, w'.now)
        {
          assert ViewInv(ViewOf(w, id), w.stallMs, w.now);
        }
      case TimerFires => SweptInv(w);
      case PumpSeesEnd(id) => PumpFinishesInv(w, id, PumpClose);
      case PumpSeesFailure(id) => PumpFinishesInv(w, id, PumpAbort);
      case PumpWriteRejected(id) => PumpFinishesInv(w, id, PumpAbort);
      case _ =>
        StepOneInv(w, a);
    }
  }

  /** The id an action is about. */
  function Subject(a: Action): (id: Option<StreamId>)
  {
    match a
    case Tick(_) => None
    case WatchStream(id, _) => Some(id)
    case BotSends(id, _) => Some(id)
    case BotEnds(id) => Some(id)
    case BotFails(id) => Some(id)
    case PumpTakesChunk(id) => Some(id)
    case PumpSeesEnd(id) => Some(id)
    case PumpSeesFailure(id) => Some(id)
    case PumpResumes(id) => Some(id)
    case PumpWriteRejected(id) => Some(id)
    case ConsumerTakes(id) => Some(id)
    case ConsumerCancels(id) => Some(id)
    case RelayDrains(id) => Some(id)
    case TimerFires => None
    case StopGuard => None
  }

  /** An action about one id leaves everything the system holds about the others alone. */
  lemma StepFrame(w: World, a: Action, other: StreamId)
    requires Enabled(w, a) && Subject(a).Some? && other != Subject(a).value
    ensures ViewOf(Step(w, a), other) == ViewOf(w, other)
  {
  }

  /** What the Bot and the pump do to one connection. */
  lemma BotStepInv(w: World, a: Action, id: StreamId)
    requires id in w.conns && ConnInv(w.conns[id], id in w.streams, w.stallMs)
    requires Enabled(w, a) && Subject(a) == Some(id)
    requires a.BotSends? || a.BotEnds? || a.BotFails? || a.PumpTakesChunk? || a.PumpResumes?
    ensures id in Step(w, a).conns
    ensures ConnInv(Step(w, a).conns[id], id in w.streams, w.stallMs)
  {
    var c, watched := w.conns[id], id in w.streams;
    match a {
      case BotSends(_, bytes) => SendsInv(c, bytes, watched, w.stallMs);
      case BotEnds(_) => BotStopsInv(c, Ended, watched, w.stallMs);
      case BotFails(_) => BotStopsInv(c, Failed, watched, w.stallMs);
      case PumpTakesChunk(_) => TakesChunkInv(c, watched, w.stallMs);
      case PumpResumes(_) => ResumesInv(c, watched, w.stallMs);
    }
  }

  /** What whoever reads the relayed copy does to it. */
  lemma ReaderStepInv(w: World, a: Action, id: StreamId)
    requires id in w.conns && ConnInv(w.conns[id], id in w.streams, w.stallMs)
    requires Enabled(w, a) && Subject(a) == Some(id)
    requires a.ConsumerTakes? || a.ConsumerCancels? || a.RelayDrains?
    ensures id in Step(w, a).conns
    ensures ConnInv(Step(w, a).conns[id], id in w.streams, w.stallMs)
  {
    var c, watched := w.conns[id], id in w.streams;
    match a {
      case ConsumerTakes(_) => ConsumerTakesInv(c, watched, w.stallMs);
      case ConsumerCancels(_) => BreakInv(c, watched, w.stallMs);
      case RelayDrains(_) => DrainsInv(c, watched, w.stallMs);
    }
  }

  lemma StepConnInv(w: World, a: Action, id: StreamId)
    requires ViewInv(ViewOf(w, id), w.stallMs, w.now)
    requires Enabled(w, a) && Subject(a) == Some(id)
    requires !a.PumpSeesEnd? && !a.PumpSeesFailure? && !a.PumpWriteRejected? && !a.WatchStream?
    ensures id in Step(w, a).conns
    ensures ConnInv(Step(w, a).conns[id], id in w.streams, w.stallMs)
  {
    if a.ConsumerTakes? || a.ConsumerCancels? || a.RelayDrains? {
      ReaderStepInv(w, a, id);
    } else {
      BotStepInv(w, a, id);
    }
  }

  lemma StepOneInv(w: World, a: Action)
    requires Inv(w) && Enabled(w, a) && Subject(a).Some?
    requires !a.PumpSeesEnd? && !a.PumpSeesFailure? && !a.PumpWriteRejected?
    ensures Inv(Step(w, a))
  {
    var id := Subject(a).value;
    assert ViewInv(ViewOf(w, id), w.stallMs, w.now);
    if !a.WatchStream? {
      StepConnInv(w, a, id);
    }
    StepViewInv(w, a, id);
    forall other | other != id
      ensures ViewOf(Step(w, a), other) == ViewOf(w, other)
    {
      StepFrame(w, a, other);
    }
    OneStream(w, Step(w, a), id);
  }

  lemma StepViewInv(w: World, a: Action, id: StreamId)
    requires ViewInv(ViewOf(w, id), w.stallMs, w.now)
    requires Enabled(w, a) && Subject(a) == Some(id)
    requires !a.PumpSeesEnd? && !a.PumpSeesFailure? && !a.PumpWriteRejected?
    requires !a.WatchStream? ==>
               id in Step(w, a).conns && ConnInv(Step(w, a).conns[id], id in w.streams, w.stallMs)
    ensures ViewInv(ViewOf(Step(w, a), id), w.stallMs, w.now)
  {
  }
}

/**
 The guard as server/src/channels/stall-guard.ts writes it: a map of open streams, a watchdog and a
 sweep timer, changed in place. Each method is one synchronous stretch of that code and is proved
 to be the action of `StallProtocol` it stands for.
 */
module StallGuards {
  import opened Prelude
  import opened TurnWatchdogs
  import opened StallProtocol

  class StallGuard {
    const watchdog: TurnWatchdog
    var streams: map<StreamId, Entry>
    /** When the sweeper last fired or was armed; None while there is no sweeper. */
    var sweeper: Option<int>
    /** The Bots, pumps and relays behind the open streams. */
    var conns: map<StreamId, Conn>

    constructor (stallMs: int)
      ensures fresh(watchdog)
      ensures forall now :: State(now) == Init(stallMs, now)
    {
      watchdog := new TurnWatchdog(stallMs);
      streams, sweeper, conns := map[], None, map[];
    }

    /** The abstract state, at the time the injected clock shows. */
    function State(now: int): World
      reads this, watchdog
    {
      World(watchdog.stallMs, now, streams, watchdog.streams, sweeper, conns)
    }

    method Arm(now: int)
      modifies this`sweeper
      ensures sweeper == if old(sweeper).Some? then old(sweeper) else Some(now)
    {
      if sweeper.None? {
        sweeper := Some(now);
      }
    }

    /** Also the guard's `stop`. */
    method Disarm(now: int)
      modifies this`sweeper
      ensures State(now) == Step(old(State(now)), StopGuard)
    {
      sweeper := None;
    }

    /** Takes a stream off both maps for its first caller only. */
    method Release(id: StreamId) returns (stream: Option<Entry>)
      modifies this`streams, watchdog
      ensures stream.Some? <==> id in old(streams) && !old(streams)[id].finished
      ensures stream.Some? ==>
                stream.value.sse == old(streams)[id].sse
                && streams == old(streams) - {id} && watchdog.streams == old(watchdog.streams) - {id}
      ensures stream.None? ==> streams == old(streams) && watchdog.streams == old(watchdog.streams)
    {
      if id !in streams || streams[id].finished {
        return None;
      }
      var entry := streams[id].(finished := true);
      streams := streams - {id};
      watchdog.Close(id);
      return Some(entry);
    }

    /** What `giveUp` does before its audit row: cancel the Bot, write the sentence, queue the close. */
    method GiveUpOn(report: StalledStream, now: int)
      requires streams.Keys <= conns.Keys
      modifies this`streams, this`conns, watchdog
      ensures State(now) == GiveUp(old(State(now)), report)
    {
      var id := report.id;
      var stream := Release(id);
      if stream.Some? {
        var conn := conns[id];
        conn := conn.(cancelled := true);
        if stream.value.sse {
          conn := conn.(relay := conn.relay.Write(RunError));
        }
        conn := conn.(relay := conn.relay.Close());
        conn := conn.(finishes := conn.finishes + [Finish(StallClose, conn.read)], reports := conn.reports + [report]);
        conns := conns[id := conn];
      }
    }

    /** The part of the wrapped fetch that runs once a streaming response has arrived. */
    method Watch(id: StreamId, sse: bool, now: int)
      requires Enabled(State(now), WatchStream(id, sse))
      modifies this, watchdog
      ensures State(now) == Step(old(State(now)), WatchStream(id, sse))
    {
      streams := streams[id := Entry(sse, false)];
      conns := conns[id := NewConn(sse)];
      watchdog.Open(id, now);
      Arm(now);
    }

    /** `pump`: a read resolved with a chunk, up to the `await` of its handover. */
    method PumpReadChunk(id: StreamId, now: int)
      requires Enabled(State(now), PumpTakesChunk(id))
      modifies this`conns, watchdog
      ensures State(now) == Step(old(State(now)), PumpTakesChunk(id))
    {
      var conn := conns[id];
      var value := conn.sent[conn.read];
      watchdog.Record(id, now);
      watchdog.Pause(id);
      var slot := if conn.relay.state.Open? then Some(|conn.relay.taken| + |conn.relay.queued|) else None;
      conns := conns[id := conn.(read := conn.read + 1, relay := conn.relay.Write(Chunk(value)), pump := Writing(slot))];
    }

    /** `pump`: the handover completed, and the next read is awaited. */
    method PumpWroteChunk(id: StreamId, now: int)
      requires Enabled(State(now), PumpResumes(id))
      modifies this`conns, watchdog
      ensures State(now) == Step(old(State(now)), PumpResumes(id))
    {
      watchdog.Resume(id, now);
      conns := conns[id := conns[id].(pump := Reading)];
    }

    /** `pump` leaving its loop, by the end of the Bot's stream or by an exception. */
    method PumpLeaves(id: StreamId, kind: FinishKind, now: int)
      requires id in conns && streams.Keys <= conns.Keys
      modifies this`streams, this`conns, watchdog
      ensures State(now) == PumpFinishes(old(State(now)), id, kind)
    {
      var stream := Release(id);
      var conn := conns[id];
      if stream.Some? {
        var relay := if kind.PumpClose? then conn.relay.Close() else conn.relay.Break();
        conn := conn.(relay := relay, finishes := conn.finishes + [Finish(kind, conn.read)]);
      }
      conns := conns[id := conn.(pump := Done)];
    }

    /** The sweep's loop body with its callback. */
    method SweepStream(id: StreamId, now: int)
      requires streams.Keys <= conns.Keys && id in watchdog.streams
      modifies this`streams, this`conns, watchdog
      ensures State(now) == SweptOne(old(State(now)), id)
    {
      var report := watchdog.SweepOne(id, now);
      if report.Some? {
        GiveUpOn(report.value, now);
      }
    }

    /** The sweep, giving up each silent stream as it is found. The watched ids come in any order. */
    method Sweep(now: int)
      requires streams.Keys <= conns.Keys
      modifies this`streams, this`conns, watchdog
      ensures State(now) == SweptAmong(old(State(now)), old(watchdog.streams.Keys))
    {
      ghost var start := State(now);
      var todo := watchdog.streams.Keys;
      ghost var seen: set<StreamId> := {};
      NothingSwept(start);
      while todo != {}
        invariant seen !! todo && seen + todo == start.watches.Keys
        invariant State(now) == SweptAmong(start, seen)
        decreases todo
      {
        var id :| id in todo;
        SweptOneMore(start, seen, id);
        SweepStream(id, now);
        todo, seen := todo - {id}, seen + {id};
      }
      assert seen == start.watches.Keys;
    }

    /** The interval's callback: sweep, and disarm once nothing is left. */
    method OnInterval(now: int)
      requires sweeper.Some? && streams.Keys <= conns.Keys
      modifies this, watchdog
      ensures State(now) == Swept(old(State(now)))
    {
      Sweep(now);
      sweeper := Some(now);
      if |watchdog.streams| == 0 {
        Disarm(now);
      }
    }
  }

  /** One turn of the sweep's loop: the watch is deleted before the stream is given up. */
  function SweptOne(w: World, id: StreamId): World
    requires w.streams.Keys <= w.conns.Keys
  {
    if SilentIn(w, id) then GiveUp(w.(watches := w.watches - {id}), ReportOf(w, id)) else w
  }

  lemma NothingSwept(w: World)
    requires w.streams.Keys <= w.conns.Keys
    ensures SweptAmong(w, {}) == w
  {
    assert SilentAmong(w, {}) == {};
  }

  /** Sweeping one id more is deleting its watch and then giving it up, if it is silent. */
  lemma SweptOneMore(w: World, seen: set<StreamId>, id: StreamId)
    requires w.streams.Keys <= w.conns.Keys && id !in seen && id in w.watches
    ensures var part := SweptAmong(w, seen);
            && part.streams.Keys <= part.conns.Keys && id in part.watches
            && SweptAmong(w, seen + {id}) == SweptOne(part, id)
  {
    var part, next := SweptAmong(w, seen), SweptAmong(w, seen + {id});
    var stalled := SilentAmong(w, seen);
    if !SilentIn(w, id) {
      assert SilentAmong(w, seen + {id}) == stalled;
    } else {
      assert SilentAmong(w, seen + {id}) == stalled + {id};
      var given := GiveUp(part.(watches := part.watches - {id}), ReportOf(w, id));
      assert next.watches == given.watches;
      assert next.streams == given.streams;
      assert next.conns.Keys == given.conns.Keys;
      assert next.conns == given.conns;
    }
  }
}

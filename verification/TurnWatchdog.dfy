/**
 The silence clock of server/src/channels/turn-watchdog.ts.

 One entry per watched stream. `lastChunkAt` is the moment from which silence is counted and
 `paused` says that the current wait is not on the Bot. The injected clock is a parameter.
 */
module TurnWatchdogs {
  import opened Prelude

  type StreamId = nat

  datatype Watch = Watch(lastChunkAt: int, chunks: nat, paused: bool)

  type Watches = map<StreamId, Watch>

  datatype StalledStream = StalledStream(id: StreamId, silentForMs: int, chunks: nat)

  function Opened(ws: Watches, id: StreamId, now: int, stallMs: int): Watches {
    if stallMs > 0 then ws[id := Watch(now, 0, false)] else ws
  }

  function Recorded(ws: Watches, id: StreamId, now: int): Watches {
    if id in ws then ws[id := ws[id].(lastChunkAt := now, chunks := ws[id].chunks + 1)] else ws
  }

  function Paused(ws: Watches, id: StreamId): Watches {
    if id in ws then ws[id := ws[id].(paused := true)] else ws
  }

  function Resumed(ws: Watches, id: StreamId, now: int): Watches {
    if id in ws then ws[id := ws[id].(lastChunkAt := now, paused := false)] else ws
  }

  /** Whether the sweep at `now` gives this stream up. */
  predicate Silent(w: Watch, now: int, stallMs: int) {
    !w.paused && now - w.lastChunkAt >= stallMs
  }

  class TurnWatchdog {
    const stallMs: int
    var streams: Watches

    constructor (stallMs: int)
      ensures this.stallMs == stallMs && streams == map[]
    {
      this.stallMs := stallMs;
      streams := map[];
    }

    /** Restarts the clock of an id that is already open; does nothing when switched off. */
    method Open(id: StreamId, now: int)
      modifies this
      ensures streams == Opened(old(streams), id, now, stallMs)
    {
      if stallMs > 0 {
        streams := streams[id := Watch(now, 0, false)];
      }
    }

    method Record(id: StreamId, now: int)
      modifies this
      ensures streams == Recorded(old(streams), id, now)
    {
      if id in streams {
        var stream := streams[id];
        streams := streams[id := Watch(now, stream.chunks + 1, stream.paused)];
      }
    }

    method Pause(id: StreamId)
      modifies this
      ensures streams == Paused(old(streams), id)
    {
      if id in streams {
        streams := streams[id := streams[id].(paused := true)];
      }
    }

    method Resume(id: StreamId, now: int)
      modifies this
      ensures streams == Resumed(old(streams), id, now)
    {
      if id in streams {
        streams := streams[id := Watch(now, streams[id].chunks, false)];
      }
    }

    method Close(id: StreamId)
      modifies this
      ensures streams == old(streams) - {id}
    {
      streams := streams - {id};
    }

    /**
     One turn of the sweep's loop. A silent stream is taken off the watch before it is reported, so
     the report exists exactly when the entry was silent, and carries the length of that silence.
     */
    method SweepOne(id: StreamId, now: int) returns (report: Option<StalledStream>)
      modifies this
      ensures report.Some? <==> stallMs > 0 && id in old(streams) && Silent(old(streams)[id], now, stallMs)
      ensures report.Some? ==>
                && report.value.id == id
                && report.value.silentForMs == now - old(streams)[id].lastChunkAt >= stallMs
                && report.value.chunks == old(streams)[id].chunks
                && streams == old(streams) - {id}
      ensures report.None? ==> streams == old(streams)
    {
      if stallMs <= 0 || id !in streams {
        return None;
      }
      var stream := streams[id];
      if stream.paused {
        return None;
      }
      var silentForMs := now - stream.lastChunkAt;
      if silentForMs < stallMs {
        return None;
      }
      streams := streams - {id};
      return Some(StalledStream(id, silentForMs, stream.chunks));
    }
  }
}

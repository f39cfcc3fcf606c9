/**
 Runs of the stall guard that happen, for every conversation: one that ends well and one that falls silent.
 They show that the steps of `StallProtocol` are enough to carry a turn from its opening to its end.
 */
module StallTurns {
  import opened Prelude
  import opened TurnWatchdogs
  import opened StallProtocol
  import opened StallRuns

  function Last(r: Run): World
    requires |r.states| > 0
  {
    r.states[|r.states| - 1]
  }

  lemma Extended(r: Run, a: Action) returns (s: Run)
    requires IsRun(r) && Enabled(Last(r), a)
    ensures IsRun(s) && s.states[0] == r.states[0] && Last(s) == Step(Last(r), a)
  {
    s := Run(r.states + [Step(Last(r), a)], r.actions + [a]);
    forall k | 0 <= k < |s.actions|
      ensures Enabled(s.states[k], s.actions[k]) && s.states[k + 1] == Step(s.states[k], s.actions[k])
    {
      assert s.states[k] == r.states[k];
    }
  }

  /** Everything said so far has been taken by the reader, and the pump waits on the Bot, watched from `since`. */
  ghost predicate CaughtUp(w: World, id: StreamId, sse: bool, said: seq<Bytes>, since: int) {
    && id in w.conns && id in w.watches && Holds(w, id)
    && w.conns[id] == Conn(sse, said, |said|, Talking, false, Reading, Relay(Chunks(said), [], Open), [], [])
    && w.streams[id].sse == sse && w.watches[id] == Watch(since, |said|, false)
    && w.timer.Some?
  }

  /** One chunk goes all the way: sent, pumped, taken, and the pump back at its read. */
  lemma OneMoreChunk(r: Run, id: StreamId, sse: bool, said: seq<Bytes>, bytes: Bytes) returns (s: Run)
    requires IsRun(r) && CaughtUp(Last(r), id, sse, said, Last(r).now)
    ensures IsRun(s) && s.states[0] == r.states[0] && Last(s).now == Last(r).now
    ensures CaughtUp(Last(s), id, sse, said + [bytes], Last(s).now)
  {
    s := Extended(r, BotSends(id, bytes));
    s := Extended(s, PumpTakesChunk(id));
    var queued := Last(s).conns[id].relay;
    assert queued == Relay(Chunks(said), [Chunk(bytes)], Open);
    s := Extended(s, ConsumerTakes(id));
    assert Chunks(said + [bytes]) == Chunks(said) + [Chunk(bytes)];
    s := Extended(s, PumpResumes(id));
  }

  /** Whatever a Bot says, the reader can have all of it with the pump waiting for more. */
  lemma {:induction false} ConversationHappens(stallMs: int, now: int, id: StreamId, sse: bool, said: seq<Bytes>) returns (r: Run)
    requires stallMs > 0
    ensures IsRun(r) && r.states[0] == Init(stallMs, now) && Last(r).now == now
    ensures CaughtUp(Last(r), id, sse, said, now)
    decreases |said|
  {
    if said == [] {
      r := Extended(Run([Init(stallMs, now)], []), WatchStream(id, sse));
    } else {
      var front := said[..|said| - 1];
      var before := ConversationHappens(stallMs, now, id, sse, front);
      r := OneMoreChunk(before, id, sse, front, said[|said| - 1]);
      assert front + [said[|said| - 1]] == said;
    }
  }

  /** And then the Bot's end closes the stream, with nothing in it but what was said. */
  lemma CleanTurnHappens(stallMs: int, now: int, id: StreamId, sse: bool, said: seq<Bytes>) returns (r: Run)
    requires stallMs > 0
    ensures IsRun(r) && r.states[0] == Init(stallMs, now) && id in Last(r).conns && id !in Last(r).watches
    ensures var c := Last(r).conns[id];
            c.sent == said && c.relay == Relay(Chunks(said), [], Closed) && c.pump.Done? && c.reports == []
  {
    r := ConversationHappens(stallMs, now, id, sse, said);
    r := Extended(r, BotEnds(id));
    r := Extended(r, PumpSeesEnd(id));
    r := Extended(r, RelayDrains(id));
  }

  /** Or it falls silent for the limit, and the sweep ends it with its one sentence after what was said. */
  lemma StalledTurnHappens(stallMs: int, now: int, id: StreamId, sse: bool, said: seq<Bytes>) returns (r: Run)
    requires stallMs > 0
    ensures IsRun(r) && r.states[0] == Init(stallMs, now) && id in Last(r).conns && id !in Last(r).watches
    ensures var c := Last(r).conns[id];
            && c.sent == said && c.cancelled
            && c.relay == Relay(Chunks(said), if sse then [RunError] else [], Closing)
            && c.reports == [StalledStream(id, stallMs, |said|)]
  {
    r := ConversationHappens(stallMs, now, id, sse, said);
    r := Extended(r, Tick(stallMs));
    RunInv(r, |r.states| - 1);
    SameKeys(Last(r));
    var w := Last(r);
    assert SilentIn(w, id);
    assert id in SilentAmong(w, w.watches.Keys);
    r := Extended(r, TimerFires);
  }
}

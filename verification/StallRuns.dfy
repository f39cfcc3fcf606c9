/** What holds in every run of the stall guard, whatever the interleaving. */
module StallRuns {
  import opened Prelude
  import opened TurnWatchdogs
  import opened StallProtocol

  datatype Run = Run(states: seq<World>, actions: seq<Action>)

  ghost predicate IsRun(r: Run) {
    && |r.states| == |r.actions| + 1
    && r.states[0] == Init(r.states[0].stallMs, r.states[0].now)
    && forall k :: 0 <= k < |r.actions| ==>
         Enabled(r.states[k], r.actions[k]) && r.states[k + 1] == Step(r.states[k], r.actions[k])
  }

  lemma {:induction false} RunInv(r: Run, k: nat)
    requires IsRun(r) && k < |r.states|
    ensures Inv(r.states[k])
    ensures r.states[k].stallMs == r.states[0].stallMs
  {
    if k == 0 {
      InitInv(r.states[0].stallMs, r.states[0].now);
    } else {
      RunInv(r, k - 1);
      StepInv(r.states[k - 1], r.actions[k - 1]);
    }
  }

  /** At every step boundary the guard and the watchdog hold the same ids, in the same condition. */
  lemma MapsAgree(r: Run, k: nat)
    requires IsRun(r) && k < |r.states|
    ensures r.states[k].streams.Keys == r.states[k].watches.Keys <= r.states[k].conns.Keys
    ensures forall id :: id in r.states[k].watches ==>
              (!r.states[k].watches[id].paused <==> r.states[k].conns[id].pump.Reading?)
  {
    RunInv(r, k);
    SameKeys(r.states[k]);
    forall id | id in r.states[k].watches
      ensures !r.states[k].watches[id].paused <==> r.states[k].conns[id].pump.Reading?
    {
      assert ViewInv(ViewOf(r.states[k], id), r.states[k].stallMs, r.states[k].now);
    }
  }

  ghost predicate StalledAfter(c: Conn, n: nat) {
    c.finishes == [Finish(StallClose, n)] && n <= |c.sent|
  }

  /**
   The reader gets a prefix of the Bot's chunks in order; only a stall adds something, and what it
   adds is one sentence, last, on a stream that can carry one.
   */
  lemma RelayFaithful(r: Run, k: nat, id: StreamId)
    requires IsRun(r) && k < |r.states| && id in r.states[k].conns
    ensures var c := r.states[k].conns[id];
            || c.relay.taken <= Chunks(c.sent)
            || (exists n: nat :: StalledAfter(c, n) && c.sse && c.relay.taken == Chunks(c.sent[..n]) + [RunError])
  {
    var w := r.states[k];
    RunInv(r, k);
    assert ViewInv(ViewOf(w, id), w.stallMs, w.now);
    var c := w.conns[id];
    assert c.relay.taken <= c.relay.Log() <= Intended(c);
    if c.finishes != [] && c.finishes[0].kind.StallClose? {
      var n := c.finishes[0].read;
      assert StalledAfter(c, n);
      assert Chunks(c.sent[..n]) <= Chunks(c.sent);
      if |c.relay.taken| <= n {
        assert c.relay.taken <= Chunks(c.sent);
      } else {
        assert c.relay.taken == Chunks(c.sent[..n]) + [RunError];
      }
    } else {
      assert Chunks(c.sent[..c.read]) <= Chunks(c.sent);
    }
  }

  /** A stream that closed without being broken delivered everything it owed. */
  lemma ClosedDeliversAll(r: Run, k: nat, id: StreamId)
    requires IsRun(r) && k < |r.states| && id in r.states[k].conns
    requires r.states[k].conns[id].relay.state.Closed?
    ensures var c := r.states[k].conns[id];
            || (c.finishes == [Finish(PumpClose, |c.sent|)] && c.end.Ended? && c.relay.taken == Chunks(c.sent))
            || (exists n: nat :: StalledAfter(c, n)
                  && c.relay.taken == Chunks(c.sent[..n]) + if c.sse then [RunError] else [])
  {
    var w := r.states[k];
    RunInv(r, k);
    assert ViewInv(ViewOf(w, id), w.stallMs, w.now);
    var c := w.conns[id];
    assert c.relay.taken == c.relay.Log() == Intended(c);
    if c.finishes[0].kind.StallClose? {
      assert StalledAfter(c, c.finishes[0].read);
    } else {
      assert c.sent[..|c.sent|] == c.sent;
      if c.finishes[0].read != |c.sent| {
        FinishReadsAll(r, k, id);
      }
    }
  }

  /** A clean close is made with every chunk of the Bot's already read. */
  lemma {:induction false} FinishReadsAll(r: Run, k: nat, id: StreamId)
    requires IsRun(r) && k < |r.states| && id in r.states[k].conns
    requires r.states[k].conns[id].finishes != [] && r.states[k].conns[id].finishes[0].kind.PumpClose?
    ensures r.states[k].conns[id].finishes[0].read == |r.states[k].conns[id].sent|
  {
    var w, a := r.states[k - 1], r.actions[k - 1];
    RunInv(r, k - 1);
    assert ViewInv(ViewOf(w, id), w.stallMs, w.now);
    if id in w.conns && w.conns[id].finishes != [] {
      FinishedStays(w, a, id);
      FinishReadsAll(r, k - 1, id);
    } else if Subject(a).Some? && Subject(a).value != id {
      StepFrame(w, a, id);
    }
  }

  /** Of what happens about a finished stream itself, nothing adds an ending, a report or an item. */
  lemma OwnStepStays(w: World, a: Action, id: StreamId)
    requires id in w.conns && ConnInv(w.conns[id], false, w.stallMs) && id !in w.streams
    requires Enabled(w, a) && Subject(a) == Some(id)
    ensures id in Step(w, a).conns
    ensures Step(w, a).conns[id].finishes == w.conns[id].finishes
    ensures Step(w, a).conns[id].reports == w.conns[id].reports
    ensures Step(w, a).conns[id].relay.Log() <= w.conns[id].relay.Log()
    ensures !w.conns[id].end.Talking? ==> Step(w, a).conns[id].sent == w.conns[id].sent
  {
    if a.ConsumerTakes? {
      assert Delivered(w.conns[id].relay).Log() == w.conns[id].relay.Log();
    }
  }

  /** Once finished, a stream keeps its one ending and nothing more is written into it. */
  lemma FinishedStays(w: World, a: Action, id: StreamId)
    requires Inv(w) && Enabled(w, a) && id in w.conns && w.conns[id].finishes != []
    ensures id in Step(w, a).conns
    ensures Step(w, a).conns[id].finishes == w.conns[id].finishes
    ensures Step(w, a).conns[id].reports == w.conns[id].reports
    ensures Step(w, a).conns[id].relay.Log() <= w.conns[id].relay.Log()
    ensures w.conns[id].finishes[0].kind.PumpClose? ==> Step(w, a).conns[id].sent == w.conns[id].sent
  {
    assert ViewInv(ViewOf(w, id), w.stallMs, w.now);
    if Subject(a) == Some(id) {
      OwnStepStays(w, a, id);
    } else {
      assert ViewOf(Step(w, a), id).conn == ViewOf(w, id).conn by {
        if Subject(a).Some? {
          StepFrame(w, a, id);
        }
      }
    }
  }

  /** The stream still has that ending, with at most what was in it then. */
  ghost predicate SettledAs(w: World, id: StreamId, c: Conn) {
    && id in w.conns && w.conns[id].finishes == c.finishes && w.conns[id].reports == c.reports
    && w.conns[id].relay.Log() <= c.relay.Log()
  }

  lemma StaysSettled(w: World, a: Action, id: StreamId, c: Conn)
    requires Inv(w) && Enabled(w, a) && SettledAs(w, id, c) && c.finishes != []
    ensures SettledAs(Step(w, a), id, c)
  {
    FinishedStays(w, a, id);
    PrefixOfPrefix(Step(w, a).conns[id].relay.Log(), w.conns[id].relay.Log(), c.relay.Log());
  }

  lemma PrefixOfPrefix(a: seq<Item>, b: seq<Item>, c: seq<Item>)
    requires a <= b <= c
    ensures a <= c
  {
  }

  lemma {:induction false} SettledFrom(r: Run, j: nat, k: nat, id: StreamId)
    requires IsRun(r) && j <= k < |r.states| && id in r.states[j].conns && r.states[j].conns[id].finishes != []
    ensures SettledAs(r.states[k], id, r.states[j].conns[id])
    decreases k
  {
    if j < k {
      SettledFrom(r, j, k - 1, id);
      RunInv(r, k - 1);
      StaysSettled(r.states[k - 1], r.actions[k - 1], id, r.states[j].conns[id]);
    }
  }

  /** No stall after an ending, no second ending, and nothing from the Bot after either. */
  lemma EndedOnce(r: Run, j: nat, k: nat, id: StreamId)
    requires IsRun(r) && j <= k < |r.states| && id in r.states[j].conns && r.states[j].conns[id].finishes != []
    ensures id in r.states[k].conns && id !in r.states[k].watches
    ensures r.states[k].conns[id].finishes == r.states[j].conns[id].finishes
    ensures |r.states[k].conns[id].finishes| == 1
    ensures r.states[k].conns[id].reports == r.states[j].conns[id].reports
    ensures r.states[k].conns[id].relay.Log() <= r.states[j].conns[id].relay.Log()
  {
    SettledFrom(r, j, k, id);
    RunInv(r, k);
    assert ViewInv(ViewOf(r.states[k], id), r.states[k].stallMs, r.states[k].now);
  }

  /** A pump that has left its loop leaves a stream with exactly one ending, and one that reports a stall only then. */
  lemma FinishedExactlyOnce(r: Run, k: nat, id: StreamId)
    requires IsRun(r) && k < |r.states| && id in r.states[k].conns
    ensures var c := r.states[k].conns[id];
            && (id in r.states[k].streams <==> c.finishes == [])
            && (c.pump.Done? ==> |c.finishes| == 1)
            && |c.finishes| <= 1
            && (c.reports != [] <==> exists n: nat :: StalledAfter(c, n))
            && |c.reports| <= 1
  {
    var w := r.states[k];
    RunInv(r, k);
    assert ViewInv(ViewOf(w, id), w.stallMs, w.now);
    var c := w.conns[id];
    if c.reports != [] {
      assert StalledAfter(c, c.finishes[0].read);
    }
  }

  /** When the timer gives a stream up, every chunk read so far has already been taken. */
  lemma StallEndsAfterWhatWasRead(r: Run, k: nat, id: StreamId)
    requires IsRun(r) && k < |r.actions| && r.actions[k].TimerFires?
    requires id in r.states[k].watches && id !in r.states[k + 1].watches
    ensures id in r.states[k].conns && id in r.states[k + 1].conns
    ensures var c, c' := r.states[k].conns[id], r.states[k + 1].conns[id];
            && c.read <= |c.sent|
            && c'.finishes == [Finish(StallClose, c.read)] && c'.cancelled
            && (c.relay.state.Open? ==>
                  && c.relay.taken == Chunks(c.sent[..c.read])
                  && c'.relay == Relay(c.relay.taken, if c.sse then [RunError] else [], Closing))
            && (!c.relay.state.Open? ==> c'.relay == c.relay)
  {
    var w := r.states[k];
    RunInv(r, k);
    assert ViewInv(ViewOf(w, id), w.stallMs, w.now);
  }

  // ---- what breaks a stream, and what closes it ----

  /** This happened before step `k`. */
  ghost predicate Happened(r: Run, k: nat, a: Action)
    requires k <= |r.actions|
  {
    exists j :: 0 <= j < k && r.actions[j] == a
  }

  lemma HappenedStays(r: Run, k: nat, a: Action)
    requires k < |r.actions| && (Happened(r, k, a) || r.actions[k] == a)
    ensures Happened(r, k + 1, a)
  {
    if r.actions[k] != a {
      var j :| 0 <= j < k && r.actions[j] == a;
    }
  }

  /** One step fails a Bot or breaks a relay only as those who can. */
  lemma StepBreaks(w: World, a: Action, id: StreamId)
    requires Inv(w) && Enabled(w, a) && id in Step(w, a).conns
    ensures Step(w, a).conns[id].end.Failed? ==> a == BotFails(id) || (id in w.conns && w.conns[id].end.Failed?)
    ensures Step(w, a).conns[id].relay.state.Errored? ==>
              || a == ConsumerCancels(id)
              || (id in w.conns && (w.conns[id].end.Failed? || w.conns[id].relay.state.Errored?))
  {
    assert ViewInv(ViewOf(w, id), w.stallMs, w.now);
    if Subject(a).Some? && Subject(a).value != id {
      StepFrame(w, a, id);
      assert ViewOf(Step(w, a), id) == ViewOf(w, id);
    }
  }

  /** A Bot's stream breaks for the reader only when the Bot failed or the reader went away. */
  lemma {:induction false} BreaksForACause(r: Run, k: nat, id: StreamId)
    requires IsRun(r) && k < |r.states| && id in r.states[k].conns
    ensures r.states[k].conns[id].end.Failed? ==> Happened(r, k, BotFails(id))
    ensures r.states[k].conns[id].relay.state.Errored? ==>
              Happened(r, k, BotFails(id)) || Happened(r, k, ConsumerCancels(id))
    decreases k
  {
    if k > 0 {
      var w, a := r.states[k - 1], r.actions[k - 1];
      RunInv(r, k - 1);
      StepBreaks(w, a, id);
      if id in w.conns {
        BreaksForACause(r, k - 1, id);
      }
      if Happened(r, k - 1, BotFails(id)) || a == BotFails(id) {
        HappenedStays(r, k - 1, BotFails(id));
      }
      if Happened(r, k - 1, ConsumerCancels(id)) || a == ConsumerCancels(id) {
        HappenedStays(r, k - 1, ConsumerCancels(id));
      }
    }
  }

  /** When the pump sees the Bot's clean end on a stream nobody has ended or broken, it closes it with everything in it. */
  lemma CleanEndCloses(r: Run, k: nat, id: StreamId)
    requires IsRun(r) && k < |r.actions| && r.actions[k] == PumpSeesEnd(id)
    requires id in r.states[k].watches && r.states[k].conns[id].relay.state.Open?
    ensures id in r.states[k].conns && id in r.states[k + 1].conns && id !in r.states[k + 1].watches
    ensures var c, c' := r.states[k].conns[id], r.states[k + 1].conns[id];
            && c.end.Ended? && c'.sent == c.sent && c'.pump.Done?
            && c'.finishes == [Finish(PumpClose, |c.sent|)]
            && c'.relay.state.Closing? && c'.relay.taken + c'.relay.queued == Chunks(c.sent)
  {
    var w := r.states[k];
    RunInv(r, k);
    assert ViewInv(ViewOf(w, id), w.stallMs, w.now);
    var c := w.conns[id];
    assert c.sent[..|c.sent|] == c.sent;
  }

  /** When it sees a failure, or its handover is refused, it leaves and the reader is told by an abort. */
  lemma FailureAborts(r: Run, k: nat, id: StreamId)
    requires IsRun(r) && k < |r.actions| && id in r.states[k].watches
    requires r.actions[k] == PumpSeesFailure(id) || r.actions[k] == PumpWriteRejected(id)
    ensures id in r.states[k].conns && id in r.states[k + 1].conns && id !in r.states[k + 1].watches
    ensures var c, c' := r.states[k].conns[id], r.states[k + 1].conns[id];
            && c'.pump.Done? && c'.finishes == [Finish(PumpAbort, c.read)]
            && c'.relay == Relay(c.relay.taken, [], Errored)
  {
    var w := r.states[k];
    RunInv(r, k);
    assert ViewInv(ViewOf(w, id), w.stallMs, w.now);
  }

  /**
   Without a failure, a cancel or a stall, a stream whose pump has left and whose reader has kept up has
   delivered every chunk the Bot sent, and is closed but for its last drain.
   */
  lemma CleanRunDeliversAll(r: Run, k: nat, id: StreamId)
    requires IsRun(r) && k < |r.states| && id in r.states[k].conns
    requires !Happened(r, k, BotFails(id)) && !Happened(r, k, ConsumerCancels(id)) && r.states[k].conns[id].reports == []
    requires r.states[k].conns[id].pump.Done?
    ensures var c := r.states[k].conns[id];
            && c.end.Ended? && c.finishes == [Finish(PumpClose, |c.sent|)]
            && (c.relay.state.Closing? || c.relay.state.Closed?)
            && c.relay.taken + c.relay.queued == Chunks(c.sent)
            && (c.relay.queued == [] ==> c.relay.taken == Chunks(c.sent))
  {
    var w := r.states[k];
    RunInv(r, k);
    assert ViewInv(ViewOf(w, id), w.stallMs, w.now);
    BreaksForACause(r, k, id);
    var c := w.conns[id];
    assert c.sent[..|c.sent|] == c.sent;
    FinishReadsAll(r, k, id);
    if c.relay.queued == [] {
      assert c.relay.taken + [] == c.relay.taken;
    }
  }

  // ---- what a stream is, from the run's actions alone ----

  /** What the Bot said on a stream, chunk by chunk. */
  function Said(actions: seq<Action>, id: StreamId): seq<Bytes> {
    if actions == [] then []
    else
      var a := actions[|actions| - 1];
      Said(actions[..|actions| - 1], id) + if a.BotSends? && a.id == id then [a.bytes] else []
  }

  lemma SaidNext(actions: seq<Action>, k: nat, id: StreamId)
    requires k < |actions|
    ensures Said(actions[..k + 1], id) ==
            Said(actions[..k], id) + if actions[k].BotSends? && actions[k].id == id then [actions[k].bytes] else []
  {
    assert actions[..k + 1][..k] == actions[..k];
  }

  lemma StepSends(w: World, a: Action, id: StreamId)
    requires Enabled(w, a) && id in Step(w, a).conns
    ensures id in w.conns ==>
              && Step(w, a).conns[id].sent == w.conns[id].sent + (if a.BotSends? && a.id == id then [a.bytes] else [])
              && Step(w, a).conns[id].sse == w.conns[id].sse
    ensures id !in w.conns ==> a == WatchStream(id, Step(w, a).conns[id].sse) && Step(w, a).conns[id].sent == []
    ensures a.BotSends? && a.id == id ==> id in w.conns
  {
    if Subject(a).Some? && Subject(a).value != id {
      StepFrame(w, a, id);
      assert ViewOf(Step(w, a), id) == ViewOf(w, id);
    }
  }

  /** A stream carries what the Bot said on it since it was opened, as the kind it was opened as. */
  lemma {:induction false} SentIsSaid(r: Run, k: nat, id: StreamId)
    requires IsRun(r) && k < |r.states|
    ensures id in r.states[k].conns ==>
              && r.states[k].conns[id].sent == Said(r.actions[..k], id)
              && Happened(r, k, WatchStream(id, r.states[k].conns[id].sse))
    ensures id !in r.states[k].conns ==> Said(r.actions[..k], id) == []
    decreases k
  {
    if k > 0 {
      SentIsSaid(r, k - 1, id);
      RunInv(r, k - 1);
      SaidNext(r.actions, k - 1, id);
      if id in r.states[k].conns {
        StepSends(r.states[k - 1], r.actions[k - 1], id);
        WatchedStays(r, k, id);
      } else {
        OnlyKnownSend(r.states[k - 1], r.actions[k - 1], id);
      }
    }
  }

  lemma WatchedStays(r: Run, k: nat, id: StreamId)
    requires 0 < k <= |r.actions| && k < |r.states| && id in r.states[k].conns
    requires var a := WatchStream(id, r.states[k].conns[id].sse); Happened(r, k - 1, a) || r.actions[k - 1] == a
    ensures Happened(r, k, WatchStream(id, r.states[k].conns[id].sse))
  {
    HappenedStays(r, k - 1, WatchStream(id, r.states[k].conns[id].sse));
  }

  lemma OnlyKnownSend(w: World, a: Action, id: StreamId)
    requires Enabled(w, a) && id !in Step(w, a).conns
    ensures id !in w.conns && !(a.BotSends? && a.id == id)
  {
  }

  /** A firing of the timer stops it exactly when it leaves nothing watched. */
  lemma IdleTimerStops(r: Run, k: nat)
    requires IsRun(r) && k < |r.actions| && r.actions[k].TimerFires?
    ensures r.states[k + 1].timer.None? <==> r.states[k + 1].watches == map[]
  {
  }

  // ---- no false stall ----

  /** The step at which the pump began the wait it is in, found by walking back through the run. */
  lemma {:induction false} WaitStart(r: Run, k: nat, id: StreamId) returns (j: nat)
    requires IsRun(r) && k < |r.states|
    requires id in r.states[k].watches && !r.states[k].watches[id].paused
    ensures j < k && id in r.states[k].conns
    ensures r.actions[j] == PumpResumes(id) || (r.actions[j].WatchStream? && r.actions[j].id == id)
    ensures r.states[j].now == r.states[k].watches[id].lastChunkAt
    ensures forall i :: j < i <= k ==> Waiting(r.states[i], id, r.states[k].conns[id].read)
    decreases k
  {
    MapsAgree(r, k);
    var w, a := r.states[k - 1], r.actions[k - 1];
    RunInv(r, k - 1);
    MapsAgree(r, k - 1);
    assert ViewInv(ViewOf(w, id), w.stallMs, w.now);
    if a == PumpResumes(id) || (a.WatchStream? && a.id == id) {
      j := k - 1;
    } else {
      StillWaiting(w, a, id);
      j := WaitStart(r, k - 1, id);
    }
  }

  /** The pump is waiting on the Bot, and has read `read` chunks. */
  predicate Waiting(w: World, id: StreamId, read: nat) {
    id in w.conns && w.conns[id].pump.Reading? && w.conns[id].read == read
  }

  lemma StillWaiting(w: World, a: Action, id: StreamId)
    requires Inv(w) && Enabled(w, a)
    requires id in Step(w, a).watches && !Step(w, a).watches[id].paused
    requires a != PumpResumes(id) && !(a.WatchStream? && a.id == id)
    ensures id in w.watches && Step(w, a).watches[id] == w.watches[id]
    ensures id in w.conns && id in Step(w, a).conns
    ensures Step(w, a).conns[id].read == w.conns[id].read
  {
    assert ViewInv(ViewOf(w, id), w.stallMs, w.now);
    if Subject(a).Some? && Subject(a).value != id {
      StepFrame(w, a, id);
      assert ViewOf(Step(w, a), id) == ViewOf(w, id);
    }
  }

  /** The pump has waited on the Bot, uninterrupted and hearing nothing, since step `j`. */
  ghost predicate WaitedSince(r: Run, j: nat, k: nat, id: StreamId)
    requires |r.states| == |r.actions| + 1 && k < |r.states|
  {
    && j < k && id in r.states[k].conns
    && (r.actions[j] == PumpResumes(id) || (r.actions[j].WatchStream? && r.actions[j].id == id))
    && forall i :: j < i <= k ==> Waiting(r.states[i], id, r.states[k].conns[id].read)
  }

  /**
   A stream the timer gives up had its pump waiting on the Bot, without a break, from its opening or
   its last completed handover, for exactly the reported time, which is at least the limit.
   */
  lemma NoFalseStall(r: Run, k: nat, id: StreamId)
    requires IsRun(r) && k < |r.actions| && r.actions[k].TimerFires?
    requires id in r.states[k].watches && id !in r.states[k + 1].watches
    ensures id in r.states[k + 1].conns && |r.states[k + 1].conns[id].reports| == 1
    ensures exists j: nat ::
              && WaitedSince(r, j, k, id)
              && r.states[k + 1].conns[id].reports[0].id == id
              && r.states[k + 1].conns[id].reports[0].chunks == r.states[k].conns[id].read
              && r.states[k + 1].conns[id].reports[0].silentForMs == r.states[k].now - r.states[j].now
              && r.states[k].now - r.states[j].now >= r.states[0].stallMs
  {
    var w := r.states[k];
    RunInv(r, k);
    RunInv(r, k + 1);
    assert ViewInv(ViewOf(w, id), w.stallMs, w.now);
    assert SilentIn(w, id);
    var j := WaitStart(r, k, id);
    assert WaitedSince(r, j, k, id);
  }

  // ---- no missed stall ----

  /** The timer never fires late: the clock does not pass a due sweep. */
  ghost predicate Timely(r: Run) {
    forall k :: 0 <= k < |r.states| && r.states[k].timer.Some? ==>
      r.states[k].now <= r.states[k].timer.value + SweepIntervalFor(r.states[k].stallMs)
  }

  ghost predicate NeverStopped(r: Run) {
    forall k :: 0 <= k < |r.actions| ==> !r.actions[k].StopGuard?
  }

  /** Watched means armed, and whatever is left unpaused by a sweep was not yet silent for the limit. */
  ghost predicate Armed(w: World) {
    && (w.watches != map[] ==> w.timer.Some?)
    && (w.timer.Some? ==> forall id :: id in w.watches && !w.watches[id].paused ==>
          w.timer.value - w.watches[id].lastChunkAt < w.stallMs)
  }

  lemma StepArmed(w: World, a: Action)
    requires Inv(w) && Armed(w) && Enabled(w, a) && !a.StopGuard?
    ensures Armed(Step(w, a))
  {
    var w' := Step(w, a);
    forall id | id in w'.watches && !w'.watches[id].paused && w'.timer.Some?
      ensures w'.timer.value - w'.watches[id].lastChunkAt < w'.stallMs
    {
      assert ViewInv(ViewOf(w, id), w.stallMs, w.now);
      if a != PumpResumes(id) && !(a.WatchStream? && a.id == id) {
        StillWaiting(w, a, id);
      }
    }
    if a.PumpTakesChunk? || a.PumpResumes? || a.PumpSeesEnd? || a.PumpSeesFailure? || a.PumpWriteRejected? {
      assert w'.watches != map[] ==> w.watches != map[];
    }
  }

  lemma {:induction false} RunArmed(r: Run, k: nat)
    requires IsRun(r) && NeverStopped(r) && k < |r.states|
    ensures Armed(r.states[k])
  {
    if k > 0 {
      RunArmed(r, k - 1);
      RunInv(r, k - 1);
      StepArmed(r.states[k - 1], r.actions[k - 1]);
    }
  }

  /**
   Without `stop`, the sweep is armed whenever something is watched, and while sweeps are on time no
   stream's pump has waited on the Bot for the limit plus one sweep: it has been given up by then.
   */
  lemma NoMissedStall(r: Run, k: nat, j: nat, id: StreamId)
    requires IsRun(r) && NeverStopped(r) && Timely(r) && k < |r.states|
    requires WaitedSince(r, j, k, id) && id in r.states[k].watches
    ensures r.states[k].timer.Some?
    ensures r.states[k].now - r.states[j].now < r.states[0].stallMs + SweepIntervalFor(r.states[0].stallMs)
  {
    var w := r.states[k];
    RunInv(r, k);
    RunArmed(r, k);
    assert ViewInv(ViewOf(w, id), w.stallMs, w.now);
    assert Waiting(w, id, w.conns[id].read);
    var j' := WaitStart(r, k, id);
    WaitStartUnique(r, j, j', k, id);
  }

  lemma BeginsToWait(r: Run, j: nat, id: StreamId)
    requires IsRun(r) && j < |r.actions|
    requires r.actions[j] == PumpResumes(id) || (r.actions[j].WatchStream? && r.actions[j].id == id)
    ensures forall n: nat :: !Waiting(r.states[j], id, n)
  {
    assert Enabled(r.states[j], r.actions[j]);
  }

  lemma WaitStartUnique(r: Run, i: nat, j: nat, k: nat, id: StreamId)
    requires IsRun(r) && k < |r.states| && WaitedSince(r, i, k, id) && WaitedSince(r, j, k, id)
    ensures i == j
  {
    if i < j {
      BeginsToWait(r, j, id);
    } else if j < i {
      BeginsToWait(r, i, id);
    }
  }
}

/** The graph of agent-langgraph/src/index.ts: which model turns have their tools run, and what is reported of them. */
module RunTurns {
  import opened RunEvents
  import opened RunCalls

  datatype Route = End | Tools

  predicate CallsTheSurface(calls: seq<Call>, ours: set<string>) {
    exists i :: 0 <= i < |calls| && calls[i].name !in ours
  }

  function RouteOf(calls: seq<Call>, ours: set<string>): Route {
    if |calls| == 0 || CallsTheSurface(calls, ours) then End else Tools
  }

  /** What the tools node keeps of a turn's calls. */
  function Ours(calls: seq<Call>, ours: set<string>): seq<Call> {
    if calls == [] then []
    else (if calls[0].name in ours then [calls[0]] else []) + Ours(calls[1..], ours)
  }

  /** The node is entered only when every call is the deployment's, and then its filter drops nothing. */
  lemma {:induction false} FilterDropsNothing(calls: seq<Call>, ours: set<string>)
    ensures (forall i :: 0 <= i < |calls| ==> calls[i].name in ours) <==> Ours(calls, ours) == calls
    decreases |calls|
  {
    if calls != [] {
      FilterDropsNothing(calls[1..], ours);
      assert forall i | 0 < i < |calls| :: calls[i] == calls[1..][i - 1];
      assert forall i | 0 <= i < |calls[1..]| :: calls[1..][i] == calls[i + 1];
      OursIsShorter(calls[1..], ours);
      if calls[0].name in ours {
        assert Ours(calls, ours)[1..] == Ours(calls[1..], ours);
      }
    }
  }

  lemma {:induction false} OursIsShorter(calls: seq<Call>, ours: set<string>)
    ensures |Ours(calls, ours)| <= |calls|
    decreases |calls|
  {
    if calls != [] {
      OursIsShorter(calls[1..], ours);
    }
  }

  /** One answer of the model: the text it streamed, and its calls. */
  datatype Turn = Turn(texts: seq<string>, calls: seq<Call>)

  function Streams(texts: seq<string>): seq<GraphEvent> {
    if texts == [] then [] else [Stream(texts[0])] + Streams(texts[1..])
  }

  /** What the tools node answers: one message per kept call, in order. */
  function Answers(calls: seq<Call>, callTool: Call -> string): seq<Answer> {
    if calls == [] then [] else [Answer(KeyOf(calls[0]), callTool(calls[0]))] + Answers(calls[1..], callTool)
  }

  function TurnEvents(turn: Turn): seq<GraphEvent> { Streams(turn.texts) + [ModelEnd(turn.calls)] }

  function ToolEvents(turn: Turn, ours: set<string>, callTool: Call -> string): seq<GraphEvent> {
    [ToolsEnd(Answers(Ours(turn.calls, ours), callTool))]
  }

  /** The events of the whole graph, if the model would answer `turns` in order. */
  function GraphRun(turns: seq<Turn>, ours: set<string>, callTool: Call -> string): seq<GraphEvent>
    decreases |turns|
  {
    if turns == [] then []
    else if RouteOf(turns[0].calls, ours).End? then TurnEvents(turns[0])
    else TurnEvents(turns[0]) + ToolEvents(turns[0], ours, callTool) + GraphRun(turns[1..], ours, callTool)
  }

  // ---- which turns have had their tools run ----

  /** The turns whose tools have answered within the first `n` events: they come first, and are all the deployment's. */
  function DoneTurns(turns: seq<Turn>, ours: set<string>, n: nat): (done: nat)
    ensures done <= |turns|
    ensures forall i :: 0 <= i < done ==> RouteOf(turns[i].calls, ours).Tools?
    decreases |turns|
  {
    if turns == [] || RouteOf(turns[0].calls, ours).End? || n < |turns[0].texts| + 2 then 0
    else 1 + DoneTurns(turns[1..], ours, n - |turns[0].texts| - 2)
  }

  /** How many of these turns hold a call of this key. */
  function TurnsAsking(turns: seq<Turn>, k: string): nat {
    if turns == [] then 0 else (if k in Keys(turns[0].calls) then 1 else 0) + TurnsAsking(turns[1..], k)
  }

  lemma {:induction false} StreamsSize(texts: seq<string>)
    ensures |Streams(texts)| == |texts|
    ensures forall i :: 0 <= i < |texts| ==> Streams(texts)[i].Stream?
    decreases |texts|
  {
    if texts != [] {
      StreamsSize(texts[1..]);
    }
  }

  /** What one turn of the deployment's adds to the events. */
  function Round(turn: Turn, ours: set<string>, callTool: Call -> string): seq<GraphEvent> {
    TurnEvents(turn) + ToolEvents(turn, ours, callTool)
  }

  lemma RoundSize(turn: Turn, ours: set<string>, callTool: Call -> string)
    ensures |TurnEvents(turn)| == |turn.texts| + 1 && |Round(turn, ours, callTool)| == |turn.texts| + 2
    ensures forall i :: 0 <= i < |TurnEvents(turn)| ==> !TurnEvents(turn)[i].ToolsEnd?
  {
    StreamsSize(turn.texts);
  }

  // ---- the emitter over one turn ----

  lemma {:induction false} AfterAppend(s: Emitter, a: seq<GraphEvent>, b: seq<GraphEvent>)
    ensures After(s, a + b) == After(After(s, a), b)
    decreases |a|
  {
    if a == [] {
      assert a + b == b;
    } else {
      assert (a + b)[0] == a[0] && (a + b)[1..] == a[1..] + b;
      AfterAppend(OnEvent(s, a[0]), a[1..], b);
    }
  }

  lemma KeysCons(calls: seq<Call>)
    requires calls != []
    ensures Keys(calls) == {KeyOf(calls[0])} + Keys(calls[1..])
  {
    assert forall i | 0 < i < |calls| :: calls[i] == calls[1..][i - 1];
    assert forall i | 0 <= i < |calls[1..]| :: calls[1..][i] == calls[i + 1];
  }

  lemma OnTextQuiet(s: Emitter, text: string, k: string)
    ensures OnText(s, text).pending == s.pending && Results(OnText(s, text).out, k) == Results(s.out, k)
  {
    if text != "" {
      var opening := if s.textOpen then [] else [TextStart(s.index)];
      var content := TextContent(s.index, text);
      CountAppend(s.out, opening + [content], k);
      CountAppend(opening, [content], k);
      CountOne(content, k);
      CountOne(TextStart(s.index), k);
    }
  }

  lemma CloseTextQuiet(s: Emitter, k: string)
    ensures CloseText(s).pending == s.pending && Results(CloseText(s).out, k) == Results(s.out, k)
  {
    CountAppend(s.out, [TextEnd(s.index)], k);
    CountOne(TextEnd(s.index), k);
  }

  lemma {:induction false} RememberWaits(s: Emitter, calls: seq<Call>)
    requires OneEach(s.pending)
    ensures OneEach(Remember(s, calls).pending) && Remember(s, calls).out == s.out
    ensures Waiting(Remember(s, calls).pending) == Waiting(s.pending) + Keys(calls)
    decreases |calls|
  {
    if calls != [] {
      PutWaits(s.pending, KeyOf(calls[0]), calls[0]);
      RememberWaits(s.(pending := Put(s.pending, KeyOf(calls[0]), calls[0])), calls[1..]);
      KeysCons(calls);
    }
  }

  /** Until a turn's tools answer, no result is sent. */
  lemma {:induction false} NoResultYet(s: Emitter, events: seq<GraphEvent>, k: string)
    requires forall i :: 0 <= i < |events| ==> !events[i].ToolsEnd?
    ensures Results(After(s, events).out, k) == Results(s.out, k)
    decreases |events|
  {
    if events != [] {
      match events[0] {
        case Stream(text) => OnTextQuiet(s, text, k);
        case ModelEnd(calls) => RememberKeeps(s, calls);
        case Other =>
      }
      NoResultYet(OnEvent(s, events[0]), events[1..], k);
    }
  }

  lemma {:induction false} StreamsQuiet(s: Emitter, texts: seq<string>)
    ensures After(s, Streams(texts)).pending == s.pending
    decreases |texts|
  {
    if texts != [] {
      assert Streams(texts)[1..] == Streams(texts[1..]);
      OnTextQuiet(s, texts[0], "");
      StreamsQuiet(OnText(s, texts[0]), texts[1..]);
    }
  }

  /** After the model's answer the calls wait as they were remembered. */
  lemma TurnRemembers(s: Emitter, turn: Turn)
    ensures var mid := After(s, Streams(turn.texts));
            mid.pending == s.pending && After(s, TurnEvents(turn)) == Remember(mid, turn.calls)
  {
    AfterAppend(s, Streams(turn.texts), [ModelEnd(turn.calls)]);
    StreamsQuiet(s, turn.texts);
    assert [ModelEnd(turn.calls)][1..] == [];
  }

  /** One answer: it is reported if its key waits, and then the key waits no more. */
  lemma OneDrains(s: Emitter, a: Answer, k: string)
    requires OneEach(s.pending)
    ensures var s' := ReportOne(s, a);
            && OneEach(s'.pending) && Waiting(s'.pending) == Waiting(s.pending) - {a.callId}
            && Results(s'.out, k) == Results(s.out, k) + (if k == a.callId && k in Waiting(s.pending) then 1 else 0)
            && |s'.out| == |s.out| + if a.callId in Waiting(s.pending) then 4 else 0
  {
    FindWaits(s.pending, a.callId);
    var found := Find(s.pending, a.callId);
    if found.Some? {
      DropLeaves(s.pending, a.callId);
      var result := ToolResult(a.callId, a.content);
      CountAppend(s.out, Announce(a.callId, found.value) + [result], k);
      CountAppend(Announce(a.callId, found.value), [result], k);
      CountAnnounce(a.callId, found.value, k);
      CountOne(result, k);
    }
  }

  lemma DropLeaves(p: Pending, k: string)
    requires OneEach(p) && k in Waiting(p)
    ensures OneEach(Drop(p, k)) && Waiting(Drop(p, k)) == Waiting(p) - {k}
  {
    var i := DropIs(p, k);
    var d := p[..i] + p[i + 1..];
    WithoutWaits(p, i);
    assert forall j | 0 <= j < |d| :: d[j] == p[if j < i then j else j + 1];
  }

  /** The messages of the tools node empty the map of their keys, with one result for each key that waited. */
  lemma {:induction false} AllDrain(s: Emitter, calls: seq<Call>, callTool: Call -> string, k: string)
    requires OneEach(s.pending)
    ensures var s' := ReportAll(s, Answers(calls, callTool));
            && Waiting(s'.pending) == Waiting(s.pending) - Keys(calls)
            && Results(s'.out, k) == Results(s.out, k) + (if k in Keys(calls) && k in Waiting(s.pending) then 1 else 0)
            && |s'.out| == |s.out| + 4 * |Waiting(s.pending) * Keys(calls)|
    decreases |calls|
  {
    if calls == [] {
      NoKeys(Waiting(s.pending));
    } else {
      var a := Answer(KeyOf(calls[0]), callTool(calls[0]));
      assert Answers(calls, callTool)[1..] == Answers(calls[1..], callTool);
      OneDrains(s, a, k);
      AllDrain(ReportOne(s, a), calls[1..], callTool, k);
      KeysCons(calls);
      OneKeyLess(Waiting(s.pending), Keys(calls[1..]), KeyOf(calls[0]));
    }
  }

  lemma NoKeys(waiting: set<string>)
    ensures Keys([]) == {} && waiting - Keys([]) == waiting && waiting * Keys([]) == {}
  {
  }

  lemma OneKeyLess(waiting: set<string>, rest: set<string>, k: string)
    ensures |waiting * ({k} + rest)| == |(waiting - {k}) * rest| + if k in waiting then 1 else 0
    ensures waiting - ({k} + rest) == (waiting - {k}) - rest
  {
    var all, left := waiting * ({k} + rest), (waiting - {k}) * rest;
    if k in waiting {
      assert all == left + {k};
    } else {
      assert all == left;
    }
  }

  lemma NothingWaits(p: Pending)
    ensures Waiting(p) == {} ==> p == []
  {
    if p != [] {
      assert p[0].0 in Waiting(p);
    }
  }

  /** A turn of the deployment's leaves nothing waiting, and sends one result for each of its keys. */
  lemma RoundDrains(s: Emitter, turn: Turn, ours: set<string>, callTool: Call -> string, k: string)
    requires s.pending == [] && RouteOf(turn.calls, ours).Tools?
    ensures var s' := After(s, Round(turn, ours, callTool));
            && s'.pending == [] && Results(s'.out, k) == Results(s.out, k) + (if k in Keys(turn.calls) then 1 else 0)
            && s' == ReportAll(CloseText(After(s, TurnEvents(turn))), Answers(turn.calls, callTool))
            && |s'.out| == |CloseText(After(s, TurnEvents(turn))).out| + 4 * |Keys(turn.calls)|
  {
    RoundSize(turn, ours, callTool);
    TurnRemembers(s, turn);
    NoResultYet(s, TurnEvents(turn), k);
    assert Waiting([]) == {};
    RememberWaits(After(s, Streams(turn.texts)), turn.calls);
    var mid := After(s, TurnEvents(turn));
    CloseTextQuiet(mid, k);
    FilterDropsNothing(turn.calls, ours);
    AfterAppend(s, TurnEvents(turn), ToolEvents(turn, ours, callTool));
    assert ToolEvents(turn, ours, callTool)[1..] == [];
    AllDrain(CloseText(mid), turn.calls, callTool, k);
    assert Waiting(mid.pending) * Keys(turn.calls) == Keys(turn.calls);
    NothingWaits(ReportAll(CloseText(mid), Answers(turn.calls, callTool)).pending);
  }

  // ---- the results of a run, cut anywhere ----

  lemma {:induction false} CutResults(s: Emitter, turns: seq<Turn>, ours: set<string>, callTool: Call -> string, n: nat, k: string)
    requires s.pending == [] && n <= |GraphRun(turns, ours, callTool)|
    ensures Results(After(s, GraphRun(turns, ours, callTool)[..n]).out, k)
         == Results(s.out, k) + TurnsAsking(turns[..DoneTurns(turns, ours, n)], k)
    decreases |turns|
  {
    if turns != [] {
      RoundSize(turns[0], ours, callTool);
      if RouteOf(turns[0].calls, ours).End? || n < |turns[0].texts| + 2 {
        CutInTurn(s, turns, ours, callTool, n, k);
      } else {
        var s', m := After(s, Round(turns[0], ours, callTool)), n - |turns[0].texts| - 2;
        RoundDrains(s, turns[0], ours, callTool, k);
        CutPastRound(s, turns, ours, callTool, n);
        CutResults(s', turns[1..], ours, callTool, m, k);
        AskingCons(turns, DoneTurns(turns[1..], ours, m), k);
      }
    }
  }

  lemma CutPastRound(s: Emitter, turns: seq<Turn>, ours: set<string>, callTool: Call -> string, n: nat)
    requires turns != [] && RouteOf(turns[0].calls, ours).Tools?
    requires |turns[0].texts| + 2 <= n <= |GraphRun(turns, ours, callTool)|
    ensures var m := n - |turns[0].texts| - 2;
            && m <= |GraphRun(turns[1..], ours, callTool)|
            && After(s, GraphRun(turns, ours, callTool)[..n]) ==
               After(After(s, Round(turns[0], ours, callTool)), GraphRun(turns[1..], ours, callTool)[..m])
  {
    var first, rest := Round(turns[0], ours, callTool), GraphRun(turns[1..], ours, callTool);
    RoundSize(turns[0], ours, callTool);
    CutAfter(first, rest, n);
    AfterAppend(s, first, rest[..n - |first|]);
  }

  lemma AskingCons(turns: seq<Turn>, done: nat, k: string)
    requires turns != [] && done < |turns|
    ensures TurnsAsking(turns[..done + 1], k) ==
            (if k in Keys(turns[0].calls) then 1 else 0) + TurnsAsking(turns[1..][..done], k)
  {
    assert turns[..done + 1][0] == turns[0] && turns[..done + 1][1..] == turns[1..][..done];
  }

  /** A cut before the first turn's tools have answered. */
  lemma CutInTurn(s: Emitter, turns: seq<Turn>, ours: set<string>, callTool: Call -> string, n: nat, k: string)
    requires turns != [] && n <= |GraphRun(turns, ours, callTool)|
    requires RouteOf(turns[0].calls, ours).End? || n < |turns[0].texts| + 2
    ensures Results(After(s, GraphRun(turns, ours, callTool)[..n]).out, k) == Results(s.out, k)
  {
    var all, turn := GraphRun(turns, ours, callTool), TurnEvents(turns[0]);
    RoundSize(turns[0], ours, callTool);
    assert forall i | 0 <= i < n :: all[..n][i] == turn[i];
    NoResultYet(s, all[..n], k);
  }

  lemma CutAfter(first: seq<GraphEvent>, rest: seq<GraphEvent>, n: nat)
    requires |first| <= n <= |first| + |rest|
    ensures (first + rest)[..n] == first + rest[..n - |first|]
  {
  }

  lemma {:induction false} AnnounceRestQuiet(s: Emitter, k: string)
    ensures Results(AnnounceRest(s).out, k) == Results(s.out, k)
    decreases |s.pending|
  {
    if s.pending != [] {
      var (key, call) := s.pending[0];
      CountAppend(s.out, Announce(key, call), k);
      CountAnnounce(key, call, k);
      AnnounceRestQuiet(Send(s, Announce(key, call)).(pending := s.pending[1..]), k);
    }
  }

  lemma EndQuiet(events: seq<GraphEvent>, failed: bool, k: string)
    ensures Results(Emitted(events, failed), k) == Results(After(START, events).out, k)
  {
    var closed := CloseText(After(START, events));
    CloseTextQuiet(After(START, events), k);
    if failed {
      SendsNoResult(closed.out, RunError, k);
      FailIs(After(START, events));
    } else {
      AnnounceRestQuiet(closed, k);
      SendsNoResult(AnnounceRest(closed).out, RunFinished, k);
    }
  }

  lemma SendsNoResult(out: seq<Out>, o: Out, k: string)
    requires !o.ToolResult?
    ensures Results(out + [o], k) == Results(out, k)
  {
    CountAppend(out, [o], k);
    CountOne(o, k);
  }

  /**
   No turn is half run, whatever the ids of its calls and wherever the run is cut: the results sent
   under a key are one for each turn that holds it and whose tools have run, so a turn's keys have a
   result each from it or none has.
   */
  lemma NoTurnHalfRun(turns: seq<Turn>, ours: set<string>, callTool: Call -> string, n: nat, failed: bool, k: string)
    requires n <= |GraphRun(turns, ours, callTool)|
    ensures Results(Emitted(GraphRun(turns, ours, callTool)[..n], failed), k)
         == TurnsAsking(turns[..DoneTurns(turns, ours, n)], k)
  {
    CountOne(RunStarted, k);
    CutResults(START, turns, ours, callTool, n, k);
    EndQuiet(GraphRun(turns, ours, callTool)[..n], failed, k);
  }

  // ---- which turns those are ----

  /** The deployment's turn: it calls something, and nothing but what the deployment offers. */
  predicate OurTurn(turn: Turn, ours: set<string>) {
    turn.calls != [] && forall i :: 0 <= i < |turn.calls| ==> turn.calls[i].name in ours
  }

  /** The tools node is entered exactly after such a turn. */
  lemma ToolsExactlyWhen(turn: Turn, ours: set<string>)
    ensures RouteOf(turn.calls, ours).Tools? <==> OurTurn(turn, ours)
    ensures OurTurn(turn, ours) <==>
              |turn.calls| > 0 && forall call :: call in turn.calls ==> call.name in ours
  {
  }

  /** How many turns go by before the first that is not the deployment's. */
  function Leading(turns: seq<Turn>, ours: set<string>): (n: nat)
    ensures n <= |turns| && (forall i :: 0 <= i < n ==> OurTurn(turns[i], ours))
    ensures n < |turns| ==> !OurTurn(turns[n], ours)
  {
    if turns == [] || !OurTurn(turns[0], ours) then 0 else 1 + Leading(turns[1..], ours)
  }

  /** In a whole run, the turns whose tools answer are exactly all those before the first that is not the deployment's. */
  lemma {:induction false} AllDone(turns: seq<Turn>, ours: set<string>, callTool: Call -> string)
    ensures DoneTurns(turns, ours, |GraphRun(turns, ours, callTool)|) == Leading(turns, ours)
    decreases |turns|
  {
    if turns != [] {
      ToolsExactlyWhen(turns[0], ours);
      if OurTurn(turns[0], ours) {
        RoundSize(turns[0], ours, callTool);
        AllDone(turns[1..], ours, callTool);
      }
    }
  }

  lemma {:induction false} AskingExactlyWhen(turns: seq<Turn>, k: string)
    ensures TurnsAsking(turns, k) > 0 <==> exists i :: 0 <= i < |turns| && k in Keys(turns[i].calls)
    decreases |turns|
  {
    if turns != [] {
      AskingExactlyWhen(turns[1..], k);
      assert forall i | 0 < i < |turns| :: turns[i] == turns[1..][i - 1];
      if TurnsAsking(turns[1..], k) > 0 {
        var i :| 0 <= i < |turns[1..]| && k in Keys(turns[1..][i].calls);
        assert turns[i + 1] == turns[1..][i];
      }
    }
  }

  /**
   A whole run sends a result under a key exactly when some turn holds the key, and it and every turn
   before it is the deployment's.
   */
  lemma ResultExactlyWhen(turns: seq<Turn>, ours: set<string>, callTool: Call -> string, failed: bool, k: string)
    ensures Results(Emitted(GraphRun(turns, ours, callTool), failed), k) > 0 <==>
            exists i :: 0 <= i < |turns| && k in Keys(turns[i].calls) && forall j :: 0 <= j <= i ==> OurTurn(turns[j], ours)
  {
    var all, n := GraphRun(turns, ours, callTool), Leading(turns, ours);
    assert all[..|all|] == all;
    NoTurnHalfRun(turns, ours, callTool, |all|, failed, k);
    AllDone(turns, ours, callTool);
    AskingExactlyWhen(turns[..n], k);
    if i :| 0 <= i < |turns| && k in Keys(turns[i].calls) && forall j :: 0 <= j <= i ==> OurTurn(turns[j], ours) {
      assert i < n;
      assert turns[..n][i] == turns[i];
    }
    if i :| 0 <= i < n && k in Keys(turns[..n][i].calls) {
      assert turns[..n][i] == turns[i];
    }
  }

  // ---- what a whole run says and asks for ----

  /** The turns the graph gets to: the leading ones of the deployment's, and the one that ends the run. */
  function ReachedTurns(turns: seq<Turn>, ours: set<string>): seq<Turn> {
    var n := Leading(turns, ours);
    if n < |turns| then turns[..n + 1] else turns
  }

  function Text(turns: seq<Turn>): string {
    if turns == [] then "" else TextIn(turns[0].texts) + Text(turns[1..])
  }

  function TextIn(texts: seq<string>): string {
    if texts == [] then "" else texts[0] + TextIn(texts[1..])
  }

  function CallsIn(turns: seq<Turn>): seq<Call> {
    if turns == [] then [] else turns[0].calls + CallsIn(turns[1..])
  }

  lemma {:induction false} SpokenAppend(a: seq<GraphEvent>, b: seq<GraphEvent>)
    ensures Spoken(a + b) == Spoken(a) + Spoken(b) && CallsOf(a + b) == CallsOf(a) + CallsOf(b)
    decreases |a|
  {
    if a == [] {
      assert a + b == b;
    } else {
      assert (a + b)[0] == a[0] && (a + b)[1..] == a[1..] + b;
      SpokenAppend(a[1..], b);
    }
  }

  lemma {:induction false} StreamsSpeak(texts: seq<string>)
    ensures Spoken(Streams(texts)) == TextIn(texts) && CallsOf(Streams(texts)) == []
    decreases |texts|
  {
    if texts != [] {
      assert Streams(texts)[1..] == Streams(texts[1..]);
      StreamsSpeak(texts[1..]);
    }
  }

  lemma TurnSpeaks(turn: Turn)
    ensures Spoken(TurnEvents(turn)) == TextIn(turn.texts) && CallsOf(TurnEvents(turn)) == turn.calls
  {
    StreamsSpeak(turn.texts);
    SpokenAppend(Streams(turn.texts), [ModelEnd(turn.calls)]);
    assert [ModelEnd(turn.calls)][1..] == [];
    assert TextIn(turn.texts) + "" == TextIn(turn.texts) && turn.calls + [] == turn.calls && [] + turn.calls == turn.calls;
  }

  lemma RoundSpeaks(turn: Turn, ours: set<string>, callTool: Call -> string)
    ensures Spoken(Round(turn, ours, callTool)) == TextIn(turn.texts) && CallsOf(Round(turn, ours, callTool)) == turn.calls
  {
    TurnSpeaks(turn);
    SpokenAppend(TurnEvents(turn), ToolEvents(turn, ours, callTool));
    assert ToolEvents(turn, ours, callTool)[1..] == [];
    assert TextIn(turn.texts) + "" == TextIn(turn.texts) && turn.calls + [] == turn.calls;
  }

  lemma ReachedCons(turns: seq<Turn>, ours: set<string>)
    requires turns != []
    ensures ReachedTurns(turns, ours) ==
            if OurTurn(turns[0], ours) then [turns[0]] + ReachedTurns(turns[1..], ours) else [turns[0]]
  {
    assert turns == [turns[0]] + turns[1..];
  }

  lemma TextCons(turn: Turn, rest: seq<Turn>)
    ensures Text([turn] + rest) == TextIn(turn.texts) + Text(rest)
    ensures CallsIn([turn] + rest) == turn.calls + CallsIn(rest)
  {
    assert ([turn] + rest)[1..] == rest;
  }

  lemma TextOfOne(turn: Turn)
    ensures Text([turn]) == TextIn(turn.texts) && CallsIn([turn]) == turn.calls
  {
    assert [turn][1..] == [];
    assert TextIn(turn.texts) + "" == TextIn(turn.texts) && turn.calls + [] == turn.calls;
  }

  lemma {:induction false} GraphSpeaks(turns: seq<Turn>, ours: set<string>, callTool: Call -> string)
    ensures Spoken(GraphRun(turns, ours, callTool)) == Text(ReachedTurns(turns, ours))
    ensures CallsOf(GraphRun(turns, ours, callTool)) == CallsIn(ReachedTurns(turns, ours))
    decreases |turns|
  {
    if turns != [] {
      ToolsExactlyWhen(turns[0], ours);
      ReachedCons(turns, ours);
      if OurTurn(turns[0], ours) {
        TextCons(turns[0], ReachedTurns(turns[1..], ours));
        RoundSpeaks(turns[0], ours, callTool);
        GraphSpeaks(turns[1..], ours, callTool);
        SpokenAppend(Round(turns[0], ours, callTool), GraphRun(turns[1..], ours, callTool));
      } else {
        TurnSpeaks(turns[0]);
        TextOfOne(turns[0]);
      }
    }
  }

  /** A whole run sends the text of every turn it gets to, the one that ends it included, and asks for their calls. */
  lemma WholeRunSays(turns: seq<Turn>, ours: set<string>, callTool: Call -> string)
    ensures Texts(Emitted(GraphRun(turns, ours, callTool), false)) == Text(ReachedTurns(turns, ours))
    ensures CallsOf(GraphRun(turns, ours, callTool)) == CallsIn(ReachedTurns(turns, ours))
  {
    NoWordLost(GraphRun(turns, ours, callTool), false);
    GraphSpeaks(turns, ours, callTool);
  }

  /** The announcements of calls this process did not run, in the order the model made them. */
  function Announced(calls: seq<Call>): seq<Out> {
    if calls == [] then [] else Announce(KeyOf(calls[0]), calls[0]) + Announced(calls[1..])
  }

  lemma {:induction false} RestInOrder(s: Emitter, calls: seq<Call>)
    requires s.pending == Listed(calls)
    ensures AnnounceRest(s).out == s.out + Announced(calls)
    decreases |calls|
  {
    if calls == [] {
      assert s.out + [] == s.out;
    } else {
      var one := Announce(KeyOf(calls[0]), calls[0]);
      assert s.pending[0] == (KeyOf(calls[0]), calls[0]) && s.pending[1..] == Listed(calls[1..]);
      RestInOrder(Send(s, one).(pending := s.pending[1..]), calls[1..]);
      JoinedOut(s.out, one, Announced(calls[1..]));
    }
  }

  /**
   A turn that ends the run with calls of distinct keys has them announced last, in the model's order
   and without results, for the surface to run.
   */
  lemma SurfaceCallsInOrder(turns: seq<Turn>, ours: set<string>, callTool: Call -> string)
    requires Leading(turns, ours) < |turns| && DistinctKeys(turns[Leading(turns, ours)].calls)
    ensures var n := Leading(turns, ours);
            Emitted(GraphRun(turns, ours, callTool), false) ==
            BeforeRound(turns, ours, callTool, n) + Announced(turns[n].calls) + [RunFinished]
  {
    var n := Leading(turns, ours);
    var s := After(START, GraphRun(turns[..n], ours, callTool));
    forall i | 0 <= i < n
      ensures RouteOf(turns[..n][i].calls, ours).Tools?
    {
      ToolsExactlyWhen(turns[i], ours);
    }
    RoundsDrain(START, turns[..n], ours, callTool);
    TurnRemembers(s, turns[n]);
    assert [] + turns[n].calls == turns[n].calls;
    RememberAll(After(s, Streams(turns[n].texts)), [], turns[n].calls);
    EndsWith(turns, ours, callTool, n);
    AfterAppend(START, GraphRun(turns[..n], ours, callTool), TurnEvents(turns[n]));
    RestInOrder(CloseText(After(s, TurnEvents(turns[n]))), turns[n].calls);
  }

  /** A run ends with the first turn that is not the deployment's. */
  lemma {:induction false} EndsWith(turns: seq<Turn>, ours: set<string>, callTool: Call -> string, n: nat)
    requires n < |turns| && n == Leading(turns, ours)
    ensures GraphRun(turns, ours, callTool) == GraphRun(turns[..n], ours, callTool) + TurnEvents(turns[n])
    decreases |turns|
  {
    ToolsExactlyWhen(turns[0], ours);
    if n == 0 {
      assert turns[..0] == [] && [] + TurnEvents(turns[0]) == TurnEvents(turns[0]);
    } else {
      EndsWith(turns[1..], ours, callTool, n - 1);
      assert turns[..n][0] == turns[0] && turns[..n][1..] == turns[1..][..n - 1];
      JoinedEvents(Round(turns[0], ours, callTool), GraphRun(turns[1..][..n - 1], ours, callTool), TurnEvents(turns[n]));
    }
  }

  // ---- each call's own result ----

  /** Every call reported with its own arguments and its own result, in order. */
  function OwnResults(calls: seq<Call>, callTool: Call -> string): (out: seq<Out>)
    ensures |out| == 4 * |calls|
  {
    if calls == [] then []
    else Announce(KeyOf(calls[0]), calls[0]) + [ToolResult(KeyOf(calls[0]), callTool(calls[0]))] + OwnResults(calls[1..], callTool)
  }

  /** The pending map holding exactly these calls. */
  function Listed(calls: seq<Call>): Pending {
    if calls == [] then [] else [(KeyOf(calls[0]), calls[0])] + Listed(calls[1..])
  }

  lemma {:induction false} ListedSnoc(calls: seq<Call>, call: Call)
    ensures Listed(calls + [call]) == Listed(calls) + [(KeyOf(call), call)]
    ensures Waiting(Listed(calls)) == Keys(calls)
    decreases |calls|
  {
    if calls == [] {
      assert calls + [call] == [call] && [call][1..] == [];
    } else {
      assert (calls + [call])[0] == calls[0] && (calls + [call])[1..] == calls[1..] + [call];
      ListedSnoc(calls[1..], call);
      WaitingCons(Listed(calls));
      KeysCons(calls);
    }
  }

  lemma FreshKey(calls: seq<Call>, call: Call, rest: seq<Call>)
    requires DistinctKeys(calls + ([call] + rest))
    ensures KeyOf(call) !in Keys(calls)
  {
    var all := calls + ([call] + rest);
    assert all[|calls|] == call;
    assert forall i | 0 <= i < |calls| :: all[i] == calls[i];
  }

  lemma {:induction false} RememberAll(s: Emitter, done: seq<Call>, calls: seq<Call>)
    requires s.pending == Listed(done) && DistinctKeys(done + calls)
    ensures Remember(s, calls) == s.(pending := Listed(done + calls))
    decreases |calls|
  {
    if calls == [] {
      assert done + calls == done;
    } else {
      assert calls == [calls[0]] + calls[1..];
      FreshKey(done, calls[0], calls[1..]);
      ListedSnoc(done, calls[0]);
      var i := PutIs(s.pending, KeyOf(calls[0]), calls[0]);
      JoinedCalls(done, [calls[0]], calls[1..]);
      RememberAll(s.(pending := Listed(done + [calls[0]])), done + [calls[0]], calls[1..]);
    }
  }

  /** With distinct keys the tools node's messages answer the waiting calls one by one. */
  lemma {:induction false} ReportOwn(s: Emitter, calls: seq<Call>, callTool: Call -> string)
    requires s.pending == Listed(calls)
    ensures ReportAll(s, Answers(calls, callTool)).out == s.out + OwnResults(calls, callTool)
    decreases |calls|
  {
    if calls == [] {
      assert s.out + [] == s.out;
    } else {
      var own := Announce(KeyOf(calls[0]), calls[0]) + [ToolResult(KeyOf(calls[0]), callTool(calls[0]))];
      assert Answers(calls, callTool)[1..] == Answers(calls[1..], callTool);
      var s' := Send(s, own).(pending := Listed(calls[1..]));
      FirstIsOwn(s, calls, callTool(calls[0]));
      ReportOwn(s', calls[1..], callTool);
      JoinedOut(s.out, own, OwnResults(calls[1..], callTool));
    }
  }

  lemma FirstIsOwn(s: Emitter, calls: seq<Call>, content: string)
    requires calls != [] && s.pending == Listed(calls)
    ensures var k := KeyOf(calls[0]);
            ReportOne(s, Answer(k, content)) ==
            Send(s, Announce(k, calls[0]) + [ToolResult(k, content)]).(pending := Listed(calls[1..]))
  {
    assert s.pending[0] == (KeyOf(calls[0]), calls[0]) && s.pending[1..] == Listed(calls[1..]);
  }

  lemma JoinedOut(a: seq<Out>, b: seq<Out>, c: seq<Out>)
    ensures (a + b) + c == a + (b + c)
  {
  }

  /** There are as many keys as calls exactly when the keys are distinct. */
  lemma {:induction false} KeysSize(calls: seq<Call>)
    ensures |Keys(calls)| <= |calls|
    ensures |Keys(calls)| == |calls| <==> DistinctKeys(calls)
    decreases |calls|
  {
    if calls == [] {
      assert Keys(calls) == {};
    } else {
      KeysCons(calls);
      KeysSize(calls[1..]);
      DistinctCons(calls);
      if KeyOf(calls[0]) in Keys(calls[1..]) {
        assert Keys(calls) == Keys(calls[1..]);
      }
    }
  }

  lemma DistinctCons(calls: seq<Call>)
    requires calls != []
    ensures DistinctKeys(calls) <==> DistinctKeys(calls[1..]) && KeyOf(calls[0]) !in Keys(calls[1..])
  {
    assert forall i | 0 <= i < |calls[1..]| :: calls[1..][i] == calls[i + 1];
    assert forall i | 0 < i < |calls| :: calls[i] == calls[1..][i - 1];
  }

  /** What a turn's tools send is every call's own result exactly when no two of its calls share a key. */
  lemma RoundOwnsExactlyWhen(s: Emitter, turn: Turn, ours: set<string>, callTool: Call -> string)
    requires s.pending == [] && RouteOf(turn.calls, ours).Tools?
    ensures After(s, Round(turn, ours, callTool)).out
         == CloseText(After(s, TurnEvents(turn))).out + OwnResults(turn.calls, callTool)
       <==> DistinctKeys(turn.calls)
  {
    RoundDrains(s, turn, ours, callTool, "");
    KeysSize(turn.calls);
    if DistinctKeys(turn.calls) {
      TurnRemembers(s, turn);
      assert [] + turn.calls == turn.calls;
      RememberAll(After(s, Streams(turn.texts)), [], turn.calls);
      ReportOwn(CloseText(After(s, TurnEvents(turn))), turn.calls, callTool);
    }
  }

  // ---- and that in a whole run ----

  lemma {:induction false} AfterGrows(s: Emitter, events: seq<GraphEvent>)
    ensures s.out <= After(s, events).out
    decreases |events|
  {
    if events != [] {
      match events[0] {
        case Stream(_) =>
        case ModelEnd(calls) => RememberKeeps(s, calls);
        case ToolsEnd(results) => ReportAllGrows(CloseText(s), results);
        case Other =>
      }
      AfterGrows(OnEvent(s, events[0]), events[1..]);
      PrefixOfPrefix(s.out, OnEvent(s, events[0]).out, After(s, events).out);
    }
  }

  lemma PrefixOfPrefix(a: seq<Out>, b: seq<Out>, c: seq<Out>)
    requires a <= b <= c
    ensures a <= c
  {
  }

  lemma {:induction false} ReportAllGrows(s: Emitter, results: seq<Answer>)
    ensures s.out <= ReportAll(s, results).out
    decreases |results|
  {
    if results != [] {
      ReportAllGrows(ReportOne(s, results[0]), results[1..]);
      PrefixOfPrefix(s.out, ReportOne(s, results[0]).out, ReportAll(s, results).out);
    }
  }

  lemma {:induction false} AnnounceRestGrows(s: Emitter)
    ensures s.out <= AnnounceRest(s).out
    decreases |s.pending|
  {
    if s.pending != [] {
      var sent := Send(s, Announce(s.pending[0].0, s.pending[0].1)).(pending := s.pending[1..]);
      AnnounceRestGrows(sent);
      PrefixOfPrefix(s.out, sent.out, AnnounceRest(s).out);
    }
  }

  lemma EndGrows(events: seq<GraphEvent>, failed: bool)
    ensures After(START, events).out <= Emitted(events, failed)
  {
    var s := After(START, events);
    AnnounceRestGrows(CloseText(s));
    PrefixOfPrefix(s.out, CloseText(s).out, AnnounceRest(CloseText(s)).out);
    PrefixOfPrefix(s.out, AnnounceRest(CloseText(s)).out, Finish(s).out);
  }

  /** The first `i` turns whose tools have run are a run of their own, of which the events are a continuation. */
  lemma {:induction false} DoneIsPrefix(turns: seq<Turn>, ours: set<string>, callTool: Call -> string, n: nat, i: nat)
    requires n <= |GraphRun(turns, ours, callTool)| && i <= DoneTurns(turns, ours, n)
    ensures GraphRun(turns[..i], ours, callTool) <= GraphRun(turns, ours, callTool)[..n]
    decreases |turns|
  {
    if i > 0 {
      var first, rest := Round(turns[0], ours, callTool), GraphRun(turns[1..], ours, callTool);
      RoundSize(turns[0], ours, callTool);
      DoneIsPrefix(turns[1..], ours, callTool, n - |first|, i - 1);
      assert turns[..i][0] == turns[0] && turns[..i][1..] == turns[1..][..i - 1];
      CutAfter(first, rest, n);
      PrefixUnder(first, GraphRun(turns[1..][..i - 1], ours, callTool), rest[..n - |first|]);
    }
  }

  lemma PrefixUnder(first: seq<GraphEvent>, a: seq<GraphEvent>, b: seq<GraphEvent>)
    requires a <= b
    ensures first + a <= first + b
  {
    assert b == a + b[|a|..];
    assert first + b == (first + a) + b[|a|..];
  }

  lemma {:induction false} RoundSnoc(turns: seq<Turn>, turn: Turn, ours: set<string>, callTool: Call -> string)
    requires RouteOf(turn.calls, ours).Tools? && forall i :: 0 <= i < |turns| ==> RouteOf(turns[i].calls, ours).Tools?
    ensures GraphRun(turns + [turn], ours, callTool) == GraphRun(turns, ours, callTool) + Round(turn, ours, callTool)
    decreases |turns|
  {
    var more := turns + [turn];
    if turns == [] {
      assert more[1..] == [];
      assert Round(turn, ours, callTool) + [] == Round(turn, ours, callTool);
    } else {
      assert more[0] == turns[0] && more[1..] == turns[1..] + [turn];
      RoundSnoc(turns[1..], turn, ours, callTool);
      JoinedEvents(Round(turns[0], ours, callTool), GraphRun(turns[1..], ours, callTool), Round(turn, ours, callTool));
    }
  }

  lemma JoinedEvents(a: seq<GraphEvent>, b: seq<GraphEvent>, c: seq<GraphEvent>)
    ensures (a + b) + c == a + (b + c)
  {
  }

  lemma {:induction false} RoundsDrain(s: Emitter, turns: seq<Turn>, ours: set<string>, callTool: Call -> string)
    requires s.pending == [] && forall i :: 0 <= i < |turns| ==> RouteOf(turns[i].calls, ours).Tools?
    ensures After(s, GraphRun(turns, ours, callTool)).pending == []
    decreases |turns|
  {
    if turns != [] {
      var first := Round(turns[0], ours, callTool);
      RoundDrains(s, turns[0], ours, callTool, "");
      AfterAppend(s, first, GraphRun(turns[1..], ours, callTool));
      RoundsDrain(After(s, first), turns[1..], ours, callTool);
    }
  }

  /** What a run has sent when the `i`-th turn's tools are about to be reported, and when they have been. */
  function BeforeRound(turns: seq<Turn>, ours: set<string>, callTool: Call -> string, i: nat): seq<Out>
    requires i < |turns|
  {
    CloseText(After(After(START, GraphRun(turns[..i], ours, callTool)), TurnEvents(turns[i]))).out
  }

  function AfterRound(turns: seq<Turn>, ours: set<string>, callTool: Call -> string, i: nat): seq<Out>
    requires i < |turns|
  {
    After(START, GraphRun(turns[..i + 1], ours, callTool)).out
  }

  /**
   In a run cut anywhere, each turn whose tools have run sent four events for each of its keys, and
   what it sent is every call's own arguments and own result exactly when no two of its calls share one.
   */
  lemma OwnResultsExactlyWhen(turns: seq<Turn>, ours: set<string>, callTool: Call -> string, n: nat, failed: bool, i: nat)
    requires n <= |GraphRun(turns, ours, callTool)| && i < DoneTurns(turns, ours, n)
    ensures AfterRound(turns, ours, callTool, i) <= Emitted(GraphRun(turns, ours, callTool)[..n], failed)
    ensures |AfterRound(turns, ours, callTool, i)| == |BeforeRound(turns, ours, callTool, i)| + 4 * |Keys(turns[i].calls)|
    ensures AfterRound(turns, ours, callTool, i)
         == BeforeRound(turns, ours, callTool, i) + OwnResults(turns[i].calls, callTool)
       <==> DistinctKeys(turns[i].calls)
  {
    var s := After(START, GraphRun(turns[..i], ours, callTool));
    RoundsDrain(START, turns[..i], ours, callTool);
    RoundOwnsExactlyWhen(s, turns[i], ours, callTool);
    RoundDrains(s, turns[i], ours, callTool, "");
    AfterRoundIs(turns, ours, callTool, i);
    SentByThen(turns, ours, callTool, n, failed, i);
  }

  lemma AfterRoundIs(turns: seq<Turn>, ours: set<string>, callTool: Call -> string, i: nat)
    requires i < |turns| && forall j :: 0 <= j <= i ==> RouteOf(turns[j].calls, ours).Tools?
    ensures AfterRound(turns, ours, callTool, i) ==
            After(After(START, GraphRun(turns[..i], ours, callTool)), Round(turns[i], ours, callTool)).out
  {
    assert turns[..i + 1] == turns[..i] + [turns[i]];
    RoundSnoc(turns[..i], turns[i], ours, callTool);
    AfterAppend(START, GraphRun(turns[..i], ours, callTool), Round(turns[i], ours, callTool));
  }

  lemma SentByThen(turns: seq<Turn>, ours: set<string>, callTool: Call -> string, n: nat, failed: bool, i: nat)
    requires n <= |GraphRun(turns, ours, callTool)| && i < DoneTurns(turns, ours, n)
    ensures AfterRound(turns, ours, callTool, i) <= Emitted(GraphRun(turns, ours, callTool)[..n], failed)
  {
    var all, part := GraphRun(turns, ours, callTool)[..n], GraphRun(turns[..i + 1], ours, callTool);
    DoneIsPrefix(turns, ours, callTool, n, i + 1);
    assert all == part + all[|part|..];
    AfterAppend(START, part, all[|part|..]);
    AfterGrows(After(START, part), all[|part|..]);
    EndGrows(all, failed);
    PrefixOfPrefix(After(START, part).out, After(START, all).out, Emitted(all, failed));
  }

  /**
   Two calls of one tool without ids share a key: one result is sent for the two, the first call's, next
   to the second call's arguments.
   */
  lemma IdLessPair(first: Call, second: Call, callTool: Call -> string)
    requires first.id.None? && second.id.None? && first.name == second.name
    ensures var turn := Turn([], [first, second]);
            Emitted(GraphRun([turn], {first.name}, callTool), false) ==
            [RunStarted] + (Announce(first.name, second) + [ToolResult(first.name, callTool(first))]) + [RunFinished]
  {
    var k, ours := first.name, {first.name};
    var turn := Turn([], [first, second]);
    var mid := START.(pending := [(k, second)]);
    PairRemembered(START, first, second);
    TurnRemembers(START, turn);
    assert turn.calls[0] == first && turn.calls[1] == second;
    RoundDrains(START, turn, ours, callTool, k);
    PairDrains(mid, first, second, callTool);
    assert [turn][1..] == [];
    assert Round(turn, ours, callTool) + [] == Round(turn, ours, callTool);
  }

  lemma PairRemembered(s: Emitter, first: Call, second: Call)
    requires KeyOf(first) == KeyOf(second) && s.pending == []
    ensures Remember(s, [first, second]) == s.(pending := [(KeyOf(second), second)])
  {
    var k := KeyOf(first);
    assert [first, second][1..] == [second] && [second][1..] == [];
    var one: Pending := [(k, first)];
    assert one[1..] == [];
    assert Put(one, k, second) == [(k, second)];
    assert Remember(s.(pending := one), [second]) == s.(pending := [(k, second)]);
  }

  lemma PairDrains(s: Emitter, first: Call, second: Call, callTool: Call -> string)
    requires KeyOf(first) == KeyOf(second) && s.pending == [(KeyOf(second), second)]
    ensures var k := KeyOf(first);
            ReportAll(s, Answers([first, second], callTool)) ==
            Send(s, Announce(k, second) + [ToolResult(k, callTool(first))]).(pending := [])
  {
    var k := KeyOf(first);
    var a, b := Answer(k, callTool(first)), Answer(k, callTool(second));
    var s' := Send(s, Announce(k, second) + [ToolResult(k, callTool(first))]).(pending := []);
    assert [first, second][1..] == [second] && [second][1..] == [];
    assert Answers([second], callTool) == [b];
    assert Answers([first, second], callTool) == [a] + [b];
    assert ([a] + [b])[1..] == [b] && [b][1..] == [];
    assert s.pending[1..] == [];
    assert ReportOne(s, a) == s';
    assert ReportOne(s', b) == s';
    assert ReportAll(s', [b]) == s';
  }
}

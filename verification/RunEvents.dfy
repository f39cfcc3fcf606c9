/** agent-langgraph/src/index.ts: routing of a model turn, and the AG-UI events one run emits. */
module RunEvents {
  import opened Prelude

  /** A tool call of a model turn. Arguments are kept as the JSON they are sent as. */
  datatype Call = Call(id: Option<string>, name: string, args: string)

  /** `call.id ?? call.name` */
  function KeyOf(call: Call): string { if call.id.Some? then call.id.value else call.name }

  datatype Answer = Answer(callId: string, content: string)

  /** What the graph's event stream says, as far as this code listens. */
  datatype GraphEvent = Stream(text: string) | ModelEnd(calls: seq<Call>) | ToolsEnd(results: seq<Answer>) | Other

  /** What is sent to the surface. The n-th message's id is `msg_<run>_<n>`. */
  datatype Out =
    | RunStarted
    | TextStart(message: nat)
    | TextContent(message: nat, delta: string)
    | TextEnd(message: nat)
    | ToolStart(call: string, name: string)
    | ToolArgs(call: string, args: string)
    | ToolEnd(call: string)
    | ToolResult(call: string, content: string)
    | RunFinished
    | RunError

  // ---- calls seen and not yet reported: a Map in insertion order ----

  type Pending = seq<(string, Call)>

  function Find(p: Pending, k: string): Option<Call> {
    if p == [] then None else if p[0].0 == k then Some(p[0].1) else Find(p[1..], k)
  }

  function Put(p: Pending, k: string, call: Call): Pending {
    if p == [] then [(k, call)]
    else if p[0].0 == k then [(k, call)] + p[1..]
    else [p[0]] + Put(p[1..], k, call)
  }

  function Drop(p: Pending, k: string): Pending {
    if p == [] then [] else if p[0].0 == k then p[1..] else [p[0]] + Drop(p[1..], k)
  }

  // ---- the emitter ----

  datatype Emitter = Emitter(out: seq<Out>, index: nat, textOpen: bool, pending: Pending)

  const START: Emitter := Emitter([RunStarted], 0, false, [])

  function Send(s: Emitter, more: seq<Out>): Emitter { s.(out := s.out + more) }

  function CloseText(s: Emitter): Emitter {
    if s.textOpen then Send(s, [TextEnd(s.index)]).(textOpen := false, index := s.index + 1) else s
  }

  function Announce(k: string, call: Call): seq<Out> {
    [ToolStart(k, call.name), ToolArgs(k, call.args), ToolEnd(k)]
  }

  function Remember(s: Emitter, calls: seq<Call>): Emitter
    decreases |calls|
  {
    if calls == [] then s
    else Remember(s.(pending := Put(s.pending, KeyOf(calls[0]), calls[0])), calls[1..])
  }

  /** One tool message: reported with the call it answers, unless that call is not pending. */
  function ReportOne(s: Emitter, a: Answer): Emitter {
    match Find(s.pending, a.callId)
    case None => s
    case Some(call) =>
      Send(s, Announce(a.callId, call) + [ToolResult(a.callId, a.content)]).(pending := Drop(s.pending, a.callId))
  }

  function ReportAll(s: Emitter, results: seq<Answer>): Emitter
    decreases |results|
  {
    if results == [] then s else ReportAll(ReportOne(s, results[0]), results[1..])
  }

  function OnText(s: Emitter, text: string): Emitter {
    if text == "" then s
    else Send(s, (if s.textOpen then [] else [TextStart(s.index)]) + [TextContent(s.index, text)]).(textOpen := true)
  }

  function OnEvent(s: Emitter, e: GraphEvent): Emitter {
    match e
    case Stream(text) => OnText(s, text)
    case ModelEnd(calls) => Remember(s, calls)
    case ToolsEnd(results) => ReportAll(CloseText(s), results)
    case Other => s
  }

  function After(s: Emitter, events: seq<GraphEvent>): Emitter
    decreases |events|
  {
    if events == [] then s else After(OnEvent(s, events[0]), events[1..])
  }

  /** The calls nobody here answered, reported without a result at the end of the run. */
  function AnnounceRest(s: Emitter): Emitter
    decreases |s.pending|
  {
    if s.pending == [] then s
    else AnnounceRest(Send(s, Announce(s.pending[0].0, s.pending[0].1)).(pending := s.pending[1..]))
  }

  function Finish(s: Emitter): Emitter { Send(AnnounceRest(CloseText(s)), [RunFinished]) }

  function Fail(s: Emitter): Emitter {
    Send(s, (if s.textOpen then [TextEnd(s.index)] else []) + [RunError])
  }

  /** Everything one run sends: `events` came, and then the stream ended or `failed`. */
  function Emitted(events: seq<GraphEvent>, failed: bool): seq<Out> {
    var s := After(START, events);
    (if failed then Fail(s) else Finish(s)).out
  }

  /** The run itself, with its variables and its loops. */
  method RunAgent(events: seq<GraphEvent>, failed: bool) returns (out: seq<Out>)
    ensures out == Emitted(events, failed)
  {
    out := [RunStarted];
    var messageIndex := 0;
    var textOpen := false;
    var pending: Pending := [];
    for i := 0 to |events|
      invariant After(Emitter(out, messageIndex, textOpen, pending), events[i..]) == After(START, events)
    {
      ghost var before := Emitter(out, messageIndex, textOpen, pending);
      match events[i] {
        case Stream(text) =>
          if text != "" {
            if !textOpen {
              out := out + [TextStart(messageIndex)];
              textOpen := true;
            }
            out := out + [TextContent(messageIndex, text)];
          }
          assert Emitter(out, messageIndex, textOpen, pending) == OnText(before, text);
        case ModelEnd(calls) =>
          for j := 0 to |calls|
            invariant Remember(Emitter(out, messageIndex, textOpen, pending), calls[j..]) == Remember(before, calls)
          {
            pending := Put(pending, KeyOf(calls[j]), calls[j]);
          }
        case ToolsEnd(results) =>
          if textOpen {
            out := out + [TextEnd(messageIndex)];
            textOpen, messageIndex := false, messageIndex + 1;
          }
          for j := 0 to |results|
            invariant ReportAll(Emitter(out, messageIndex, textOpen, pending), results[j..])
                   == ReportAll(CloseText(before), results)
          {
            var id := results[j].callId;
            var call := Find(pending, id);
            if call.Some? {
              out := out + (Announce(id, call.value) + [ToolResult(id, results[j].content)]);
              pending := Drop(pending, id);
            }
          }
        case Other =>
      }
      assert Emitter(out, messageIndex, textOpen, pending) == OnEvent(before, events[i]);
    }
    ghost var s := Emitter(out, messageIndex, textOpen, pending);
    assert s == After(START, events);
    if failed {
      if textOpen {
        out := out + [TextEnd(messageIndex)];
      }
      out := out + [RunError];
      assert out == Fail(s).out;
      return;
    }
    if textOpen {
      out := out + [TextEnd(messageIndex)];
      textOpen, messageIndex := false, messageIndex + 1;
    }
    while pending != []
      invariant AnnounceRest(Emitter(out, messageIndex, textOpen, pending)) == AnnounceRest(CloseText(s))
      decreases |pending|
    {
      out := out + Announce(pending[0].0, pending[0].1);
      pending := pending[1..];
    }
    out := out + [RunFinished];
  }

  // ---- the grammar of what is sent ----

  /**
   Where a listener stands: before the run, between messages (having seen the messages `used`, and
   possibly just the end of one tool call), inside a message or a call, after the run, or lost.
   */
  datatype Listener =
    | Before
    | Between(used: set<nat>, ended: Option<string>)
    | InText(used: set<nat>, message: nat)
    | InCall(used: set<nat>, call: string)
    | InArgs(used: set<nat>, call: string)
    | Ended
    | Lost

  function Hear(l: Listener, o: Out): Listener {
    match (l, o)
    case (Before, RunStarted) => Between({}, None)
    case (Between(used, _), TextStart(m)) => if m in used then Lost else InText(used + {m}, m)
    case (Between(used, _), ToolStart(k, _)) => InCall(used, k)
    case (Between(used, ended), ToolResult(k, _)) => if ended == Some(k) then Between(used, None) else Lost
    case (Between(_, _), RunFinished) => Ended
    case (Between(_, _), RunError) => Ended
    case (InText(used, m), TextContent(m', delta)) => if m' == m && delta != "" then l else Lost
    case (InText(used, m), TextEnd(m')) => if m' == m then Between(used, None) else Lost
    case (InCall(used, k), ToolArgs(k', _)) => if k' == k then InArgs(used, k) else Lost
    case (InArgs(used, k), ToolEnd(k')) => if k' == k then Between(used, Some(k)) else Lost
    case _ => Lost
  }

  function Heard(l: Listener, out: seq<Out>): Listener
    decreases |out|
  {
    if out == [] then l else Hear(Heard(l, out[..|out| - 1]), out[|out| - 1])
  }

  lemma {:induction false} HeardAppend(l: Listener, a: seq<Out>, b: seq<Out>)
    ensures Heard(l, a + b) == Heard(Heard(l, a), b)
    decreases |b|
  {
    if b == [] {
      assert a + b == a;
    } else {
      assert (a + b)[..|a + b| - 1] == a + b[..|b| - 1];
      HeardAppend(l, a, b[..|b| - 1]);
    }
  }

  function Below(n: nat): (ids: set<nat>)
    ensures forall i: nat :: i in ids <==> i < n
  {
    if n == 0 then {} else Below(n - 1) + {n - 1}
  }

  /** A listener of what was sent so far stands where the emitter's variables say. */
  predicate Follows(s: Emitter) {
    var l := Heard(Before, s.out);
    if s.textOpen then l == InText(Below(s.index + 1), s.index) else l.Between? && l.used == Below(s.index)
  }

  lemma AnnounceHeard(used: set<nat>, ended: Option<string>, k: string, call: Call)
    ensures Heard(Between(used, ended), Announce(k, call)) == Between(used, Some(k))
  {
    var a := Announce(k, call);
    assert a[..2] == [a[0], a[1]] && a[..2][..1] == [a[0]] && a[..2][..1][..0] == [];
    assert Heard(Between(used, ended), [a[0]]) == InCall(used, k);
    assert Heard(Between(used, ended), a[..2]) == InArgs(used, k);
  }

  lemma OneHeard(l: Listener, o: Out)
    ensures Heard(l, [o]) == Hear(l, o)
  {
    assert [o][..0] == [];
  }

  lemma CloseTextFollows(s: Emitter)
    requires Follows(s)
    ensures Follows(CloseText(s)) && !CloseText(s).textOpen
  {
    if s.textOpen {
      HeardAppend(Before, s.out, [TextEnd(s.index)]);
      OneHeard(Heard(Before, s.out), TextEnd(s.index));
    }
  }

  lemma OnTextFollows(s: Emitter, text: string)
    requires Follows(s)
    ensures Follows(OnText(s, text))
  {
    if text != "" {
      var content := TextContent(s.index, text);
      if s.textOpen {
        assert [] + [content] == [content];
        HeardAppend(Before, s.out, [content]);
        OneHeard(Heard(Before, s.out), content);
      } else {
        var opening := TextStart(s.index);
        HeardAppend(Before, s.out, [opening] + [content]);
        HeardAppend(Heard(Before, s.out), [opening], [content]);
        OneHeard(Heard(Before, s.out), opening);
        OneHeard(Hear(Heard(Before, s.out), opening), content);
        assert Below(s.index) + {s.index} == Below(s.index + 1);
      }
    }
  }

  lemma ReportOneFollows(s: Emitter, a: Answer)
    requires Follows(s) && !s.textOpen
    ensures Follows(ReportOne(s, a)) && !ReportOne(s, a).textOpen
  {
    var found := Find(s.pending, a.callId);
    if found.Some? {
      var l := Heard(Before, s.out);
      var announced, result := Announce(a.callId, found.value), ToolResult(a.callId, a.content);
      HeardAppend(Before, s.out, announced + [result]);
      HeardAppend(l, announced, [result]);
      AnnounceHeard(l.used, l.ended, a.callId, found.value);
      OneHeard(Between(l.used, Some(a.callId)), result);
    }
  }

  lemma {:induction false} ReportAllFollows(s: Emitter, results: seq<Answer>)
    requires Follows(s) && !s.textOpen
    ensures Follows(ReportAll(s, results))
    decreases |results|
  {
    if results != [] {
      ReportOneFollows(s, results[0]);
      ReportAllFollows(ReportOne(s, results[0]), results[1..]);
    }
  }

  lemma {:induction false} RememberKeeps(s: Emitter, calls: seq<Call>)
    ensures Remember(s, calls) == s.(pending := Remember(s, calls).pending)
    decreases |calls|
  {
    if calls != [] {
      RememberKeeps(s.(pending := Put(s.pending, KeyOf(calls[0]), calls[0])), calls[1..]);
    }
  }

  lemma {:induction false} AfterFollows(s: Emitter, events: seq<GraphEvent>)
    requires Follows(s)
    ensures Follows(After(s, events))
    decreases |events|
  {
    if events != [] {
      match events[0] {
        case Stream(text) => OnTextFollows(s, text);
        case ModelEnd(calls) => RememberKeeps(s, calls);
        case ToolsEnd(results) =>
          CloseTextFollows(s);
          ReportAllFollows(CloseText(s), results);
        case Other =>
      }
      AfterFollows(OnEvent(s, events[0]), events[1..]);
    }
  }

  lemma {:induction false} AnnounceRestFollows(s: Emitter)
    requires Follows(s) && !s.textOpen
    ensures Follows(AnnounceRest(s)) && !AnnounceRest(s).textOpen
    decreases |s.pending|
  {
    if s.pending != [] {
      var (k, call) := s.pending[0];
      var l := Heard(Before, s.out);
      HeardAppend(Before, s.out, Announce(k, call));
      AnnounceHeard(l.used, l.ended, k, call);
      AnnounceRestFollows(Send(s, Announce(k, call)).(pending := s.pending[1..]));
    }
  }

  /**
   Whatever the graph says and wherever its stream fails, what is sent is RUN_STARTED, complete text
   messages with distinct ids and complete tool calls that never overlap, and one RUN_FINISHED or
   RUN_ERROR at the end.
   */
  lemma RunIsWellFormed(events: seq<GraphEvent>, failed: bool)
    ensures Heard(Before, Emitted(events, failed)) == Ended
    ensures var out := Emitted(events, failed);
            && |out| >= 2 && out[0] == RunStarted && out[|out| - 1] == (if failed then RunError else RunFinished)
            && forall i :: 0 <= i < |out| - 1 ==> !out[i].RunFinished? && !out[i].RunError?
  {
    OneHeard(Before, RunStarted);
    AfterFollows(START, events);
    AfterStarts(START, events);
    var s := After(START, events);
    if failed {
      FailHeard(s);
    } else {
      FinishHeard(s);
      AnnounceRestStarts(CloseText(s));
    }
    OnlyLastEnds(Emitted(events, failed));
  }

  lemma {:induction false} AfterStarts(s: Emitter, events: seq<GraphEvent>)
    requires s.out != []
    ensures After(s, events).out != [] && After(s, events).out[0] == s.out[0]
    decreases |events|
  {
    if events != [] {
      match events[0] {
        case Stream(_) =>
        case ModelEnd(calls) => RememberKeeps(s, calls);
        case ToolsEnd(results) => ReportAllStarts(CloseText(s), results);
        case Other =>
      }
      AfterStarts(OnEvent(s, events[0]), events[1..]);
    }
  }

  lemma {:induction false} ReportAllStarts(s: Emitter, results: seq<Answer>)
    requires s.out != []
    ensures ReportAll(s, results).out != [] && ReportAll(s, results).out[0] == s.out[0]
    decreases |results|
  {
    if results != [] {
      ReportAllStarts(ReportOne(s, results[0]), results[1..]);
    }
  }

  lemma {:induction false} AnnounceRestStarts(s: Emitter)
    requires s.out != []
    ensures AnnounceRest(s).out != [] && AnnounceRest(s).out[0] == s.out[0]
    decreases |s.pending|
  {
    if s.pending != [] {
      AnnounceRestStarts(Send(s, Announce(s.pending[0].0, s.pending[0].1)).(pending := s.pending[1..]));
    }
  }

  /** To a listener nothing may follow the end of a run. */
  lemma {:induction false} OnlyLastEnds(out: seq<Out>)
    requires Heard(Before, out) == Ended
    ensures forall i :: 0 <= i < |out| - 1 ==> !out[i].RunFinished? && !out[i].RunError?
  {
    forall i | 0 <= i < |out| - 1
      ensures !out[i].RunFinished? && !out[i].RunError?
    {
      if out[i].RunFinished? || out[i].RunError? {
        assert out[..i + 1][..i] == out[..i];
        assert out == out[..i + 1] + out[i + 1..];
        HeardAppend(Before, out[..i + 1], out[i + 1..]);
        NothingAfter(Heard(Before, out[..i + 1]), out[i + 1..]);
      }
    }
  }

  lemma {:induction false} NothingAfter(l: Listener, out: seq<Out>)
    requires l.Ended? || l.Lost?
    ensures out != [] ==> Heard(l, out) == Lost
    decreases |out|
  {
    if |out| > 1 {
      NothingAfter(l, out[..|out| - 1]);
    } else if |out| == 1 {
      assert out[..0] == [];
    }
  }

  lemma FailHeard(s: Emitter)
    requires Follows(s)
    ensures Heard(Before, Fail(s).out) == Ended
  {
    var l := Heard(Before, s.out);
    if s.textOpen {
      HeardAppend(Before, s.out, [TextEnd(s.index)] + [RunError]);
      HeardAppend(l, [TextEnd(s.index)], [RunError]);
      OneHeard(l, TextEnd(s.index));
      OneHeard(Hear(l, TextEnd(s.index)), RunError);
    } else {
      assert [] + [RunError] == [RunError];
      HeardAppend(Before, s.out, [RunError]);
      OneHeard(l, RunError);
    }
  }

  lemma FinishHeard(s: Emitter)
    requires Follows(s)
    ensures Heard(Before, Finish(s).out) == Ended
  {
    CloseTextFollows(s);
    AnnounceRestFollows(CloseText(s));
    var rest := AnnounceRest(CloseText(s));
    HeardAppend(Before, rest.out, [RunFinished]);
    OneHeard(Heard(Before, rest.out), RunFinished);
  }
}

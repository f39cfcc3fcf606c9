/** What happens to every tool call and every word of a run of agent-langgraph/src/index.ts. */
module RunCalls {
  import opened RunEvents

  // ---- counting what was sent ----

  function Starts(out: seq<Out>, k: string): nat {
    if out == [] then 0
    else Starts(out[..|out| - 1], k) + if out[|out| - 1].ToolStart? && out[|out| - 1].call == k then 1 else 0
  }

  function Results(out: seq<Out>, k: string): nat {
    if out == [] then 0
    else Results(out[..|out| - 1], k) + if out[|out| - 1].ToolResult? && out[|out| - 1].call == k then 1 else 0
  }

  /** The text of the messages, joined. */
  function Texts(out: seq<Out>): string {
    if out == [] then ""
    else Texts(out[..|out| - 1]) + if out[|out| - 1].TextContent? then out[|out| - 1].delta else ""
  }

  lemma {:induction false} CountAppend(a: seq<Out>, b: seq<Out>, k: string)
    ensures Starts(a + b, k) == Starts(a, k) + Starts(b, k)
    ensures Results(a + b, k) == Results(a, k) + Results(b, k)
    ensures Texts(a + b) == Texts(a) + Texts(b)
    decreases |b|
  {
    if b == [] {
      assert a + b == a;
    } else {
      assert (a + b)[..|a + b| - 1] == a + b[..|b| - 1];
      CountAppend(a, b[..|b| - 1], k);
    }
  }

  lemma CountOne(o: Out, k: string)
    ensures Starts([o], k) == if o.ToolStart? && o.call == k then 1 else 0
    ensures Results([o], k) == if o.ToolResult? && o.call == k then 1 else 0
    ensures Texts([o]) == if o.TextContent? then o.delta else ""
  {
    assert [o][..0] == [];
  }

  lemma CountAnnounce(key: string, call: Call, k: string)
    ensures Starts(Announce(key, call), k) == if k == key then 1 else 0
    ensures Results(Announce(key, call), k) == 0
    ensures Texts(Announce(key, call)) == ""
  {
    var a := Announce(key, call);
    assert a == ([a[0]] + [a[1]]) + [a[2]];
    CountAppend([a[0]] + [a[1]], [a[2]], k);
    CountAppend([a[0]], [a[1]], k);
    CountOne(a[0], k);
    CountOne(a[1], k);
    CountOne(a[2], k);
  }

  // ---- the calls of a run ----

  function CallsOf(events: seq<GraphEvent>): seq<Call>
    decreases |events|
  {
    if events == [] then []
    else (if events[0].ModelEnd? then events[0].calls else []) + CallsOf(events[1..])
  }

  function Keys(calls: seq<Call>): set<string> { set i | 0 <= i < |calls| :: KeyOf(calls[i]) }

  predicate DistinctKeys(calls: seq<Call>) {
    forall i, j :: 0 <= i < j < |calls| ==> KeyOf(calls[i]) != KeyOf(calls[j])
  }

  function Waiting(p: Pending): set<string> { set i | 0 <= i < |p| :: p[i].0 }

  lemma WaitingCons(p: Pending)
    requires p != []
    ensures Waiting(p) == {p[0].0} + Waiting(p[1..])
  {
    assert forall i | 0 < i < |p| :: p[i] == p[1..][i - 1];
    assert forall i | 0 <= i < |p[1..]| :: p[1..][i] == p[i + 1];
  }

  lemma WaitingSnoc(p: Pending, e: (string, Call))
    ensures Waiting(p + [e]) == Waiting(p) + {e.0}
  {
    var q := p + [e];
    assert q[|p|] == e;
    assert forall i | 0 <= i < |p| :: q[i] == p[i];
  }

  /** A Map's keys are distinct. */
  predicate OneEach(p: Pending) { forall i, j :: 0 <= i < j < |p| ==> p[i].0 != p[j].0 }

  /** And each call waits under its own key. */
  ghost predicate PendingOk(p: Pending, calls: seq<Call>) {
    && OneEach(p)
    && forall i :: 0 <= i < |p| ==> p[i].0 == KeyOf(p[i].1) && p[i].1 in calls
  }

  lemma {:induction false} FindWaits(p: Pending, k: string)
    ensures Find(p, k).Some? <==> k in Waiting(p)
    ensures Find(p, k).Some? ==> (k, Find(p, k).value) in p
    decreases |p|
  {
    if p != [] {
      FindWaits(p[1..], k);
      WaitingCons(p);
    }
  }

  lemma {:induction false} DropIs(p: Pending, k: string) returns (i: nat)
    requires k in Waiting(p)
    ensures i < |p| && p[i].0 == k && Drop(p, k) == p[..i] + p[i + 1..]
    decreases |p|
  {
    if p[0].0 == k {
      i := 0;
    } else {
      WaitingCons(p);
      var j := DropIs(p[1..], k);
      i := j + 1;
      assert p[..i] == [p[0]] + p[1..][..j];
    }
  }

  lemma WithoutWaits(p: Pending, i: nat)
    requires i < |p| && forall j :: 0 <= j < |p| && j != i ==> p[j].0 != p[i].0
    ensures Waiting(p[..i] + p[i + 1..]) == Waiting(p) - {p[i].0}
  {
    var d := p[..i] + p[i + 1..];
    forall j | 0 <= j < |d|
      ensures d[j].0 in Waiting(p) && d[j].0 != p[i].0
    {
      assert d[j] == p[if j < i then j else j + 1];
    }
    forall j | 0 <= j < |p| && j != i
      ensures p[j].0 in Waiting(d)
    {
      assert p[j] == d[if j < i then j else j - 1];
    }
  }

  lemma WithoutOk(p: Pending, i: nat, calls: seq<Call>)
    requires PendingOk(p, calls) && i < |p|
    ensures PendingOk(p[..i] + p[i + 1..], calls)
  {
    var d := p[..i] + p[i + 1..];
    forall j | 0 <= j < |d|
      ensures d[j] == p[if j < i then j else j + 1]
    {
    }
  }

  lemma DropWaits(p: Pending, k: string, calls: seq<Call>)
    requires PendingOk(p, calls) && k in Waiting(p)
    ensures PendingOk(Drop(p, k), calls) && Waiting(Drop(p, k)) == Waiting(p) - {k}
  {
    var i := DropIs(p, k);
    WithoutOk(p, i, calls);
    WithoutWaits(p, i);
  }

  /** A new key goes last; a key that is there keeps its place and takes the new call. */
  lemma {:induction false} PutIs(p: Pending, k: string, call: Call) returns (i: nat)
    ensures k !in Waiting(p) ==> Put(p, k, call) == p + [(k, call)]
    ensures k in Waiting(p) ==> i < |p| && p[i].0 == k && Put(p, k, call) == p[i := (k, call)]
    decreases |p|
  {
    i := 0;
    if p != [] {
      WaitingCons(p);
      if p[0].0 != k {
        var j := PutIs(p[1..], k, call);
        i := j + 1;
        assert p == [p[0]] + p[1..];
      }
    }
  }

  lemma PutWaits(p: Pending, k: string, call: Call)
    requires OneEach(p)
    ensures OneEach(Put(p, k, call)) && Waiting(Put(p, k, call)) == Waiting(p) + {k}
  {
    var i := PutIs(p, k, call);
    if k in Waiting(p) {
      var q := p[i := (k, call)];
      assert forall j | 0 <= j < |p| :: q[j].0 == p[j].0;
    } else {
      assert forall j | 0 <= j < |p| :: p[j].0 in Waiting(p);
      WaitingSnoc(p, (k, call));
    }
  }

  lemma PutOk(p: Pending, call: Call, calls: seq<Call>)
    requires PendingOk(p, calls)
    ensures PendingOk(Put(p, KeyOf(call), call), calls + [call])
  {
    PutWaits(p, KeyOf(call), call);
    var i := PutIs(p, KeyOf(call), call);
  }

  // ---- every call is reported once ----

  /** How many calls go by this key. */
  function Asked(calls: seq<Call>, k: string): nat {
    if calls == [] then 0 else (if KeyOf(calls[0]) == k then 1 else 0) + Asked(calls[1..], k)
  }

  /** How many of these calls, remembered in turn, take the place of one still waiting under this key. */
  function OverwrittenIn(p: Pending, calls: seq<Call>, k: string): nat
    decreases |calls|
  {
    if calls == [] then 0
    else (if KeyOf(calls[0]) == k && k in Waiting(p) then 1 else 0)
         + OverwrittenIn(Put(p, KeyOf(calls[0]), calls[0]), calls[1..], k)
  }

  function Overwritten(s: Emitter, events: seq<GraphEvent>, k: string): nat
    decreases |events|
  {
    if events == [] then 0
    else (if events[0].ModelEnd? then OverwrittenIn(s.pending, events[0].calls, k) else 0)
         + Overwritten(OnEvent(s, events[0]), events[1..], k)
  }

  /** A call that was reported was reported whole: its key, its name and its arguments. */
  ghost predicate Whole(out: seq<Out>, calls: seq<Call>) {
    forall i :: 0 <= i < |out| && out[i].ToolStart? ==>
      exists call :: call in calls && i + 3 <= |out| && out[i..i + 3] == Announce(KeyOf(call), call)
  }

  ghost predicate Sound(s: Emitter, calls: seq<Call>) { PendingOk(s.pending, calls) && Whole(s.out, calls) }

  /** The calls under a key that are reported or will be. */
  function Held(s: Emitter, k: string): nat {
    Starts(s.out, k) + if k in Waiting(s.pending) then 1 else 0
  }

  lemma WholeQuiet(out: seq<Out>, more: seq<Out>, calls: seq<Call>)
    requires Whole(out, calls) && forall i :: 0 <= i < |more| ==> !more[i].ToolStart?
    ensures Whole(out + more, calls)
  {
    forall i | 0 <= i < |out + more| && (out + more)[i].ToolStart?
      ensures exists call :: call in calls && i + 3 <= |out + more| && (out + more)[i..i + 3] == Announce(KeyOf(call), call)
    {
      var call :| call in calls && i + 3 <= |out| && out[i..i + 3] == Announce(KeyOf(call), call);
      assert (out + more)[i..i + 3] == out[i..i + 3];
    }
  }

  lemma WholeAnnounced(out: seq<Out>, call: Call, more: seq<Out>, calls: seq<Call>)
    requires Whole(out, calls) && call in calls && forall i :: 0 <= i < |more| ==> !more[i].ToolStart?
    ensures Whole(out + (Announce(KeyOf(call), call) + more), calls)
  {
    var a := Announce(KeyOf(call), call);
    var all := out + (a + more);
    forall i | 0 <= i < |all| && all[i].ToolStart?
      ensures exists c :: c in calls && i + 3 <= |all| && all[i..i + 3] == Announce(KeyOf(c), c)
    {
      if i < |out| {
        var c :| c in calls && i + 3 <= |out| && out[i..i + 3] == Announce(KeyOf(c), c);
        assert all[i..i + 3] == out[i..i + 3];
      } else {
        assert i == |out|;
        assert all[i..i + 3] == a;
      }
    }
  }

  lemma WholeMore(out: seq<Out>, calls: seq<Call>, call: Call)
    requires Whole(out, calls)
    ensures Whole(out, calls + [call])
  {
    forall i | 0 <= i < |out| && out[i].ToolStart?
      ensures exists c :: c in calls + [call] && i + 3 <= |out| && out[i..i + 3] == Announce(KeyOf(c), c)
    {
      var c :| c in calls && i + 3 <= |out| && out[i..i + 3] == Announce(KeyOf(c), c);
      assert c in calls + [call];
    }
  }

  lemma {:induction false} NoStarts(out: seq<Out>, k: string)
    requires forall i :: 0 <= i < |out| ==> !out[i].ToolStart?
    ensures Starts(out, k) == 0
  {
    if out != [] {
      NoStarts(out[..|out| - 1], k);
    }
  }

  /** Sending something that starts no call. */
  lemma SendQuiet(s: Emitter, more: seq<Out>, calls: seq<Call>, k: string)
    requires Sound(s, calls) && forall i :: 0 <= i < |more| ==> !more[i].ToolStart?
    ensures Sound(Send(s, more), calls) && Held(Send(s, more), k) == Held(s, k)
  {
    WholeQuiet(s.out, more, calls);
    CountAppend(s.out, more, k);
    NoStarts(more, k);
  }

  /** Reporting a waiting call and taking it off the map. */
  lemma SendAnnounced(s: Emitter, call: Call, more: seq<Out>, calls: seq<Call>, k: string)
    requires Sound(s, calls) && call in calls && KeyOf(call) in Waiting(s.pending)
    requires forall i :: 0 <= i < |more| ==> !more[i].ToolStart?
    ensures var s' := Send(s, Announce(KeyOf(call), call) + more).(pending := Drop(s.pending, KeyOf(call)));
            Sound(s', calls) && Held(s', k) == Held(s, k)
  {
    var key := KeyOf(call);
    DropWaits(s.pending, key, calls);
    WholeAnnounced(s.out, call, more, calls);
    CountAppend(s.out, Announce(key, call) + more, k);
    CountAppend(Announce(key, call), more, k);
    CountAnnounce(key, call, k);
    NoStarts(more, k);
  }

  lemma ReportOneHeld(s: Emitter, a: Answer, calls: seq<Call>, k: string)
    requires Sound(s, calls)
    ensures Sound(ReportOne(s, a), calls) && Held(ReportOne(s, a), k) == Held(s, k)
  {
    FindWaits(s.pending, a.callId);
    var found := Find(s.pending, a.callId);
    if found.Some? {
      var i :| 0 <= i < |s.pending| && s.pending[i] == (a.callId, found.value);
      SendAnnounced(s, found.value, [ToolResult(a.callId, a.content)], calls, k);
    }
  }

  lemma {:induction false} ReportAllHeld(s: Emitter, results: seq<Answer>, calls: seq<Call>, k: string)
    requires Sound(s, calls)
    ensures Sound(ReportAll(s, results), calls) && Held(ReportAll(s, results), k) == Held(s, k)
    decreases |results|
  {
    if results != [] {
      ReportOneHeld(s, results[0], calls, k);
      ReportAllHeld(ReportOne(s, results[0]), results[1..], calls, k);
    }
  }

  lemma RememberOneHeld(s: Emitter, call: Call, calls: seq<Call>, k: string)
    requires Sound(s, calls)
    ensures var s' := s.(pending := Put(s.pending, KeyOf(call), call));
            && Sound(s', calls + [call])
            && Held(s', k) == if k == KeyOf(call) && k !in Waiting(s.pending) then Held(s, k) + 1 else Held(s, k)
  {
    PutOk(s.pending, call, calls);
    PutWaits(s.pending, KeyOf(call), call);
    WholeMore(s.out, calls, call);
  }

  lemma {:induction false} RememberHeld(s: Emitter, more: seq<Call>, calls: seq<Call>, k: string)
    requires Sound(s, calls)
    ensures Sound(Remember(s, more), calls + more)
    ensures Held(Remember(s, more), k) + OverwrittenIn(s.pending, more, k) == Held(s, k) + Asked(more, k)
    ensures Held(Remember(s, more), k) >= Held(s, k)
    ensures OverwrittenIn(s.pending, more, k) > 0 ==> Held(Remember(s, more), k) > 0
    decreases |more|
  {
    if more == [] {
      assert calls + more == calls;
    } else {
      RememberOneHeld(s, more[0], calls, k);
      RememberHeld(s.(pending := Put(s.pending, KeyOf(more[0]), more[0])), more[1..], calls + [more[0]], k);
      JoinedCalls(calls, [more[0]], more[1..]);
      assert [more[0]] + more[1..] == more;
    }
  }

  lemma CloseTextHeld(s: Emitter, calls: seq<Call>, k: string)
    requires Sound(s, calls)
    ensures Sound(CloseText(s), calls) && Held(CloseText(s), k) == Held(s, k)
  {
    if s.textOpen {
      SendQuiet(s, [TextEnd(s.index)], calls, k);
    }
  }

  lemma OnEventHeld(s: Emitter, e: GraphEvent, calls: seq<Call>, k: string)
    requires Sound(s, calls)
    ensures var more := if e.ModelEnd? then e.calls else [];
            && Sound(OnEvent(s, e), calls + more)
            && Held(OnEvent(s, e), k) + OverwrittenIn(s.pending, more, k) == Held(s, k) + Asked(more, k)
            && Held(OnEvent(s, e), k) >= Held(s, k)
            && (OverwrittenIn(s.pending, more, k) > 0 ==> Held(OnEvent(s, e), k) > 0)
  {
    assert calls + [] == calls;
    match e {
      case Stream(text) =>
        if text != "" {
          SendQuiet(s, (if s.textOpen then [] else [TextStart(s.index)]) + [TextContent(s.index, text)], calls, k);
        }
      case ModelEnd(more) => RememberHeld(s, more, calls, k);
      case ToolsEnd(results) =>
        CloseTextHeld(s, calls, k);
        ReportAllHeld(CloseText(s), results, calls, k);
      case Other =>
    }
  }

  lemma {:induction false} AskedAppend(a: seq<Call>, b: seq<Call>, k: string)
    ensures Asked(a + b, k) == Asked(a, k) + Asked(b, k)
    decreases |a|
  {
    if a == [] {
      assert a + b == b;
    } else {
      assert (a + b)[0] == a[0] && (a + b)[1..] == a[1..] + b;
      AskedAppend(a[1..], b, k);
    }
  }

  lemma JoinedCalls(a: seq<Call>, b: seq<Call>, c: seq<Call>)
    ensures (a + b) + c == a + (b + c)
  {
  }

  /** Of the calls a stretch of events asks for, those not overwritten while waiting are reported or will be. */
  lemma {:induction false} AfterHeld(s: Emitter, events: seq<GraphEvent>, calls: seq<Call>, k: string)
    requires Sound(s, calls)
    ensures Sound(After(s, events), calls + CallsOf(events))
    ensures Held(After(s, events), k) + Overwritten(s, events, k) == Held(s, k) + Asked(CallsOf(events), k)
    ensures Held(After(s, events), k) >= Held(s, k)
    ensures Overwritten(s, events, k) > 0 ==> Held(After(s, events), k) > 0
    decreases |events|
  {
    if events == [] {
      assert calls + [] == calls;
    } else {
      var more := if events[0].ModelEnd? then events[0].calls else [];
      OnEventHeld(s, events[0], calls, k);
      AfterHeld(OnEvent(s, events[0]), events[1..], calls + more, k);
      AskedAppend(more, CallsOf(events[1..]), k);
      JoinedCalls(calls, more, CallsOf(events[1..]));
    }
  }

  lemma {:induction false} AnnounceRestHeld(s: Emitter, calls: seq<Call>, k: string)
    requires Sound(s, calls)
    ensures Sound(AnnounceRest(s), calls) && AnnounceRest(s).pending == [] && Held(AnnounceRest(s), k) == Held(s, k)
    decreases |s.pending|
  {
    if s.pending != [] {
      var (key, call) := s.pending[0];
      assert key in Waiting(s.pending);
      assert Announce(key, call) + [] == Announce(key, call);
      SendAnnounced(s, call, [], calls, k);
      AnnounceRestHeld(Send(s, Announce(key, call)).(pending := s.pending[1..]), calls, k);
    }
  }

  /**
   Whatever the model calls, with or without ids: everything reported is one of its calls, whole. Under
   each key a finished run reports exactly the calls asked for less those that took the place of one
   still waiting, so at least one if any was asked for, and a failed run no more than that.
   */
  lemma EachCallOnce(events: seq<GraphEvent>, failed: bool, k: string)
    ensures Whole(Emitted(events, failed), CallsOf(events))
    ensures forall i :: 0 <= i < |Emitted(events, failed)| && Emitted(events, failed)[i].ToolStart? ==>
              exists call :: call in CallsOf(events) && StandsAt(Emitted(events, failed), i, call)
    ensures !failed ==> Starts(Emitted(events, failed), k) + Overwritten(START, events, k) == Asked(CallsOf(events), k)
    ensures failed ==> Starts(Emitted(events, failed), k) + Overwritten(START, events, k) <= Asked(CallsOf(events), k)
    ensures !failed && Asked(CallsOf(events), k) > 0 ==> Starts(Emitted(events, failed), k) > 0
  {
    var calls := CallsOf(events);
    CountOne(RunStarted, k);
    assert [] + calls == calls;
    AfterHeld(START, events, [], k);
    var s := After(START, events);
    if failed {
      SendQuiet(s, (if s.textOpen then [TextEnd(s.index)] else []) + [RunError], calls, k);
    } else {
      CloseTextHeld(s, calls, k);
      AnnounceRestHeld(CloseText(s), calls, k);
      SendQuiet(AnnounceRest(CloseText(s)), [RunFinished], calls, k);
    }
    WholeStands(Emitted(events, failed), calls);
  }

  /** The three events of a call, under its id, or its name when it has none. */
  predicate StandsAt(out: seq<Out>, i: nat, call: Call) {
    && i + 2 < |out| && out[i].ToolStart?
    && (if call.id.Some? then out[i].call == call.id.value else out[i].call == call.name)
    && out[i].name == call.name
    && out[i + 1] == ToolArgs(out[i].call, call.args) && out[i + 2] == ToolEnd(out[i].call)
  }

  lemma WholeStands(out: seq<Out>, calls: seq<Call>)
    requires Whole(out, calls)
    ensures forall i :: 0 <= i < |out| && out[i].ToolStart? ==> exists call :: call in calls && StandsAt(out, i, call)
  {
    forall i | 0 <= i < |out| && out[i].ToolStart?
      ensures exists call :: call in calls && StandsAt(out, i, call)
    {
      var call :| call in calls && i + 3 <= |out| && out[i..i + 3] == Announce(KeyOf(call), call);
      var three := out[i..i + 3];
      assert three[0] == out[i] && three[1] == out[i + 1] && three[2] == out[i + 2];
      assert StandsAt(out, i, call);
    }
  }

  /** As many reports under this key as calls of it. */
  predicate ReportsAll(events: seq<GraphEvent>, k: string) {
    Starts(Emitted(events, false), k) == Asked(CallsOf(events), k)
  }

  /** No call takes the place of one still waiting under this key. */
  predicate KeepsAll(events: seq<GraphEvent>, k: string) { Overwritten(START, events, k) == 0 }

  /** A finished run reports every call it was asked for exactly when none took the place of one still waiting. */
  lemma AllReportedExactlyWhen(events: seq<GraphEvent>)
    ensures (forall k :: ReportsAll(events, k)) <==> (forall k :: KeepsAll(events, k))
  {
    forall k
      ensures ReportsAll(events, k) <==> KeepsAll(events, k)
    {
      ReportsWhatItKeeps(events, k);
    }
  }

  lemma ReportsWhatItKeeps(events: seq<GraphEvent>, k: string)
    ensures ReportsAll(events, k) <==> KeepsAll(events, k)
  {
    EachCallOnce(events, false, k);
  }

  /** Distinct keys are one way to be sure of that. */
  lemma DistinctAreReported(events: seq<GraphEvent>, k: string)
    requires Asked(CallsOf(events), k) <= 1
    ensures Starts(Emitted(events, false), k) == Asked(CallsOf(events), k)
  {
    EachCallOnce(events, false, k);
  }

  // ---- no word is lost ----

  function Spoken(events: seq<GraphEvent>): string
    decreases |events|
  {
    if events == [] then "" else (if events[0].Stream? then events[0].text else "") + Spoken(events[1..])
  }

  lemma ReportOneTexts(s: Emitter, a: Answer)
    ensures Texts(ReportOne(s, a).out) == Texts(s.out)
  {
    var found := Find(s.pending, a.callId);
    if found.Some? {
      var result := ToolResult(a.callId, a.content);
      CountAppend(s.out, Announce(a.callId, found.value) + [result], "");
      CountAppend(Announce(a.callId, found.value), [result], "");
      CountAnnounce(a.callId, found.value, "");
      CountOne(result, "");
    }
  }

  lemma {:induction false} ReportAllTexts(s: Emitter, results: seq<Answer>)
    ensures Texts(ReportAll(s, results).out) == Texts(s.out)
    decreases |results|
  {
    if results != [] {
      ReportOneTexts(s, results[0]);
      ReportAllTexts(ReportOne(s, results[0]), results[1..]);
    }
  }

  lemma OnEventTexts(s: Emitter, e: GraphEvent)
    ensures Texts(OnEvent(s, e).out) == Texts(s.out) + if e.Stream? then e.text else ""
  {
    match e {
      case Stream(text) =>
        if text != "" {
          var content := TextContent(s.index, text);
          var opening := if s.textOpen then [] else [TextStart(s.index)];
          CountAppend(s.out, opening + [content], "");
          CountAppend(opening, [content], "");
          CountOne(content, "");
          CountOne(TextStart(s.index), "");
        }
      case ModelEnd(calls) => RememberKeeps(s, calls);
      case ToolsEnd(results) =>
        CountAppend(s.out, [TextEnd(s.index)], "");
        CountOne(TextEnd(s.index), "");
        ReportAllTexts(CloseText(s), results);
      case Other =>
    }
  }

  lemma {:induction false} AfterTexts(s: Emitter, events: seq<GraphEvent>)
    ensures Texts(After(s, events).out) == Texts(s.out) + Spoken(events)
    decreases |events|
  {
    if events == [] {
      assert Texts(s.out) + "" == Texts(s.out);
    } else {
      var first := if events[0].Stream? then events[0].text else "";
      OnEventTexts(s, events[0]);
      AfterTexts(OnEvent(s, events[0]), events[1..]);
      assert Texts(s.out) + (first + Spoken(events[1..])) == Texts(s.out) + first + Spoken(events[1..]);
    }
  }

  lemma {:induction false} AnnounceRestTexts(s: Emitter)
    ensures Texts(AnnounceRest(s).out) == Texts(s.out)
    decreases |s.pending|
  {
    if s.pending != [] {
      var (k, call) := s.pending[0];
      CountAppend(s.out, Announce(k, call), "");
      CountAnnounce(k, call, "");
      AnnounceRestTexts(Send(s, Announce(k, call)).(pending := s.pending[1..]));
    }
  }

  lemma QuietTexts(s: Emitter, o: Out)
    requires o.TextEnd? || o.RunError? || o.RunFinished?
    ensures Texts(Send(s, [o]).out) == Texts(s.out)
  {
    CountAppend(s.out, [o], "");
    CountOne(o, "");
  }

  lemma SaidSoFar(events: seq<GraphEvent>)
    ensures Texts(After(START, events).out) == Spoken(events)
  {
    CountOne(RunStarted, "");
    AfterTexts(START, events);
    assert "" + Spoken(events) == Spoken(events);
  }

  lemma CloseTextTexts(s: Emitter)
    ensures Texts(CloseText(s).out) == Texts(s.out)
  {
    if s.textOpen {
      QuietTexts(s, TextEnd(s.index));
    }
  }

  lemma FailIs(s: Emitter)
    ensures Fail(s).out == CloseText(s).out + [RunError]
  {
  }

  /** The messages sent, joined, are what the model said, joined, also when the run fails. */
  lemma NoWordLost(events: seq<GraphEvent>, failed: bool)
    ensures Texts(Emitted(events, failed)) == Spoken(events)
  {
    var closed := CloseText(After(START, events));
    SaidSoFar(events);
    CloseTextTexts(After(START, events));
    if failed {
      QuietTexts(closed, RunError);
      FailIs(After(START, events));
    } else {
      AnnounceRestTexts(closed);
      QuietTexts(AnnounceRest(closed), RunFinished);
    }
  }
}

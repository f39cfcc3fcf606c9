/** The last message of a channel (server/src/channels/routes.ts, `recordActivity`): reports arrive in any order. */
module Activities {
  import opened Prelude

  /** A reported message, with its preview; a person's when there is no agent. */
  datatype Report = Report(text: string, agentId: Option<string>, at: int)

  datatype Refusal = ChannelNotFound | AgentNotFound

  /** A channel's stored last message, and what was announced on commit, oldest first. */
  datatype Register = Register(stored: Option<Report>, announced: seq<Report>)

  const EMPTY: Register := Register(None, [])

  /** The update's own condition: only ever forwards. */
  predicate Forwards(stored: Option<Report>, r: Report) {
    stored.None? || stored.value.at < r.at
  }

  function Apply(g: Register, r: Report): Register {
    if Forwards(g.stored, r) then Register(Some(r), g.announced + [r]) else g
  }

  function ApplyAll(g: Register, reports: seq<Report>): Register {
    if reports == [] then g else Apply(ApplyAll(g, reports[..|reports| - 1]), reports[|reports| - 1])
  }

  /** One channel: who is in it, which agents are linked, and its register. */
  class Channel {
    var members: set<string>
    var agents: set<string>
    var register: Register

    constructor (members: set<string>, agents: set<string>)
      ensures this.members == members && this.agents == agents && register == EMPTY
    {
      this.members, this.agents, register := members, agents, EMPTY;
    }

    method RecordActivity(actor: string, report: Report) returns (r: Result<bool, Refusal>)
      modifies this`register
      ensures actor !in members ==> r == Err(ChannelNotFound)
      ensures actor in members && report.agentId.Some? && report.agentId.value !in agents ==> r == Err(AgentNotFound)
      ensures actor in members && (report.agentId.None? || report.agentId.value in agents) ==>
                r == Ok(Forwards(old(register).stored, report)) && register == Apply(old(register), report)
      ensures r.Err? ==> register == old(register)
    {
      if actor !in members {
        return Err(ChannelNotFound);
      }
      if report.agentId.Some? && report.agentId.value !in agents {
        return Err(AgentNotFound);
      }
      if register.stored.Some? && register.stored.value.at >= report.at {
        return Ok(false);
      }
      register := Register(Some(report), register.announced + [report]);
      return Ok(true);
    }
  }

  /** The earliest report with the greatest time. */
  ghost predicate EarliestLatest(reports: seq<Report>, i: nat) {
    && i < |reports|
    && (forall j :: 0 <= j < |reports| ==> reports[j].at <= reports[i].at)
    && (forall j :: 0 <= j < i ==> reports[j].at < reports[i].at)
  }

  ghost predicate Increasing(reports: seq<Report>) {
    forall i, j :: 0 <= i < j < |reports| ==> reports[i].at < reports[j].at
  }

  /**
   After any reports in any order, the stored message is the earliest applied one with the greatest
   time; the announcements strictly increase in time, are all of reports, and end with the stored one.
   */
  lemma {:induction false} StoresEarliestLatest(reports: seq<Report>) returns (i: nat)
    ensures var g := ApplyAll(EMPTY, reports);
            && (g.stored.Some? <==> reports != [])
            && (reports != [] ==> EarliestLatest(reports, i) && g.stored == Some(reports[i]))
            && (reports != [] ==> g.announced != [] && g.stored == Some(g.announced[|g.announced| - 1]))
            && Increasing(g.announced)
            && forall r :: r in g.announced ==> r in reports
    decreases |reports|
  {
    i := 0;
    if reports != [] {
      var front, last := reports[..|reports| - 1], reports[|reports| - 1];
      var j := StoresEarliestLatest(front);
      var before := ApplyAll(EMPTY, front);
      assert reports == front + [last];
      if Forwards(before.stored, last) {
        i := |front|;
      } else {
        i := j;
      }
    }
  }

  /** When no two reports have the same time, the order they arrive in does not matter. */
  lemma ArrivalOrderIrrelevant(a: seq<Report>, b: seq<Report>)
    requires multiset(a) == multiset(b)
    requires forall i, j :: 0 <= i < j < |a| ==> a[i].at != a[j].at
    ensures ApplyAll(EMPTY, a).stored == ApplyAll(EMPTY, b).stored
  {
    var i := StoresEarliestLatest(a);
    var j := StoresEarliestLatest(b);
    assert |a| == |multiset(a)| == |multiset(b)| == |b|;
    if a != [] {
      assert b[j] in multiset(b);
      assert a[i] in multiset(a);
      var k :| 0 <= k < |a| && a[k] == b[j];
      var l :| 0 <= l < |b| && b[l] == a[i];
      assert a[k].at == a[i].at;
    }
  }

  /** Two reports commute exactly when their times differ, they are the same, or both are stale. */
  lemma CommuteExactlyWhen(g: Register, a: Report, b: Report)
    ensures Apply(Apply(g, a), b).stored == Apply(Apply(g, b), a).stored
       <==> a.at != b.at || a == b || !Forwards(g.stored, a)
  {
  }
}

/**
 One launch at a time for each Bot (agent-computer/src/profiles.ts, `page`), over every interleaving of
 `BrowserPools.Step`. The one way it fails is a call that closes a half-dead entry and, resuming after
 that `await`, does not look at `starting` again; the runs in which this never bites are exactly the
 runs with one launch in flight a Bot.
 */
module SingleFlight {
  import opened BrowserEvictions
  import opened BrowserPools

  /** Its owner has not yet heard how it ended. */
  predicate InFlight(p: Pool, l: nat) {
    l < |p.launches| && p.launches[l].owner in p.callers && p.callers[p.launches[l].owner] == Owning(l)
  }

  ghost predicate OneFlightPerBot(p: Pool) {
    forall l: nat, m: nat :: InFlight(p, l) && InFlight(p, m) && p.launches[l].botId == p.launches[m].botId ==> l == m
  }

  /** A half-dead entry has been closed, and by now somebody else is starting that Bot's browser. */
  predicate ReentersDuringLaunch(p: Pool, a: Action) {
    a.HalfDeadClosed? && Enabled(p, a) && p.callers[a.caller].botId in p.starting
  }

  /** `starting` holds exactly the launches in flight. */
  ghost predicate StartingIsInFlight(p: Pool) {
    && (forall b :: b in p.starting ==> InFlight(p, p.starting[b]) && p.launches[p.starting[b]].botId == b)
    && (forall l: nat :: InFlight(p, l) ==> p.launches[l].botId in p.starting && p.starting[p.launches[l].botId] == l)
  }

  /** An unfinished launch is in flight, and while its browser is opening its Bot has none running. */
  ghost predicate LaunchesTracked(p: Pool) {
    forall l :: 0 <= l < |p.launches| ==>
      && (!p.launches[l].phase.Settled? ==> InFlight(p, l))
      && (p.launches[l].phase.Opening? ==> !IsLive(p.live, p.launches[l].botId))
  }

  ghost predicate CallersTracked(p: Pool) {
    forall c :: c in p.callers ==>
      match p.callers[c]
      case Owning(l) => l < |p.launches| && p.launches[l].owner == c
      case WaitingFor(l) => l < |p.launches|
      case GotPage(l) => l < |p.launches|
      case _ => true
  }

  ghost predicate PagesTracked(p: Pool) {
    && DistinctBots(p.live)
    && forall i :: 0 <= i < |p.live| ==> p.live[i].page < |p.launches| && p.launches[p.live[i].page].botId == p.live[i].botId
  }

  ghost predicate FlightInv(p: Pool) {
    StartingIsInFlight(p) && LaunchesTracked(p) && CallersTracked(p) && PagesTracked(p)
  }

  // ---- one step ----

  lemma LiveAfterDelete(live: seq<Running>, botId: string)
    requires DistinctBots(live)
    ensures var r := LiveDelete(live, botId);
            && DistinctBots(r) && !IsLive(r, botId)
            && (forall b :: IsLive(r, b) ==> IsLive(live, b))
            && forall x :: x in r ==> x in live
  {
    var i, r := IndexOf(live, botId), LiveDelete(live, botId);
    if i < |live| {
      forall j | 0 <= j < |r|
        ensures r[j] == live[if j < i then j else j + 1]
      {
      }
      forall b | IsLive(r, b)
        ensures IsLive(live, b)
      {
        var k := IndexOf(r, b);
        assert live[if k < i then k else k + 1].botId == b;
      }
    }
  }

  lemma BeginKeeps(p: Pool, caller: nat, botId: string)
    requires FlightInv(p) && botId !in p.starting && !IsLive(p.live, botId)
    requires caller in p.callers ==> p.callers[caller].ClosingHalfDead?
    ensures FlightInv(BeginLaunch(p, caller, botId))
  {
    var q := BeginLaunch(p, caller, botId);
    forall l
      ensures InFlight(q, l) <==> (InFlight(p, l) || l == |p.launches|)
    {
    }
  }

  lemma PageKeeps(p: Pool, caller: nat, botId: string, healthy: bool)
    requires FlightInv(p) && caller !in p.callers
    ensures FlightInv(PageCalled(p, caller, botId, healthy))
  {
    var q, i := PageCalled(p, caller, botId, healthy), IndexOf(p.live, botId);
    if botId !in p.starting && i == |p.live| {
      BeginKeeps(p, caller, botId);
    } else {
      forall l
        ensures InFlight(q, l) <==> InFlight(p, l)
      {
      }
      assert forall b :: IsLive(q.live, b) <==> IsLive(p.live, b) by {
        forall b
          ensures IsLive(q.live, b) <==> IsLive(p.live, b)
        {
          SameBots(p.live, q.live, b);
        }
      }
    }
  }

  lemma {:induction false} SameBots(a: seq<Running>, b: seq<Running>, botId: string)
    requires |a| == |b| && forall i :: 0 <= i < |a| ==> a[i].botId == b[i].botId
    ensures IndexOf(a, botId) == IndexOf(b, botId)
    decreases |a|
  {
    if a != [] && a[0].botId != botId {
      SameBots(a[1..], b[1..], botId);
    }
  }

  /** A launch moving on: only its phase and the map of running browsers change. */
  lemma PhaseKeeps(p: Pool, l: nat, phase: Phase, live: seq<Running>)
    requires FlightInv(p) && l < |p.launches| && !phase.Opening? && InFlight(p, l)
    requires PagesTracked(p.(live := live))
    requires forall b :: b != p.launches[l].botId ==> IsLive(live, b) ==> IsLive(p.live, b)
    ensures FlightInv(WithPhase(p, l, phase).(live := live))
  {
    var q := WithPhase(p, l, phase).(live := live);
    forall m
      ensures InFlight(q, m) <==> InFlight(p, m)
    {
    }
  }

  lemma EvictKeeps(p: Pool, l: nat, live: seq<Running>, victims: seq<string>)
    requires FlightInv(p) && InFlight(p, l)
    requires PagesTracked(p.(live := live))
    requires forall b :: b != p.launches[l].botId ==> IsLive(live, b) ==> IsLive(p.live, b)
    ensures FlightInv(EvictFirst(p.(live := live), l, victims))
  {
    if victims == [] {
      PhaseKeeps(p, l, Settled(true), live);
      assert EvictFirst(p.(live := live), l, victims) == WithPhase(p, l, Settled(true)).(live := live);
    } else {
      var r := LiveDelete(live, victims[0]);
      LiveAfterDelete(live, victims[0]);
      PhaseKeeps(p, l, Capping(victims[1..]), r);
      assert EvictFirst(p.(live := live), l, victims) == WithPhase(p, l, Capping(victims[1..])).(live := r);
    }
  }

  /** A browser that comes up is a new entry: it never takes the place of one that is running. */
  lemma OpenedKeeps(p: Pool, l: nat)
    requires FlightInv(p) && p.max > 0.0 && l < |p.launches| && p.launches[l].phase.Opening?
    ensures FlightInv(BrowserOpened(p, l))
    ensures !IsLive(p.live, p.launches[l].botId)
  {
    var e := Running(p.launches[l].botId, p.now, l);
    var live := LiveSet(p.live, e);
    assert live == p.live + [e];
    forall b | b != e.botId && IsLive(live, b)
      ensures IsLive(p.live, b)
    {
      assert live[IndexOf(live, b)] in p.live;
    }
    EvictKeeps(p, l, live, ChooseEvictions(live, p.max));
  }

  lemma OwnerKeeps(p: Pool, caller: nat)
    requires FlightInv(p) && Enabled(p, OwnerHears(caller))
    ensures FlightInv(Step(p, OwnerHears(caller)))
  {
    var l, q := p.callers[caller].launch, Step(p, OwnerHears(caller));
    forall m
      ensures InFlight(q, m) <==> InFlight(p, m) && m != l
    {
    }
  }

  lemma WaiterKeeps(p: Pool, caller: nat)
    requires FlightInv(p) && Enabled(p, WaiterHears(caller))
    ensures FlightInv(Step(p, WaiterHears(caller)))
  {
    var q := Step(p, WaiterHears(caller));
    forall m
      ensures InFlight(q, m) <==> InFlight(p, m)
    {
    }
  }

  lemma TakesOutKeeps(p: Pool, live: seq<Running>)
    requires FlightInv(p)
    requires DistinctBots(live) && (forall x :: x in live ==> x in p.live)
    requires forall b :: IsLive(live, b) ==> IsLive(p.live, b)
    ensures FlightInv(p.(live := live))
  {
    var q := p.(live := live);
    forall m
      ensures InFlight(q, m) <==> InFlight(p, m)
    {
    }
    assert forall i :: 0 <= i < |live| ==> live[i] in p.live;
  }

  lemma ReentryKeeps(p: Pool, caller: nat)
    requires FlightInv(p) && Enabled(p, HalfDeadClosed(caller)) && !ReentersDuringLaunch(p, HalfDeadClosed(caller))
    ensures FlightInv(Step(p, HalfDeadClosed(caller)))
  {
    var botId := p.callers[caller].botId;
    LiveAfterDelete(p.live, botId);
    TakesOutKeeps(p, LiveDelete(p.live, botId));
    BeginKeeps(p.(live := LiveDelete(p.live, botId)), caller, botId);
  }

  lemma StepFlight(p: Pool, a: Action)
    requires FlightInv(p) && Enabled(p, a) && !ReentersDuringLaunch(p, a)
    ensures FlightInv(Step(p, a))
  {
    match a {
      case Tick(ms) => TickKeeps(p, ms);
      case Page(caller, botId, healthy) => PageKeeps(p, caller, botId, healthy);
      case HalfDeadClosed(caller) => ReentryKeeps(p, caller);
      case Opened(l) => OpenedKeeps(p, l);
      case OpeningFails(l) => PhaseKeeps(p, l, Settled(false), p.live);
      case VictimClosed(l) => EvictKeeps(p, l, p.live, p.launches[l].phase.victims);
      case OwnerHears(caller) => OwnerKeeps(p, caller);
      case WaiterHears(caller) => WaiterKeeps(p, caller);
      case TakesOut(botId) =>
        LiveAfterDelete(p.live, botId);
        TakesOutKeeps(p, LiveDelete(p.live, botId));
      case CloseAll => TakesOutKeeps(p, []);
    }
  }

  lemma TickKeeps(p: Pool, ms: nat)
    requires FlightInv(p)
    ensures FlightInv(p.(now := p.now + ms))
  {
    forall m
      ensures InFlight(p.(now := p.now + ms), m) <==> InFlight(p, m)
    {
    }
  }

  /** The step that breaks it: the call that re-enters starts a second browser on the same profile. */
  lemma ReentryStartsAnother(p: Pool, a: Action)
    requires FlightInv(p) && ReentersDuringLaunch(p, a)
    ensures !OneFlightPerBot(Step(p, a))
  {
    var botId := p.callers[a.caller].botId;
    var q, l := Step(p, a), p.starting[botId];
    assert InFlight(q, l) && InFlight(q, |p.launches|);
  }

  // ---- whole runs ----

  /** No call resumes from closing a half-dead entry into somebody else's launch. */
  ghost predicate NeverReenters(r: Run, k: nat)
    requires k <= |r.actions| < |r.states|
  {
    forall j :: 0 <= j < k ==> !ReentersDuringLaunch(r.states[j], r.actions[j])
  }

  lemma {:induction false} FlightHolds(r: Run, k: nat)
    requires IsRun(r) && k < |r.states| && NeverReenters(r, k)
    ensures FlightInv(r.states[k])
    decreases k
  {
    if k > 0 {
      FlightHolds(r, k - 1);
      StepFlight(r.states[k - 1], r.actions[k - 1]);
    }
  }

  /** A run has at most one launch in flight a Bot throughout exactly when no call re-enters during a launch. */
  lemma SingleFlightExactlyWhen(r: Run)
    requires IsRun(r)
    ensures (forall k :: 0 <= k < |r.states| ==> OneFlightPerBot(r.states[k])) <==> NeverReenters(r, |r.actions|)
  {
    if NeverReenters(r, |r.actions|) {
      forall k | 0 <= k < |r.states|
        ensures OneFlightPerBot(r.states[k])
      {
        FlightHolds(r, k);
      }
    } else {
      var k := FirstReentry(r, |r.actions|);
      FlightHolds(r, k);
      ReentryStartsAnother(r.states[k], r.actions[k]);
      assert !OneFlightPerBot(r.states[k + 1]);
    }
  }

  lemma {:induction false} FirstReentry(r: Run, n: nat) returns (k: nat)
    requires n <= |r.actions| < |r.states| && !NeverReenters(r, n)
    ensures k < n && NeverReenters(r, k) && ReentersDuringLaunch(r.states[k], r.actions[k])
    decreases n
  {
    if n > 0 && !NeverReenters(r, n - 1) {
      k := FirstReentry(r, n - 1);
    } else {
      k := n - 1;
    }
  }

  /** No call to `page` finds a half-dead entry. */
  ghost predicate NoneHalfDead(r: Run) {
    forall k :: 0 <= k < |r.actions| && k < |r.states| && r.actions[k].Page? ==>
      || r.actions[k].healthy
      || r.actions[k].botId in r.states[k].starting
      || !IsLive(r.states[k].live, r.actions[k].botId)
  }

  lemma {:induction false} NobodyCloses(r: Run, k: nat)
    requires IsRun(r) && NoneHalfDead(r) && k < |r.states|
    ensures forall c :: c in r.states[k].callers ==> !r.states[k].callers[c].ClosingHalfDead?
    decreases k
  {
    if k > 0 {
      NobodyCloses(r, k - 1);
      var p, a := r.states[k - 1], r.actions[k - 1];
      assert a.Page? ==> a.healthy || a.botId in p.starting || !IsLive(p.live, a.botId);
      StepClosesNothing(p, a);
    }
  }

  lemma StepClosesNothing(p: Pool, a: Action)
    requires Enabled(p, a) && (forall c :: c in p.callers ==> !p.callers[c].ClosingHalfDead?)
    requires a.Page? ==> a.healthy || a.botId in p.starting || !IsLive(p.live, a.botId)
    ensures forall c :: c in Step(p, a).callers ==> !Step(p, a).callers[c].ClosingHalfDead?
  {
  }

  /** In a run where no entry is found half-dead, each Bot has at most one launch in flight throughout. */
  lemma SingleFlightUnlessHalfDead(r: Run)
    requires IsRun(r) && NoneHalfDead(r)
    ensures NeverReenters(r, |r.actions|)
    ensures forall k :: 0 <= k < |r.states| ==> OneFlightPerBot(r.states[k])
  {
    forall k | 0 <= k < |r.actions|
      ensures !ReentersDuringLaunch(r.states[k], r.actions[k])
    {
      NobodyCloses(r, k);
    }
    SingleFlightExactlyWhen(r);
  }

  /** This caller is on that launch: still to hear, or told exactly how it ended. */
  predicate Follows(p: Pool, c: nat, l: nat) {
    && c in p.callers && l < |p.launches|
    && (p.callers[c] == Owning(l) || p.callers[c] == WaitingFor(l)
        || (p.launches[l].phase == Settled(true) && p.callers[c] == GotPage(l))
        || (p.launches[l].phase == Settled(false) && p.callers[c] == Rejected))
  }

  lemma StepFollows(p: Pool, a: Action, c: nat, l: nat)
    requires FlightInv(p) && Enabled(p, a) && Follows(p, c, l)
    ensures Follows(Step(p, a), c, l)
  {
  }

  lemma ArrivalFollows(p: Pool, a: Action, l: nat)
    requires FlightInv(p) && Enabled(p, a) && a.Page? && InFlight(p, l) && p.launches[l].botId == a.botId
    ensures Follows(Step(p, a), a.caller, l)
  {
  }

  /** Every call that arrives during a launch waits for it, and whatever happens next gets how it ended. */
  lemma {:induction false} ArrivalsShareTheLaunch(r: Run, k: nat, l: nat, j: nat)
    requires IsRun(r) && k < j < |r.states| && NeverReenters(r, |r.actions|)
    requires r.actions[k].Page? && InFlight(r.states[k], l) && r.states[k].launches[l].botId == r.actions[k].botId
    ensures Follows(r.states[j], r.actions[k].caller, l)
    decreases j
  {
    if j == k + 1 {
      FlightHolds(r, k);
      ArrivalFollows(r.states[k], r.actions[k], l);
    } else {
      ArrivalsShareTheLaunch(r, k, l, j - 1);
      FlightHolds(r, j - 1);
      StepFollows(r.states[j - 1], r.actions[j - 1], r.actions[k].caller, l);
    }
  }

  /**
   Nothing stays pinned: `starting` holds a Bot exactly while a launch of it is in flight, so as soon as
   its owner hears of the end, a failure included, the next call starts afresh.
   */
  lemma NothingPinned(r: Run, k: nat)
    requires IsRun(r) && k < |r.states| && NeverReenters(r, |r.actions|)
    ensures forall b :: b in r.states[k].starting <==>
              exists l: nat :: InFlight(r.states[k], l) && r.states[k].launches[l].botId == b
    ensures k < |r.actions| && r.actions[k].OwnerHears? ==>
              r.states[k].launches[r.states[k].callers[r.actions[k].caller].launch].botId !in r.states[k + 1].starting
    ensures k < |r.actions| && r.actions[k].Opened? ==>
              !IsLive(r.states[k].live, r.states[k].launches[r.actions[k].launch].botId)
  {
    FlightHolds(r, k);
    var p := r.states[k];
    forall b
      ensures b in p.starting <==> exists l: nat :: InFlight(p, l) && p.launches[l].botId == b
    {
      if b in p.starting {
        assert InFlight(p, p.starting[b]);
      }
    }
  }

  // ---- the claim is not made of a half-dead entry ----

  /** Two calls find the same half-dead entry, and each starts a browser for that Bot. */
  lemma HalfDeadStartsTwo() returns (r: Run)
    ensures IsRun(r) && !OneFlightPerBot(Last(r))
  {
    var up, done := [Running("b", 0, 0)], [Launch("b", 1, Settled(true))];
    var s1 := Pool(8.0, 0, [], map["b" := 0], [Launch("b", 1, Opening)], map[1 := Owning(0)]);
    var s2 := Pool(8.0, 0, up, map["b" := 0], done, map[1 := Owning(0)]);
    var s3 := Pool(8.0, 0, up, map[], done, map[1 := GotPage(0)]);
    r := Run([Init(8.0, 0)], []);
    r := Extended(r, Page(1, "b", true));
    assert Last(r) == s1;
    FirstOpens(s1, s2);
    r := Extended(r, Opened(0));
    OwnerHearsFirst(s2, s3);
    r := Extended(r, OwnerHears(1));
    r := TwoReenter(r);
  }

  lemma TwoReenter(r0: Run) returns (r: Run)
    requires IsRun(r0)
    requires Last(r0) == Pool(8.0, 0, [Running("b", 0, 0)], map[], [Launch("b", 1, Settled(true))], map[1 := GotPage(0)])
    ensures IsRun(r) && !OneFlightPerBot(Last(r))
  {
    var s3 := Last(r0);
    var s4 := s3.(callers := s3.callers[2 := ClosingHalfDead("b")]);
    var s5 := s4.(callers := s4.callers[3 := ClosingHalfDead("b")]);
    r := Extended(r0, Page(2, "b", false));
    assert Last(r) == s4;
    r := Extended(r, Page(3, "b", false));
    assert Last(r) == s5;
    assert LiveDelete(s5.live, "b") == [];
    r := Extended(r, HalfDeadClosed(2));
    var s6 := Last(r);
    assert s6 == BeginLaunch(s5.(live := []), 2, "b");
    r := Extended(r, HalfDeadClosed(3));
    assert Last(r) == BeginLaunch(s6, 3, "b");
    assert InFlight(Last(r), 1) && InFlight(Last(r), 2);
  }

  lemma FirstOpens(s1: Pool, s2: Pool)
    requires s1 == Pool(8.0, 0, [], map["b" := 0], [Launch("b", 1, Opening)], map[1 := Owning(0)])
    requires s2 == s1.(live := [Running("b", 0, 0)], launches := [Launch("b", 1, Settled(true))])
    ensures s2 == Step(s1, Opened(0))
  {
    var live := LiveSet([], Running("b", 0, 0));
    assert live == [Running("b", 0, 0)];
    assert ChooseEvictions(live, 8.0) == [];
  }

  lemma OwnerHearsFirst(s2: Pool, s3: Pool)
    requires s2 == Pool(8.0, 0, [Running("b", 0, 0)], map["b" := 0], [Launch("b", 1, Settled(true))], map[1 := Owning(0)])
    requires s3 == s2.(starting := map[], callers := map[1 := GotPage(0)])
    ensures Enabled(s2, OwnerHears(1)) && s3 == Step(s2, OwnerHears(1))
  {
  }
}

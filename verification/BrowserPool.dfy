/**
 agent-computer/src/profiles.ts as a transition system: the map of running browsers, the launches in
 flight and the callers waiting for them. Every `await` is a point where anything else may happen.
 */
module BrowserPools {
  import opened BrowserEvictions

  /** A launch: its Bot, the call that began it, and how far it has got. */
  datatype Phase = Opening | Capping(victims: seq<string>) | Settled(ok: bool)

  datatype Launch = Launch(botId: string, owner: nat, phase: Phase)

  /** One call of `page`. */
  datatype Caller =
    | ClosingHalfDead(botId: string)
    | Owning(launch: nat)
    | WaitingFor(launch: nat)
    | GotPage(page: nat)
    | Rejected

  datatype Pool = Pool(
    max: real,
    now: int,
    live: seq<Running>,
    starting: map<string, nat>,
    launches: seq<Launch>,
    callers: map<nat, Caller>)

  function Init(max: real, now: int): Pool { Pool(max, now, [], map[], [], map[]) }

  // ---- the Map of running browsers, in insertion order ----

  /** The position of a Bot's entry, or the length of the list. */
  function IndexOf(live: seq<Running>, botId: string): (i: nat)
    ensures i <= |live|
    ensures i < |live| ==> live[i].botId == botId
    ensures forall j :: 0 <= j < i ==> live[j].botId != botId
  {
    if live == [] || live[0].botId == botId then 0 else 1 + IndexOf(live[1..], botId)
  }

  predicate IsLive(live: seq<Running>, botId: string) { IndexOf(live, botId) < |live| }

  /** Setting a key that is there keeps its place. */
  function LiveSet(live: seq<Running>, e: Running): seq<Running> {
    var i := IndexOf(live, e.botId);
    if i < |live| then live[i := e] else live + [e]
  }

  function LiveDelete(live: seq<Running>, botId: string): seq<Running> {
    var i := IndexOf(live, botId);
    if i < |live| then live[..i] + live[i + 1..] else live
  }

  // ---- the synchronous stretches ----

  /** The launch begins: its promise is in `starting` before anybody else runs. */
  function BeginLaunch(p: Pool, caller: nat, botId: string): Pool {
    var l := |p.launches|;
    p.(launches := p.launches + [Launch(botId, caller, Opening)],
       starting := p.starting[botId := l],
       callers := p.callers[caller := Owning(l)])
  }

  /** `page`, up to its first `await`. */
  function PageCalled(p: Pool, caller: nat, botId: string, healthy: bool): Pool {
    var i := IndexOf(p.live, botId);
    if botId in p.starting then p.(callers := p.callers[caller := WaitingFor(p.starting[botId])])
    else if i < |p.live| && healthy then
      p.(live := p.live[i := p.live[i].(usedAt := p.now)], callers := p.callers[caller := GotPage(p.live[i].page)])
    else if i < |p.live| then p.(callers := p.callers[caller := ClosingHalfDead(botId)])
    else BeginLaunch(p, caller, botId)
  }

  function WithPhase(p: Pool, l: nat, phase: Phase): Pool
    requires l < |p.launches|
  {
    p.(launches := p.launches[l := p.launches[l].(phase := phase)])
  }

  /** Evicting up to its `await`: the first victim leaves the map at once, the rest are still to come. */
  function EvictFirst(p: Pool, l: nat, victims: seq<string>): Pool
    requires l < |p.launches|
  {
    if victims == [] then WithPhase(p, l, Settled(true))
    else WithPhase(p, l, Capping(victims[1..])).(live := LiveDelete(p.live, victims[0]))
  }

  /** A browser is up: into the map, and the cap enforced, with nothing in between. */
  function BrowserOpened(p: Pool, l: nat): Pool
    requires l < |p.launches| && p.max > 0.0
  {
    var live := LiveSet(p.live, Running(p.launches[l].botId, p.now, l));
    EvictFirst(p.(live := live), l, ChooseEvictions(live, p.max))
  }

  /** The call that began a launch hears of its end, and clears `starting` whether it worked or not. */
  function OwnerResumes(p: Pool, caller: nat, l: nat): Pool
    requires l < |p.launches| && p.launches[l].phase.Settled?
  {
    p.(starting := p.starting - {p.launches[l].botId},
       callers := p.callers[caller := if p.launches[l].phase.ok then GotPage(l) else Rejected])
  }

  datatype Action =
    | Tick(ms: nat)
    | Page(caller: nat, botId: string, healthy: bool)
    | HalfDeadClosed(caller: nat)
    | Opened(launch: nat)
    | OpeningFails(launch: nat)
    | VictimClosed(launch: nat)
    | OwnerHears(caller: nat)
    | WaiterHears(caller: nat)
    /** `stop`, and each eviction of an idle sweep, take one Bot's entry out. */
    | TakesOut(botId: string)
    | CloseAll

  predicate Enabled(p: Pool, a: Action) {
    p.max > 0.0 &&
    match a
    case Tick(_) => true
    case Page(caller, _, _) => caller !in p.callers
    case HalfDeadClosed(caller) => caller in p.callers && p.callers[caller].ClosingHalfDead?
    case Opened(l) => l < |p.launches| && p.launches[l].phase.Opening?
    case OpeningFails(l) => l < |p.launches| && p.launches[l].phase.Opening?
    case VictimClosed(l) => l < |p.launches| && p.launches[l].phase.Capping?
    case OwnerHears(caller) =>
      && caller in p.callers && p.callers[caller].Owning? && p.callers[caller].launch < |p.launches|
      && p.launches[p.callers[caller].launch].phase.Settled?
    case WaiterHears(caller) =>
      && caller in p.callers && p.callers[caller].WaitingFor? && p.callers[caller].launch < |p.launches|
      && p.launches[p.callers[caller].launch].phase.Settled?
    case TakesOut(_) => true
    case CloseAll => true
  }

  function Step(p: Pool, a: Action): Pool
    requires Enabled(p, a)
  {
    match a
    case Tick(ms) => p.(now := p.now + ms)
    case Page(caller, botId, healthy) => PageCalled(p, caller, botId, healthy)
    case HalfDeadClosed(caller) =>
      var botId := p.callers[caller].botId;
      BeginLaunch(p.(live := LiveDelete(p.live, botId)), caller, botId)
    case Opened(l) => BrowserOpened(p, l)
    case OpeningFails(l) => WithPhase(p, l, Settled(false))
    case VictimClosed(l) => EvictFirst(p, l, p.launches[l].phase.victims)
    case OwnerHears(caller) => OwnerResumes(p, caller, p.callers[caller].launch)
    case WaiterHears(caller) =>
      var l := p.callers[caller].launch;
      p.(callers := p.callers[caller := if p.launches[l].phase.ok then GotPage(l) else Rejected])
    case TakesOut(botId) => p.(live := LiveDelete(p.live, botId))
    case CloseAll => p.(live := [])
  }

  datatype Run = Run(states: seq<Pool>, actions: seq<Action>)

  ghost predicate IsRun(r: Run) {
    && |r.states| == |r.actions| + 1
    && r.states[0].max > 0.0
    && r.states[0] == Init(r.states[0].max, r.states[0].now)
    && forall k :: 0 <= k < |r.actions| ==>
         Enabled(r.states[k], r.actions[k]) && r.states[k + 1] == Step(r.states[k], r.actions[k])
  }

  function Last(r: Run): Pool
    requires |r.states| > 0
  {
    r.states[|r.states| - 1]
  }

  lemma Extended(r: Run, a: Action) returns (s: Run)
    requires IsRun(r) && Enabled(Last(r), a)
    ensures IsRun(s) && s.states[0] == r.states[0] && Last(s) == Step(Last(r), a)
  {
    s := Run(r.states + [Step(Last(r), a)], r.actions + [a]);
    forall k | 0 <= k < |s.actions|
      ensures Enabled(s.states[k], s.actions[k]) && s.states[k + 1] == Step(s.states[k], s.actions[k])
    {
      assert s.states[k] == r.states[k];
    }
  }

  // ---- the cap ----

  /** Within the cap's ceiling at every suspension point, one entry a Bot, none used in the future. */
  ghost predicate CapInv(p: Pool) {
    && p.max > 0.0
    && |p.live| <= Ceiling(p.max)
    && DistinctBots(p.live)
    && forall i :: 0 <= i < |p.live| ==> p.live[i].usedAt <= p.now
  }

  lemma DeleteKeeps(live: seq<Running>, botId: string, now: int)
    requires DistinctBots(live) && forall i :: 0 <= i < |live| ==> live[i].usedAt <= now
    ensures var r := LiveDelete(live, botId);
            && DistinctBots(r) && !IsLive(r, botId)
            && (forall i :: 0 <= i < |r| ==> r[i].usedAt <= now)
            && |r| == (if IsLive(live, botId) then |live| - 1 else |live|)
            && forall x :: x in r <==> x in live && x.botId != botId
  {
    var i, r := IndexOf(live, botId), LiveDelete(live, botId);
    if i < |live| {
      forall j | 0 <= j < |r|
        ensures r[j] == live[if j < i then j else j + 1]
      {
      }
      forall x | x in live && x.botId != botId
        ensures x in r
      {
        var j :| 0 <= j < |live| && live[j] == x;
        assert r[if j < i then j else j - 1] == x;
      }
    }
  }

  lemma SetKeeps(live: seq<Running>, e: Running)
    requires DistinctBots(live) && forall i :: 0 <= i < |live| ==> live[i].usedAt <= e.usedAt
    ensures var r := LiveSet(live, e);
            && DistinctBots(r) && e in r
            && (forall i :: 0 <= i < |r| ==> r[i].usedAt <= e.usedAt)
            && |r| == (if IsLive(live, e.botId) then |live| else |live| + 1)
  {
    var i, r := IndexOf(live, e.botId), LiveSet(live, e);
    assert r[i] == e;
  }

  /**
   At a launch, at most one browser is closed to make room. It is running, quiet for longest (ties by
   insertion), and never the Bot just launched; the count is back within the cap's ceiling at once.
   */
  lemma LaunchKeepsCap(p: Pool, l: nat)
    requires CapInv(p) && l < |p.launches|
    ensures CapInv(BrowserOpened(p, l))
    ensures var live := LiveSet(p.live, Running(p.launches[l].botId, p.now, l));
            var victims := ChooseEvictions(live, p.max);
            && |victims| <= 1
            && BrowserOpened(p, l).live == (if victims == [] then live else LiveDelete(live, victims[0]))
            && Running(p.launches[l].botId, p.now, l) in BrowserOpened(p, l).live
            && (victims != [] ==>
                  exists v ::
                    && v in live && v.botId == victims[0]
                    && forall x :: x in BrowserOpened(p, l).live ==> GoesFirst(live, v, x))
  {
    var e := Running(p.launches[l].botId, p.now, l);
    SetKeeps(p.live, e);
    var live := LiveSet(p.live, e);
    var victims := ChooseEvictions(live, p.max);
    KeptIsCeiling(|live|, p.max);
    CeilingBounds(p.max);
    if victims != [] {
      assert |live| == |p.live| + 1 == Ceiling(p.max) + 1;
      var v := VictimIs(p.live, e, p.max);
      DeleteKeeps(live, v.botId, p.now);
      OthersStay(live, p.max, v);
    }
  }

  lemma CeilingBounds(max: real)
    requires max > 0.0
    ensures Ceiling(max) >= 1 && Ceiling(max) as real - 1.0 < max <= Ceiling(max) as real
  {
  }

  /** The victim, when a new entry is one too many: the first by use, which the newest entry is not. */
  lemma VictimIs(before: seq<Running>, e: Running, max: real) returns (v: Running)
    requires max > 0.0 && |before| == Ceiling(max) && |LiveSet(before, e)| == |before| + 1
    requires DistinctBots(before) && !IsLive(before, e.botId)
    requires forall i :: 0 <= i < |before| ==> before[i].usedAt <= e.usedAt
    ensures v in LiveSet(before, e) && v != e && v.botId != e.botId
    ensures ChooseEvictions(LiveSet(before, e), max) == [v.botId]
  {
    var live := LiveSet(before, e);
    SetKeeps(before, e);
    ByUseMembers(live);
    ByUseOrdered(live);
    KeptIsCeiling(|live|, max);
    CeilingBounds(max);
    var sorted := ByUse(live);
    v := sorted[0];
    assert v in sorted;
    var second := sorted[1];
    assert second in sorted;
    assert GoesFirst(live, v, second);
    if v == e {
      assert second in live;
      LastPlace(before, e, second);
    }
    assert ChooseEvictions(live, max)[0] == v.botId;
  }

  lemma LastPlace(before: seq<Running>, e: Running, x: Running)
    requires !IsLive(before, e.botId) && x in before + [e]
    ensures Place(before + [e], x) <= Place(before + [e], e) == |before|
  {
    var all := before + [e];
    assert all[|before|] == e;
    assert forall i | 0 <= i < |before| :: all[i] == before[i];
  }

  lemma OthersStay(live: seq<Running>, max: real, v: Running)
    requires max > 0.0 && DistinctBots(live) && v in live && ChooseEvictions(live, max) == [v.botId]
    ensures forall x :: x in live && x.botId != v.botId ==> GoesFirst(live, v, x)
  {
    forall x | x in live && x.botId != v.botId
      ensures GoesFirst(live, v, x)
    {
      assert v.botId in ChooseEvictions(live, max);
      EvictsLeastRecentlyUsed(live, max, x, v);
    }
  }

  lemma StepCap(p: Pool, a: Action)
    requires CapInv(p) && Enabled(p, a)
    ensures CapInv(Step(p, a)) && Step(p, a).max == p.max
  {
    match a {
      case Opened(l) => LaunchKeepsCap(p, l);
      case VictimClosed(l) =>
        if p.launches[l].phase.victims != [] {
          DeleteKeeps(p.live, p.launches[l].phase.victims[0], p.now);
        }
      case HalfDeadClosed(caller) => DeleteKeeps(p.live, p.callers[caller].botId, p.now);
      case TakesOut(botId) => DeleteKeeps(p.live, botId, p.now);
      case _ =>
        CeilingBounds(p.max);
    }
  }

  /** In every run, at every suspension point, at most the cap's ceiling of browsers are running. */
  lemma {:induction false} CapHolds(r: Run, k: nat)
    requires IsRun(r) && k < |r.states|
    ensures CapInv(r.states[k]) && r.states[k].max == r.states[0].max
    ensures r.states[0].max.Floor as real == r.states[0].max ==> |r.states[k].live| as real <= r.states[0].max
    decreases k
  {
    CeilingOfWhole(r.states[0].max);
    if k == 0 {
      CeilingBounds(r.states[0].max);
    } else {
      CapHolds(r, k - 1);
      StepCap(r.states[k - 1], r.actions[k - 1]);
    }
  }

  // ---- and how far a run can go ----

  /** A different Bot for every number. */
  function BotOf(i: nat): (id: string)
    ensures |id| == i + 1
  {
    if i == 0 then "b" else BotOf(i - 1) + "b"
  }

  /** `n` Bots have asked in turn, each has its browser, and no call has yet been answered. */
  ghost predicate Filled(p: Pool, max: real, n: nat) {
    && p.max == max && |p.live| == n && |p.launches| == n
    && (forall i :: 0 <= i < n ==> |p.live[i].botId| <= n)
    && (forall b :: b in p.starting ==> |b| <= n)
    && (forall c :: c in p.callers ==> c < n)
  }

  /** One Bot more, while there is room below the cap's ceiling. */
  lemma OneMoreBot(r: Run, max: real, n: nat) returns (s: Run)
    requires IsRun(r) && max > 0.0 && n < Ceiling(max)
    requires r.states[0].max == max && Filled(Last(r), max, n)
    ensures IsRun(s) && s.states[0] == r.states[0] && Filled(Last(s), max, n + 1)
  {
    var p, bot := Last(r), BotOf(n);
    assert !IsLive(p.live, bot);
    s := Extended(r, Page(n, bot, true));
    assert Last(s) == BeginLaunch(p, n, bot);
    RoomBelowCeiling(max, n + 1);
    var live := p.live + [Running(bot, p.now, n)];
    assert ChooseEvictions(live, max) == [];
    s := Extended(s, Opened(n));
    assert Last(s).live == live;
  }

  lemma RoomBelowCeiling(max: real, count: nat)
    requires max > 0.0 && count <= Ceiling(max)
    ensures Excess(count, max) == 0
  {
    CeilingBounds(max);
    if count as real > max {
      assert 0.0 < count as real - max < 1.0;
    }
  }

  lemma {:induction false} FillsToCeiling(max: real, n: nat) returns (r: Run)
    requires max > 0.0 && n <= Ceiling(max)
    ensures IsRun(r) && r.states[0].max == max && Filled(Last(r), max, n)
    decreases n
  {
    if n == 0 {
      r := Run([Init(max, 0)], []);
    } else {
      r := FillsToCeiling(max, n - 1);
      r := OneMoreBot(r, max, n - 1);
    }
  }

  /** No state of the run holds more browsers than the cap. */
  ghost predicate KeepsCap(r: Run) {
    forall k :: 0 <= k < |r.states| ==> |r.states[k].live| as real <= r.states[k].max
  }

  /** Every run with this cap keeps to it exactly when it is a whole number; otherwise some run reaches its ceiling. */
  lemma CapKeptExactlyWhen(max: real)
    requires max > 0.0
    ensures (forall r: Run :: IsRun(r) && r.states[0].max == max ==> KeepsCap(r)) <==> max.Floor as real == max
  {
    CeilingOfWhole(max);
    if max.Floor as real == max {
      forall r: Run | IsRun(r) && r.states[0].max == max
        ensures KeepsCap(r)
      {
        forall k | 0 <= k < |r.states|
          ensures |r.states[k].live| as real <= r.states[k].max
        {
          CapHolds(r, k);
        }
      }
    } else {
      CeilingBounds(max);
      var r := FillsToCeiling(max, Ceiling(max));
      assert |r.states[|r.states| - 1].live| as real > max;
      assert !KeepsCap(r);
    }
  }

  /** A cap of one half, which the configuration accepts: the first browser is already more than the cap. */
  lemma HalfCapExceeded() returns (r: Run)
    ensures IsRun(r) && r.states[0].max == 0.5 && |Last(r).live| == 1 && !KeepsCap(r)
  {
    CeilingBounds(0.5);
    r := FillsToCeiling(0.5, 1);
    assert |r.states[|r.states| - 1].live| as real > 0.5;
  }
}

/** Whose page a call of agent-computer/src/profiles.ts is given, over every interleaving. */
module PoolPages {
  import opened BrowserEvictions
  import opened BrowserPools

  // ---- everything is of the Bot it is kept under ----

  predicate LaunchOf(p: Pool, l: nat, botId: string) { l < |p.launches| && p.launches[l].botId == botId }

  /** Running browsers, and launches in flight, are of the Bots they are kept under. */
  ghost predicate KeptRight(p: Pool) {
    && (forall i :: 0 <= i < |p.live| ==> LaunchOf(p, p.live[i].page, p.live[i].botId))
    && (forall b :: b in p.starting ==> LaunchOf(p, p.starting[b], b))
  }

  /** What a call of this Bot holds is that Bot's. */
  predicate HoldsRight(p: Pool, c: nat, botId: string) {
    && c in p.callers
    && match p.callers[c]
       case ClosingHalfDead(b) => b == botId
       case Owning(l) => LaunchOf(p, l, botId)
       case WaitingFor(l) => LaunchOf(p, l, botId)
       case GotPage(l) => LaunchOf(p, l, botId)
       case Rejected => true
  }

  lemma FewerKept(live: seq<Running>, botId: string)
    ensures forall x :: x in LiveDelete(live, botId) ==> x in live
  {
  }

  lemma StaysKept(p: Pool, live: seq<Running>)
    requires KeptRight(p) && forall x :: x in live ==> x in p.live
    ensures KeptRight(p.(live := live))
  {
    assert forall i :: 0 <= i < |live| ==> live[i] in p.live;
  }

  lemma SetKept(p: Pool, l: nat)
    requires KeptRight(p) && l < |p.launches|
    ensures KeptRight(p.(live := LiveSet(p.live, Running(p.launches[l].botId, p.now, l))))
  {
    var e := Running(p.launches[l].botId, p.now, l);
    var live := LiveSet(p.live, e);
    forall i | 0 <= i < |live|
      ensures LaunchOf(p, live[i].page, live[i].botId)
    {
      assert live[i] == e || (i < |p.live| && live[i] == p.live[i]);
    }
  }

  lemma EvictKept(p: Pool, l: nat, victims: seq<string>)
    requires KeptRight(p) && l < |p.launches|
    ensures KeptRight(EvictFirst(p, l, victims))
    ensures forall m, b :: LaunchOf(p, m, b) ==> LaunchOf(EvictFirst(p, l, victims), m, b)
  {
    if victims != [] {
      FewerKept(p.live, victims[0]);
      StaysKept(p, LiveDelete(p.live, victims[0]));
    }
  }

  lemma StepKept(p: Pool, a: Action)
    requires KeptRight(p) && Enabled(p, a)
    ensures KeptRight(Step(p, a))
    ensures forall m, b :: LaunchOf(p, m, b) ==> LaunchOf(Step(p, a), m, b)
  {
    match a {
      case Opened(l) =>
        var live := LiveSet(p.live, Running(p.launches[l].botId, p.now, l));
        SetKept(p, l);
        EvictKept(p.(live := live), l, ChooseEvictions(live, p.max));
      case VictimClosed(l) => EvictKept(p, l, p.launches[l].phase.victims);
      case HalfDeadClosed(caller) =>
        FewerKept(p.live, p.callers[caller].botId);
        StaysKept(p, LiveDelete(p.live, p.callers[caller].botId));
      case TakesOut(botId) =>
        FewerKept(p.live, botId);
        StaysKept(p, LiveDelete(p.live, botId));
      case _ =>
    }
  }

  lemma {:induction false} RunKept(r: Run, k: nat)
    requires IsRun(r) && k < |r.states|
    ensures KeptRight(r.states[k])
    decreases k
  {
    if k > 0 {
      RunKept(r, k - 1);
      StepKept(r.states[k - 1], r.actions[k - 1]);
    }
  }

  lemma CallBegins(p: Pool, a: Action)
    requires KeptRight(p) && Enabled(p, a) && a.Page?
    ensures HoldsRight(Step(p, a), a.caller, a.botId)
  {
  }

  lemma StepHolds(p: Pool, a: Action, c: nat, botId: string)
    requires KeptRight(p) && Enabled(p, a) && HoldsRight(p, c, botId)
    ensures HoldsRight(Step(p, a), c, botId)
  {
    StepKept(p, a);
  }

  /** In every run, whatever a call of `page` is waiting for or was given is a launch of the Bot it asked for. */
  lemma {:induction false} PageIsOfItsBot(r: Run, j: nat, k: nat)
    requires IsRun(r) && j < |r.actions| && j < k < |r.states| && r.actions[j].Page?
    ensures HoldsRight(r.states[k], r.actions[j].caller, r.actions[j].botId)
    ensures r.actions[j].caller in r.states[k].callers
    ensures r.states[k].callers[r.actions[j].caller].GotPage? ==>
              var l := r.states[k].callers[r.actions[j].caller].page;
              l < |r.states[k].launches| && r.states[k].launches[l].botId == r.actions[j].botId
    decreases k
  {
    if k == j + 1 {
      RunKept(r, j);
      CallBegins(r.states[j], r.actions[j]);
    } else {
      PageIsOfItsBot(r, j, k - 1);
      RunKept(r, k - 1);
      StepHolds(r.states[k - 1], r.actions[k - 1], r.actions[j].caller, r.actions[j].botId);
    }
  }

  // ---- the three ways a call begins ----

  /** A healthy browser is handed out at once: its own page, used now, and nothing else is touched. */
  lemma HealthyIsHandedOut(p: Pool, caller: nat, botId: string, i: nat)
    requires Enabled(p, Page(caller, botId, true)) && botId !in p.starting
    requires DistinctBots(p.live) && i < |p.live| && p.live[i].botId == botId
    ensures var q := Step(p, Page(caller, botId, true));
            && q.callers == p.callers[caller := GotPage(p.live[i].page)]
            && |q.live| == |p.live| && q.live[i] == Running(botId, p.now, p.live[i].page)
            && (forall j :: 0 <= j < |p.live| && j != i ==> q.live[j] == p.live[j])
            && q.starting == p.starting && q.launches == p.launches
  {
    assert IndexOf(p.live, botId) == i;
  }

  /** With nothing running and nothing starting, the call begins a launch that the next calls will find. */
  lemma ColdIsLaunched(p: Pool, caller: nat, botId: string, healthy: bool)
    requires Enabled(p, Page(caller, botId, healthy)) && botId !in p.starting
    requires forall i :: 0 <= i < |p.live| ==> p.live[i].botId != botId
    ensures var q := Step(p, Page(caller, botId, healthy));
            && q.launches == p.launches + [Launch(botId, caller, Opening)]
            && q.starting == p.starting[botId := |p.launches|]
            && q.callers == p.callers[caller := Owning(|p.launches|)] && q.live == p.live
  {
  }

  // ---- how a launch ends ----

  ghost predicate HappenedIn(r: Run, k: nat, a: Action)
    requires k <= |r.actions|
  {
    exists j :: 0 <= j < k && r.actions[j] == a
  }

  lemma HappenedNext(r: Run, k: nat, a: Action)
    requires k < |r.actions| && (HappenedIn(r, k, a) || r.actions[k] == a)
    ensures HappenedIn(r, k + 1, a)
  {
    if r.actions[k] != a {
      var j :| 0 <= j < k && r.actions[j] == a;
    }
  }

  /** A launch moves on from its browser coming up, or ends by not opening. */
  lemma StepSettles(p: Pool, a: Action, l: nat)
    requires Enabled(p, a) && l < |Step(p, a).launches|
    ensures l >= |p.launches| ==> Step(p, a).launches[l].phase.Opening?
    ensures l < |p.launches| && Step(p, a).launches[l].phase != p.launches[l].phase ==>
              || (a == OpeningFails(l) && Step(p, a).launches[l].phase == Settled(false))
              || ((a == Opened(l) || (a == VictimClosed(l) && p.launches[l].phase.Capping?))
                  && Step(p, a).launches[l].phase != Settled(false) && !Step(p, a).launches[l].phase.Opening?)
  {
  }

  /** Only a launch whose browser came up succeeds, and only one whose browser did not fails. */
  lemma {:induction false} EndsAsItOpened(r: Run, k: nat, l: nat)
    requires IsRun(r) && k < |r.states| && l < |r.states[k].launches|
    ensures match r.states[k].launches[l].phase
            case Opening => true
            case Capping(_) => HappenedIn(r, k, Opened(l))
            case Settled(ok) => HappenedIn(r, k, if ok then Opened(l) else OpeningFails(l))
    decreases k
  {
    if k > 0 {
      var p, a := r.states[k - 1], r.actions[k - 1];
      StepSettles(p, a, l);
      if l < |p.launches| {
        EndsAsItOpened(r, k - 1, l);
        if HappenedIn(r, k - 1, Opened(l)) || a == Opened(l) {
          HappenedNext(r, k - 1, Opened(l));
        }
        if HappenedIn(r, k - 1, OpeningFails(l)) || a == OpeningFails(l) {
          HappenedNext(r, k - 1, OpeningFails(l));
        }
      }
    }
  }

  ghost predicate RunningPage(p: Pool, page: nat) { exists i :: 0 <= i < |p.live| && p.live[i].page == page }

  lemma LivePageFrom(p: Pool, a: Action, x: Running)
    requires Enabled(p, a) && x in Step(p, a).live
    ensures RunningPage(p, x.page) || a == Opened(x.page)
  {
    match a {
      case Page(_, botId, _) =>
        var j :| 0 <= j < |Step(p, a).live| && Step(p, a).live[j] == x;
        assert p.live[j].page == x.page;
      case Opened(l) =>
        var live := LiveSet(p.live, Running(p.launches[l].botId, p.now, l));
        var victims := ChooseEvictions(live, p.max);
        if victims != [] {
          FewerKept(live, victims[0]);
        }
        assert x in live;
        var j :| 0 <= j < |live| && live[j] == x;
        assert x.page == l || (j < |p.live| && p.live[j] == x);
      case VictimClosed(l) =>
        if p.launches[l].phase.victims != [] {
          FewerKept(p.live, p.launches[l].phase.victims[0]);
        }
        IsRunning(p, x);
      case HalfDeadClosed(c) =>
        FewerKept(p.live, p.callers[c].botId);
        IsRunning(p, x);
      case TakesOut(botId) =>
        FewerKept(p.live, botId);
        IsRunning(p, x);
      case _ => IsRunning(p, x);
    }
  }

  lemma IsRunning(p: Pool, x: Running)
    requires x in p.live
    ensures RunningPage(p, x.page)
  {
    var j :| 0 <= j < |p.live| && p.live[j] == x;
  }

  lemma GivenPageFrom(p: Pool, a: Action, c: nat)
    requires Enabled(p, a) && c in Step(p, a).callers && Step(p, a).callers[c].GotPage?
    ensures var l := Step(p, a).callers[c].page;
            || (c in p.callers && p.callers[c] == GotPage(l))
            || RunningPage(p, l)
            || (l < |p.launches| && p.launches[l].phase == Settled(true))
  {
    if a.Page? && a.caller == c {
      var i := IndexOf(p.live, a.botId);
      assert i < |p.live|;
      IsRunning(p, p.live[i]);
    }
  }

  /** Every page that was given is of a browser that came up. */
  lemma {:induction false} PagesCameUp(r: Run, k: nat)
    requires IsRun(r) && k < |r.states|
    ensures forall i :: 0 <= i < |r.states[k].live| ==> HappenedIn(r, k, Opened(r.states[k].live[i].page))
    ensures forall c :: c in r.states[k].callers && r.states[k].callers[c].GotPage? ==>
              HappenedIn(r, k, Opened(r.states[k].callers[c].page))
    decreases k
  {
    if k > 0 {
      PagesCameUp(r, k - 1);
      var p, a := r.states[k - 1], r.actions[k - 1];
      forall i | 0 <= i < |r.states[k].live|
        ensures HappenedIn(r, k, Opened(r.states[k].live[i].page))
      {
        var x := r.states[k].live[i];
        LivePageFrom(p, a, x);
        HappenedNext(r, k - 1, Opened(x.page));
      }
      forall c | c in r.states[k].callers && r.states[k].callers[c].GotPage?
        ensures HappenedIn(r, k, Opened(r.states[k].callers[c].page))
      {
        var l := r.states[k].callers[c].page;
        GivenPageFrom(p, a, c);
        if l < |p.launches| && p.launches[l].phase == Settled(true) {
          EndsAsItOpened(r, k - 1, l);
        }
        HappenedNext(r, k - 1, Opened(l));
      }
    }
  }

  // ---- a run in which callers are served ----

  /** A Bot's first call launches, a second joins it, and both are told; a third is handed the browser at once. */
  lemma CallersAreServed(max: real, now: int, botId: string) returns (r: Run)
    requires max > 0.0
    ensures IsRun(r) && r.states[0] == Init(max, now)
    ensures var p := Last(r);
            p.live == [Running(botId, now, 0)] && p.starting == map[] && |p.launches| == 1
            && p.callers == map[0 := GotPage(0), 1 := GotPage(0), 2 := GotPage(0)]
  {
    r := Extended(Run([Init(max, now)], []), Page(0, botId, true));
    r := Extended(r, Page(1, botId, true));
    r := Extended(r, Opened(0));
    assert Last(r).live == [Running(botId, now, 0)];
    assert Last(r).launches[0].phase == Settled(true);
    r := Extended(r, WaiterHears(1));
    r := Extended(r, OwnerHears(0));
    r := Extended(r, Page(2, botId, true));
  }
}

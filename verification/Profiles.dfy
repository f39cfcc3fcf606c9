/**
 agent-computer/src/profiles.ts as it runs: the maps `live` and `starting` updated in place, one method
 for each stretch between two awaits. Every method is a step of `BrowserPools`, so what is proved there
 and in `SingleFlight` holds of every interleaving of these methods.
 */
module ProfilesStore {
  import opened BrowserEvictions
  import opened BrowserPools

  class Profiles {
    const max: real
    var now: int
    var live: seq<Running>
    var starting: map<string, nat>
    var launches: seq<Launch>
    var callers: map<nat, Caller>

    ghost function State(): Pool
      reads this
    {
      Pool(max, now, live, starting, launches, callers)
    }

    constructor (max: real, now: int)
      ensures State() == Init(max, now)
    {
      this.max, this.now := max, now;
      live, starting, launches, callers := [], map[], [], map[];
    }

    /** A request for a Bot's page, up to its first `await` or its return. */
    method Page(caller: nat, botId: string, healthy: bool)
      requires Enabled(State(), Action.Page(caller, botId, healthy))
      modifies this
      ensures State() == Step(old(State()), Action.Page(caller, botId, healthy))
    {
      if botId in starting {
        callers := callers[caller := WaitingFor(starting[botId])];
        return;
      }
      var i := IndexOf(live, botId);
      if i < |live| {
        if healthy {
          live := live[i := live[i].(usedAt := now)];
          callers := callers[caller := GotPage(live[i].page)];
        } else {
          callers := callers[caller := ClosingHalfDead(botId)];
        }
      } else {
        Launch(caller, botId);
      }
    }

    /** The half-dead context is closed: its Bot's entry goes, and this call launches. */
    method HalfDeadClosed(caller: nat)
      requires Enabled(State(), Action.HalfDeadClosed(caller))
      modifies this
      ensures State() == Step(old(State()), Action.HalfDeadClosed(caller))
    {
      var botId := callers[caller].botId;
      live := LiveDelete(live, botId);
      Launch(caller, botId);
    }

    method Launch(caller: nat, botId: string)
      modifies this
      ensures State() == BeginLaunch(old(State()), caller, botId)
    {
      var launch := |launches|;
      launches := launches + [BrowserPools.Launch(botId, caller, Opening)];
      starting := starting[botId := launch];
      callers := callers[caller := Owning(launch)];
    }

    /** A browser is up: into the map, then the cap, up to the closing of the first victim. */
    method Opened(launch: nat)
      requires Enabled(State(), Action.Opened(launch))
      modifies this
      ensures State() == Step(old(State()), Action.Opened(launch))
    {
      live := LiveSet(live, Running(launches[launch].botId, now, launch));
      EvictNext(launch, ChooseEvictions(live, max));
    }

    method VictimClosed(launch: nat)
      requires Enabled(State(), Action.VictimClosed(launch))
      modifies this
      ensures State() == Step(old(State()), Action.VictimClosed(launch))
    {
      EvictNext(launch, launches[launch].phase.victims);
    }

    /** One turn of the loop over the victims, or the end of the launch after the last. */
    method EvictNext(launch: nat, victims: seq<string>)
      requires launch < |launches|
      modifies this
      ensures State() == EvictFirst(old(State()), launch, victims)
    {
      if victims == [] {
        Settle(launch, Settled(true));
      } else {
        live := LiveDelete(live, victims[0]);
        Settle(launch, Capping(victims[1..]));
      }
    }

    method Settle(launch: nat, phase: Phase)
      requires launch < |launches|
      modifies this
      ensures State() == WithPhase(old(State()), launch, phase)
    {
      launches := launches[launch := launches[launch].(phase := phase)];
    }

    method OpeningFails(launch: nat)
      requires Enabled(State(), Action.OpeningFails(launch))
      modifies this
      ensures State() == Step(old(State()), Action.OpeningFails(launch))
    {
      Settle(launch, Settled(false));
    }

    /** The `finally`: on success and on failure alike the Bot leaves `starting`. */
    method OwnerHears(caller: nat)
      requires Enabled(State(), Action.OwnerHears(caller))
      modifies this
      ensures State() == Step(old(State()), Action.OwnerHears(caller))
    {
      var launch := callers[caller].launch;
      starting := starting - {launches[launch].botId};
      callers := callers[caller := if launches[launch].phase.ok then GotPage(launch) else Rejected];
    }

    method WaiterHears(caller: nat)
      requires Enabled(State(), Action.WaiterHears(caller))
      modifies this
      ensures State() == Step(old(State()), Action.WaiterHears(caller))
    {
      var launch := callers[caller].launch;
      callers := callers[caller := if launches[launch].phase.ok then GotPage(launch) else Rejected];
    }

    /** `stop`: true exactly when there was a browser to stop. */
    method Stop(botId: string) returns (stopped: bool)
      requires Enabled(State(), TakesOut(botId))
      modifies this
      ensures State() == Step(old(State()), TakesOut(botId))
      ensures stopped <==> old(exists i :: 0 <= i < |live| && live[i].botId == botId)
      ensures DistinctBots(old(live)) ==> forall x :: x in live <==> x in old(live) && x.botId != botId
    {
      stopped := IndexOf(live, botId) < |live|;
      if DistinctBots(live) {
        Without(live, botId);
      }
      if stopped {
        live := LiveDelete(live, botId);
      }
    }

    method CloseEverything()
      requires Enabled(State(), CloseAll)
      modifies this
      ensures State() == Step(old(State()), CloseAll) && live == []
    {
      live := [];
    }
  }

  /** What is left when one Bot's entry goes. */
  lemma Without(live: seq<Running>, botId: string)
    requires DistinctBots(live)
    ensures forall x :: x in LiveDelete(live, botId) <==> x in live && x.botId != botId
  {
    var i, r := IndexOf(live, botId), LiveDelete(live, botId);
    forall x | x in live && x.botId != botId
      ensures x in r
    {
      var j :| 0 <= j < |live| && live[j] == x;
      assert i < |live| ==> r[if j < i then j else j - 1] == x;
    }
  }
}

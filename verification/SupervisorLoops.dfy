/**
 The verbs of supervisor/src/docker.ts written as they are, a loop and calls that may throw, each shown
 to make exactly the calls of the transition system in `Supervisors`. `replies` says what the daemon
 makes of each call; nothing else happens between them here, and interleaving is what `Supervisors` adds.
 */
module SupervisorLoops {
  import opened Prelude
  import opened Names
  import opened Supervisors

  // ---- the wait for an answer ----

  /** One look at a started container: Docker did not say, or its health and whether it runs. */
  datatype Look = Unreachable | Seen(health: Option<string>, running: bool)

  /** An image without a health check is taken at running. */
  predicate Answers(l: Look) {
    && l.Seen?
    && if l.health.None? || l.health.value == "" then l.running else l.health.value == "healthy"
  }

  /** A wait from `start`: the `i`-th look, at `clock(i)`, sees `looks(i)`. */
  datatype Wait = Wait(start: int, timeoutMs: int, clock: nat -> int, looks: nat -> Look)

  ghost predicate Ticks(w: Wait) { forall i: nat :: w.clock(i) < w.clock(i + 1) }

  /** Some look before the deadline is an answer. */
  ghost predicate AnsweredInTime(w: Wait) {
    exists i: nat :: w.clock(i) < w.start + w.timeoutMs && Answers(w.looks(i))
  }

  lemma {:induction false} ClockGrows(w: Wait, i: nat, j: nat)
    requires Ticks(w) && i <= j
    ensures w.clock(i) <= w.clock(j)
    decreases j
  {
    if i < j {
      ClockGrows(w, i, j - 1);
      assert w.clock(j - 1) < w.clock(j - 1 + 1);
    }
  }

  /** Looks until the deadline. The deadline is a failure, and the loop always ends. */
  method WaitUntilAnswering(w: Wait) returns (answered: bool)
    requires Ticks(w)
    ensures answered <==> AnsweredInTime(w)
  {
    var deadline := w.start + w.timeoutMs;
    var i := 0;
    while w.clock(i) < deadline
      invariant forall j: nat :: j < i ==> !Answers(w.looks(j))
      decreases deadline - w.clock(i)
    {
      if Answers(w.looks(i)) {
        return true;
      }
      assert w.clock(i) < w.clock(i + 1);
      i := i + 1;
    }
    forall j: nat | w.clock(j) < deadline
      ensures !Answers(w.looks(j))
    {
      if j >= i {
        ClockGrows(w, i, j);
      }
    }
    return false;
  }

  // ---- a request by itself ----

  /** Everything a request hears: what is made of its calls, and whether its wait is answered. */
  datatype Oracle = Oracle(replies: nat -> Reply, answered: bool, namespace: string) {
    function To(r: Request, at: nat): Reply {
      if !r.pc.AwaitingAnswer? then replies(at) else if answered then Fine(0) else Unhealthy
    }
  }

  function Begin(verb: Verb, names: ComputerNames): (r: Request)
    ensures WellRun(r)
  {
    Request(verb, names, Inspecting, ATTEMPTS, 0)
  }

  /** A request driven to its end, one call after another. */
  function Driven(d: Docker, r: Request, o: Oracle, at: nat): (Docker, Pc)
    requires WellRun(r)
    decreases CallsLeft(r)
  {
    if Ended(r) then (d, r.pc)
    else
      var (d', r') := CallStep(d, r, o.To(r, at), o.namespace);
      CallRunsWell(d, r, o.To(r, at), o.namespace);
      CallNearerEnd(d, r, o.To(r, at), o.namespace);
      Driven(d', r', o, at + 1)
  }

  /** One call, and the rest. */
  lemma OneCall(d: Docker, r: Request, o: Oracle, at: nat)
    requires WellRun(r) && !Ended(r)
    ensures var (d', r') := CallStep(d, r, o.To(r, at), o.namespace);
            WellRun(r') && Driven(d, r, o, at) == (if Ended(r') then (d', r'.pc) else Driven(d', r', o, at + 1))
  {
    CallRunsWell(d, r, o.To(r, at), o.namespace);
  }

  /** A request driven to its end has ended as its verb may: `ensure` never by falling out of its loop. */
  lemma {:induction false} DrivenEnds(d: Docker, r: Request, o: Oracle, at: nat)
    requires WellRun(r)
    ensures var end := Driven(d, r, o, at).1;
            && (end.FailedWith? ==> end.failure != RemovedWhileStarting)
            && (r.verb.Ensure? ==> end.Ensured? || end.FailedWith?)
            && (!r.verb.Ensure? ==> end.Answered? || end.FailedWith?)
    decreases CallsLeft(r)
  {
    if !Ended(r) {
      var (d', r') := CallStep(d, r, o.To(r, at), o.namespace);
      CallRunsWell(d, r, o.To(r, at), o.namespace);
      CallNearerEnd(d, r, o.To(r, at), o.namespace);
      DrivenEnds(d', r', o, at + 1);
    }
  }

  function Last(r: Run): System
    requires |r.states| > 0
  {
    r.states[|r.states| - 1]
  }

  lemma Extended(r: Run, a: Action) returns (s: Run)
    requires IsRun(r) && Enabled(Last(r), a)
    ensures IsRun(s) && s.states[0] == r.states[0] && Last(s) == Step(Last(r), a)
  {
    s := Run(r.states + [Step(Last(r), a)], r.actions + [a]);
    forall k | 0 <= k < |s.actions|
      ensures Enabled(s.states[k], s.actions[k]) && s.states[k + 1] == Step(s.states[k], s.actions[k])
    {
      assert s.states[k] == r.states[k];
    }
  }

  /** What a request comes to by itself is a run of the system: it arrives, and makes its calls one after another. */
  lemma DrivenIsARun(namespace: string, docker: Docker, id: nat, verb: Verb, botId: string, o: Oracle) returns (s: Run)
    requires NamesFor(namespace, botId).Named? && o.namespace == namespace
    ensures IsRun(s) && s.states[0] == System(namespace, docker, map[]) && id in Last(s).requests
    ensures var (d', end) := Driven(docker, Begin(verb, NamesFor(namespace, botId).names), o, 0);
            Last(s).docker == d' && Last(s).requests[id].pc == end
  {
    s := Extended(Run([System(namespace, docker, map[])], []), Arrive(id, verb, botId));
    s := CallsAreARun(s, id, o, 0);
  }

  lemma {:induction false} CallsAreARun(r: Run, id: nat, o: Oracle, at: nat) returns (s: Run)
    requires IsRun(r) && id in Last(r).requests && WellRun(Last(r).requests[id]) && o.namespace == Last(r).namespace
    ensures IsRun(s) && s.states[0] == r.states[0] && id in Last(s).requests
    ensures var (d', end) := Driven(Last(r).docker, Last(r).requests[id], o, at);
            Last(s).docker == d' && Last(s).requests[id].pc == end
    decreases CallsLeft(Last(r).requests[id])
  {
    s := r;
    var request := Last(r).requests[id];
    if !Ended(request) {
      var reply := o.To(request, at);
      CallRunsWell(Last(r).docker, request, reply, o.namespace);
      CallNearerEnd(Last(r).docker, request, reply, o.namespace);
      OneCall(Last(r).docker, request, o, at);
      s := Extended(r, Call(id, reply));
      s := CallsAreARun(s, id, o, at + 1);
    }
  }

  // ---- what a request by itself comes to ----

  /** The name is free or its container is one of ours; once a request acts, it is there, and runs when it is to answer. */
  predicate OnCourse(d: Docker, r: Request, namespace: string) {
    var name := r.names.container;
    && r.verb.Ensure? && !r.pc.FailedWith? && !r.pc.Ensured?
    && (name in d.containers ==> Ours(d.containers[name].labels, namespace))
    && (r.pc.Rechecking? || r.pc.Starting? || r.pc.Settling? || r.pc.AwaitingAnswer? ==> name in d.containers)
    && (r.pc.Settling? || r.pc.AwaitingAnswer? ==> d.containers[name].status.Running?)
    && (r.pc.AwaitingAnswer? ==> r.pc.settled == Some(Info(Running, d.containers[name].port)))
  }

  /** The daemon answers every call from here on, save that one container may once be gone when it is to start. */
  ghost predicate Obliging(o: Oracle, at: nat, gone: nat) {
    forall i: nat :: i >= at ==> o.replies(i).Fine? || (i == gone && o.replies(i).NotThere?)
  }

  lemma CourseKept(d: Docker, r: Request, o: Oracle, at: nat, gone: nat)
    requires WellRun(r) && OnCourse(d, r, o.namespace) && Obliging(o, at, gone) && (r.attempt == ATTEMPTS || at > gone)
    ensures var (d', r') := CallStep(d, r, o.To(r, at), o.namespace);
            && r'.names == r.names
            && (!r.pc.AwaitingAnswer? ==> OnCourse(d', r', o.namespace) && (r'.attempt == ATTEMPTS || at + 1 > gone))
            && (r.pc.AwaitingAnswer? ==> d' == d)
            && (r.pc.AwaitingAnswer? ==>
                  r'.pc == if o.answered then Ensured(Some(Info(Running, d.containers[r.names.container].port)))
                           else FailedWith(ComputerNotAnswering))
            && (forall name :: name in d.containers ==>
                  name in d'.containers && d'.containers[name].labels == d.containers[name].labels)
  {
    assert o.replies(at).Fine? || o.replies(at).NotThere?;
  }

  /** On an obliging daemon `ensure` brings its computer up, and says whether it answers. */
  lemma {:induction false} BringsUp(d: Docker, r: Request, o: Oracle, at: nat, gone: nat)
    requires WellRun(r) && OnCourse(d, r, o.namespace) && Obliging(o, at, gone) && (r.attempt == ATTEMPTS || at > gone)
    ensures var (d', end) := Driven(d, r, o, at);
            && r.names.container in d'.containers && d'.containers[r.names.container].status.Running?
            && Ours(d'.containers[r.names.container].labels, o.namespace)
            && end == if o.answered then Ensured(Some(Info(Running, d'.containers[r.names.container].port)))
                      else FailedWith(ComputerNotAnswering)
    decreases CallsLeft(r)
  {
    var (d', r') := CallStep(d, r, o.To(r, at), o.namespace);
    CallRunsWell(d, r, o.To(r, at), o.namespace);
    CallNearerEnd(d, r, o.To(r, at), o.namespace);
    CourseKept(d, r, o, at, gone);
    OneCall(d, r, o, at);
    if !r.pc.AwaitingAnswer? {
      assert Obliging(o, at + 1, gone);
      BringsUp(d', r', o, at + 1, gone);
    }
  }

  /** What is missing is made in its order: the profile, the workspace, and the container with its Bot's labels. */
  predicate Building(d: Docker, r: Request, namespace: string) {
    var name, profile, workspace := r.names.container, r.names.profileVolume, r.names.workspaceVolume;
    if name !in d.containers then
      && (r.pc.Inspecting? || r.pc.MakingProfile? || r.pc.MakingWorkspace? || r.pc.Creating?)
      && (r.pc.MakingWorkspace? || r.pc.Creating? ==> profile in d.volumes)
      && (r.pc.Creating? ==> workspace in d.volumes)
    else
      && d.containers[name].labels == Labels(Some("true"), Some(namespace), Some(r.names.botId))
      && profile in d.volumes && workspace in d.volumes
  }

  /** Of a Bot that had no container, all of it is there in the end. */
  lemma {:induction false} MakesAll(d: Docker, r: Request, o: Oracle, at: nat, gone: nat)
    requires WellRun(r) && OnCourse(d, r, o.namespace) && Obliging(o, at, gone) && (r.attempt == ATTEMPTS || at > gone)
    requires Building(d, r, o.namespace)
    ensures var (d', end) := Driven(d, r, o, at);
            && r.names.container in d'.containers
            && d'.containers[r.names.container].labels == Labels(Some("true"), Some(o.namespace), Some(r.names.botId))
            && r.names.profileVolume in d'.volumes && r.names.workspaceVolume in d'.volumes
    decreases CallsLeft(r)
  {
    var (d', r') := CallStep(d, r, o.To(r, at), o.namespace);
    CallRunsWell(d, r, o.To(r, at), o.namespace);
    CallNearerEnd(d, r, o.To(r, at), o.namespace);
    CourseKept(d, r, o, at, gone);
    OneCall(d, r, o, at);
    if !r.pc.AwaitingAnswer? {
      assert Obliging(o, at + 1, gone);
      BuildingKept(d, r, o, at, gone);
      MakesAll(d', r', o, at + 1, gone);
    }
  }

  lemma BuildingKept(d: Docker, r: Request, o: Oracle, at: nat, gone: nat)
    requires WellRun(r) && OnCourse(d, r, o.namespace) && Obliging(o, at, gone) && !r.pc.AwaitingAnswer?
    requires Building(d, r, o.namespace)
    ensures var (d', r') := CallStep(d, r, o.To(r, at), o.namespace);
            Building(d', r', o.namespace)
  {
    assert o.replies(at).Fine? || o.replies(at).NotThere?;
  }

  /** Held by another's container, on a daemon that answers, the name is refused and nothing about it changes. */
  lemma {:induction false} HeldIsRefused(d: Docker, r: Request, o: Oracle, at: nat)
    requires WellRun(r) && r.verb.Ensure? && (forall i: nat :: i >= at ==> o.replies(i).Fine?)
    requires r.pc.Inspecting? || r.pc.MakingProfile? || r.pc.MakingWorkspace? || r.pc.Creating? || r.pc.Rechecking?
    requires r.names.container in d.containers && !Ours(d.containers[r.names.container].labels, o.namespace)
    ensures var (d', end) := Driven(d, r, o, at);
            d'.containers == d.containers && end == FailedWith(NameHeld)
    decreases CallsLeft(r)
  {
    var (d', r') := CallStep(d, r, o.To(r, at), o.namespace);
    CallRunsWell(d, r, o.To(r, at), o.namespace);
    CallNearerEnd(d, r, o.To(r, at), o.namespace);
    OneCall(d, r, o, at);
    if !r.pc.Rechecking? {
      HeldIsRefused(d', r', o, at + 1);
    }
  }

  /** How a request ends says whether its wait was answered. */
  lemma {:induction false} EndTellsAnswer(d: Docker, r: Request, o: Oracle, at: nat)
    requires WellRun(r) && !r.pc.Ensured? && r.pc != FailedWith(ComputerNotAnswering)
    ensures var end := Driven(d, r, o, at).1;
            && (end.Ensured? ==> o.answered)
            && (end == FailedWith(ComputerNotAnswering) ==> !o.answered)
    decreases CallsLeft(r)
  {
    if !Ended(r) {
      var (d', r') := CallStep(d, r, o.To(r, at), o.namespace);
      CallRunsWell(d, r, o.To(r, at), o.namespace);
      CallNearerEnd(d, r, o.To(r, at), o.namespace);
      OneCall(d, r, o, at);
      if !r.pc.AwaitingAnswer? {
        EndTellsAnswer(d', r', o, at + 1);
      }
    }
  }

  // ---- the verbs ----

  /** An error that no verb expects; the call behind it may have taken effect. */
  predicate Throws(reply: Reply) { reply.Fault? || reply.Lost? }

  class Supervisor {
    const namespace: string
    var docker: Docker

    constructor (namespace: string, docker: Docker)
      ensures this.namespace == namespace && this.docker == docker
    {
      this.namespace, this.docker := namespace, docker;
    }

    ghost function OracleOf(replies: nat -> Reply, wait: Wait): Oracle {
      Oracle(replies, AnsweredInTime(wait), namespace)
    }

    /** Creating one volume; one that is there already is success. */
    method MakeVolume(r: Request, volume: string, ghost o: Oracle, reply: Reply, ghost at: nat) returns (ok: bool)
      requires WellRun(r) && r.verb.Ensure? && o.namespace == namespace && reply == o.replies(at)
      requires (r.pc.MakingProfile? && volume == r.names.profileVolume)
            || (r.pc.MakingWorkspace? && volume == r.names.workspaceVolume)
      modifies this
      ensures var next := r.(pc := if r.pc.MakingProfile? then MakingWorkspace else Creating);
              Driven(old(docker), r, o, at) ==
              if ok then Driven(docker, next, o, at + 1) else (docker, FailedWith(DockerUnavailable))
    {
      OneCall(docker, r, o, at);
      if reply.Fault? {
        return false;
      }
      docker := docker.(volumes := docker.volumes + {volume});
      return !reply.Lost?;
    }

    /** Creating the container; a name that is held is fine when it is one of ours that holds it. */
    method Create(r: Request, replies: nat -> Reply, ghost o: Oracle, at: nat) returns (failure: Option<Failure>, calls: nat)
      requires WellRun(r) && r.verb.Ensure? && r.pc.Creating? && o.namespace == namespace && o.replies == replies
      modifies this
      ensures Driven(old(docker), r, o, at) ==
              if failure.None? then Driven(docker, r.(pc := Starting, creates := r.creates + 1), o, at + calls)
              else (docker, FailedWith(failure.value))
    {
      var name := r.names.container;
      OneCall(docker, r, o, at);
      if replies(at).Fault? {
        return Some(DockerUnavailable), 1;
      }
      if name !in docker.containers {
        docker := docker.(containers := docker.containers[name := Container(LabelsFor(r.names, namespace), Created, 0)],
                          created := docker.created + [name]);
        return if replies(at).Lost? then Some(DockerUnavailable) else None, 1;
      }
      if replies(at).Lost? {
        return Some(DockerUnavailable), 1;
      }
      OneCall(docker, r.(pc := Rechecking, creates := r.creates + 1), o, at + 1);
      if Throws(replies(at + 1)) {
        return Some(DockerUnavailable), 2;
      }
      if InspectOwned(docker, name, namespace).None? {
        return Some(NameHeld), 2;
      }
      return None, 2;
    }

    /** Making what is not there: the volumes and the container. */
    method Build(r: Request, replies: nat -> Reply, ghost o: Oracle, at: nat) returns (failure: Option<Failure>, calls: nat)
      requires WellRun(r) && r.verb.Ensure? && r.pc.MakingProfile? && o.namespace == namespace && o.replies == replies
      modifies this
      ensures Driven(old(docker), r, o, at) ==
              if failure.None? then Driven(docker, r.(pc := Starting, creates := r.creates + 1), o, at + calls)
              else (docker, FailedWith(failure.value))
    {
      var ok := MakeVolume(r, r.names.profileVolume, o, replies(at), at);
      if !ok {
        return Some(DockerUnavailable), 1;
      }
      ok := MakeVolume(r.(pc := MakingWorkspace), r.names.workspaceVolume, o, replies(at + 1), at + 1);
      if !ok {
        return Some(DockerUnavailable), 2;
      }
      failure, calls := Create(r.(pc := Creating), replies, o, at + 2);
      calls := calls + 2;
    }

    /** Starting the container: done, gone again, or an error. */
    method Start(r: Request, reply: Reply, ghost o: Oracle, ghost at: nat) returns (failure: Option<Failure>, again: bool)
      requires WellRun(r) && r.verb.Ensure? && r.pc.Starting? && o.namespace == namespace && reply == o.replies(at)
      modifies this
      ensures again ==> failure.None? && r.attempt > 1
      ensures Driven(old(docker), r, o, at) ==
              if failure.Some? then (docker, FailedWith(failure.value))
              else if again then Driven(docker, r.(attempt := r.attempt - 1, pc := Inspecting), o, at + 1)
              else Driven(docker, r.(pc := Settling), o, at + 1)
    {
      var name := r.names.container;
      OneCall(docker, r, o, at);
      if reply.Fault? {
        return Some(DockerUnavailable), false;
      }
      if name !in docker.containers || reply.NotThere? {
        if r.attempt > 1 && !reply.Lost? {
          return None, true;
        }
        return Some(DockerUnavailable), false;
      }
      if !docker.containers[name].status.Running? {
        docker := WithStatus(docker, name, Running, if reply.Fine? || reply.Lost? then reply.port else 0);
      }
      return if reply.Lost? then Some(DockerUnavailable) else None, false;
    }

    /** The state reported, and the wait until the computer answers. */
    method Settle(r: Request, reply: Reply, wait: Wait, ghost o: Oracle, ghost at: nat) returns (end: Pc)
      requires WellRun(r) && r.verb.Ensure? && r.pc.Settling? && Ticks(wait)
      requires o.namespace == namespace && reply == o.replies(at) && o.answered == AnsweredInTime(wait)
      ensures Driven(docker, r, o, at) == (docker, end)
    {
      OneCall(docker, r, o, at);
      if Throws(reply) {
        return FailedWith(DockerUnavailable);
      }
      var settled := InspectOwned(docker, r.names.container, namespace);
      OneCall(docker, r.(pc := AwaitingAnswer(settled)), o, at + 1);
      var answered := WaitUntilAnswering(wait);
      return if answered then Ensured(settled) else FailedWith(ComputerNotAnswering);
    }

    /** The end of a turn, from the start of a container that is not running, if it is not. */
    method Finish(r: Request, replies: nat -> Reply, wait: Wait, ghost o: Oracle, at: nat) returns (end: Option<Pc>)
      requires WellRun(r) && r.verb.Ensure? && (r.pc.Starting? || r.pc.Settling?) && Ticks(wait)
      requires o == OracleOf(replies, wait)
      modifies this
      ensures end.None? ==> r.attempt > 1
      ensures Driven(old(docker), r, o, at) ==
              if end.Some? then (docker, end.value)
              else Driven(docker, r.(attempt := r.attempt - 1, pc := Inspecting), o, at + 1)
    {
      var calls := 0;
      if r.pc.Starting? {
        var failure, again := Start(r, replies(at), o, at);
        if failure.Some? {
          return Some(FailedWith(failure.value));
        }
        if again {
          return None;
        }
        calls := 1;
      }
      var pc := Settle(r.(pc := Settling), replies(at + calls), wait, o, at + calls);
      return Some(pc);
    }

    /** The first half of a turn: look, and make what is missing. */
    method Prepare(r: Request, replies: nat -> Reply, ghost o: Oracle, at: nat)
      returns (failure: Option<Failure>, next: Request, calls: nat)
      requires WellRun(r) && r.verb.Ensure? && r.pc.Inspecting? && o.namespace == namespace && o.replies == replies
      modifies this
      ensures failure.None? ==>
                && WellRun(next) && (next.pc.Starting? || next.pc.Settling?)
                && next == r.(pc := next.pc, creates := next.creates)
      ensures Driven(old(docker), r, o, at) ==
              if failure.None? then Driven(docker, next, o, at + calls) else (docker, FailedWith(failure.value))
    {
      next, calls := r, 1;
      OneCall(docker, r, o, at);
      if Throws(replies(at)) {
        return Some(DockerUnavailable), next, calls;
      }
      var existing := InspectOwned(docker, r.names.container, namespace);
      if existing.Some? {
        return None, r.(pc := if existing.value.status.Running? then Settling else Starting), calls;
      }
      failure, calls := Build(r.(pc := MakingProfile), replies, o, at + 1);
      next, calls := r.(pc := Starting, creates := r.creates + 1), calls + 1;
    }

    /** One turn of `ensure`'s loop: look, make what is missing, start what is not running, report. */
    method Turn(r: Request, replies: nat -> Reply, wait: Wait, at: nat) returns (end: Option<Pc>, creates: nat, calls: nat)
      requires WellRun(r) && r.verb.Ensure? && r.pc.Inspecting? && Ticks(wait)
      modifies this
      ensures end.None? ==> r.attempt > 1 && WellRun(r.(attempt := r.attempt - 1, creates := creates))
      ensures Driven(old(docker), r, OracleOf(replies, wait), at) ==
              if end.Some? then (docker, end.value)
              else Driven(docker, r.(attempt := r.attempt - 1, creates := creates), OracleOf(replies, wait), at + calls)
    {
      ghost var o := OracleOf(replies, wait);
      var failure, next, made := Prepare(r, replies, o, at);
      creates, calls := next.creates, made + 1;
      if failure.Some? {
        return Some(FailedWith(failure.value)), creates, calls;
      }
      end := Finish(next, replies, wait, o, at + made);
    }

    /**
     The loop of `ensure`: it makes the calls of the transition system, and never reaches its final throw.
     It reports a computer only if it answered in time, and as not answering only if it did not. When the
     name is free or ours, and the daemon answers but for a container that once is gone, that is how it
     ends, with the container running; a name that is another's is refused.
     */
    method Ensure(names: ComputerNames, replies: nat -> Reply, wait: Wait, ghost gone: nat) returns (end: Pc)
      requires Ticks(wait)
      modifies this
      ensures (docker, end) == Driven(old(docker), Begin(Verb.Ensure, names), OracleOf(replies, wait), 0)
      ensures end.Ensured? ==> AnsweredInTime(wait)
      ensures end == FailedWith(ComputerNotAnswering) ==> !AnsweredInTime(wait)
      ensures (forall i: nat :: replies(i).Fine? || (i == gone && replies(i).NotThere?))
              && (names.container in old(docker).containers ==>
                    Ours(old(docker).containers[names.container].labels, namespace)) ==>
                && names.container in docker.containers && docker.containers[names.container].status.Running?
                && end == if AnsweredInTime(wait) then Ensured(Some(Info(Running, docker.containers[names.container].port)))
                          else FailedWith(ComputerNotAnswering)
      ensures (forall i: nat :: replies(i).Fine?) && names.container in old(docker).containers
              && !Ours(old(docker).containers[names.container].labels, namespace) ==>
                end == FailedWith(NameHeld) && docker.containers == old(docker).containers
    {
      EnsureEnds(names, replies, wait, gone);
      var at, attempt, made := 0, ATTEMPTS, 0;
      while attempt > 0
        invariant attempt > 0 && WellRun(Request(Verb.Ensure, names, Inspecting, attempt, made))
        invariant Driven(docker, Request(Verb.Ensure, names, Inspecting, attempt, made), OracleOf(replies, wait), at)
               == Driven(old(docker), Begin(Verb.Ensure, names), OracleOf(replies, wait), 0)
        decreases attempt
      {
        var ended, creates, calls := Turn(Request(Verb.Ensure, names, Inspecting, attempt, made), replies, wait, at);
        if ended.Some? {
          return ended.value;
        }
        at, attempt, made := at + calls, attempt - 1, creates;
      }
    }

    /** What `Ensure` promises of its end, of the request by itself. */
    lemma EnsureEnds(names: ComputerNames, replies: nat -> Reply, wait: Wait, gone: nat)
      ensures var r, o := Begin(Verb.Ensure, names), OracleOf(replies, wait);
              var (d', end) := Driven(docker, r, o, 0);
              && (end.Ensured? ==> AnsweredInTime(wait))
              && (end == FailedWith(ComputerNotAnswering) ==> !AnsweredInTime(wait))
              && (Obliging(o, 0, gone) && OnCourse(docker, r, namespace) ==>
                    && names.container in d'.containers && d'.containers[names.container].status.Running?
                    && end == if AnsweredInTime(wait) then Ensured(Some(Info(Running, d'.containers[names.container].port)))
                              else FailedWith(ComputerNotAnswering))
              && ((forall i: nat :: replies(i).Fine?) && names.container in docker.containers
                  && !Ours(docker.containers[names.container].labels, namespace) ==>
                    end == FailedWith(NameHeld) && d'.containers == docker.containers)
    {
      var r, o := Begin(Verb.Ensure, names), OracleOf(replies, wait);
      EndTellsAnswer(docker, r, o, 0);
      if Obliging(o, 0, gone) && OnCourse(docker, r, namespace) {
        BringsUp(docker, r, o, 0, gone);
      }
      if (forall i: nat :: replies(i).Fine?) && names.container in docker.containers
         && !Ours(docker.containers[names.container].labels, namespace) {
        HeldIsRefused(docker, r, o, 0);
      }
    }

    /** On a daemon that answers, ours is stopped and nothing else changes; absent or another's, nothing does. */
    method Stop(names: ComputerNames, replies: nat -> Reply) returns (end: Pc)
      modifies this
      ensures (docker, end) == Driven(old(docker), Begin(Verb.Stop, names), Oracle(replies, false, namespace), 0)
      ensures InspectOwned(old(docker), names.container, namespace).None? ==> docker == old(docker)
      ensures (forall i: nat :: replies(i).Fine?) ==>
                end == Answered(names.container in old(docker).containers && Ours(old(docker).containers[names.container].labels, namespace))
      ensures end == Answered(true) ==>
                && names.container in docker.containers && !docker.containers[names.container].status.Running?
                && docker.containers[names.container].labels == old(docker).containers[names.container].labels
                && docker.containers[names.container].port == old(docker).containers[names.container].port
                && docker.volumes == old(docker).volumes && docker.containers.Keys == old(docker).containers.Keys
                && forall name :: name in docker.containers && name != names.container ==>
                     docker.containers[name] == old(docker).containers[name]
    {
      var name, r := names.container, Begin(Verb.Stop, names);
      ghost var o := Oracle(replies, false, namespace);
      OneCall(docker, r, o, 0);
      if Throws(replies(0)) {
        return FailedWith(DockerUnavailable);
      }
      if InspectOwned(docker, name, namespace).None? {
        return Answered(false);
      }
      OneCall(docker, r.(pc := Stopping), o, 1);
      if replies(1).Fault? {
        return FailedWith(DockerUnavailable);
      }
      if docker.containers[name].status.Running? {
        docker := WithStatus(docker, name, Stopped, docker.containers[name].port);
      }
      return if replies(1).Lost? then FailedWith(DockerUnavailable) else Answered(true);
    }

    /** On a daemon that answers, ours is removed with its profile, and nothing else goes; absent or another's, nothing does. */
    method Reset(names: ComputerNames, replies: nat -> Reply) returns (end: Pc)
      modifies this
      ensures (docker, end) == Driven(old(docker), Begin(Verb.Reset, names), Oracle(replies, false, namespace), 0)
      ensures InspectOwned(old(docker), names.container, namespace).None? ==> docker == old(docker)
      ensures (forall i: nat :: replies(i).Fine?) ==>
                end == Answered(names.container in old(docker).containers && Ours(old(docker).containers[names.container].labels, namespace))
      ensures end == Answered(true) ==>
                && docker.containers == old(docker).containers - {names.container}
                && (replies(2).NotThere? || docker.volumes == old(docker).volumes - {names.profileVolume})
    {
      var name, r := names.container, Begin(Verb.Reset, names);
      ghost var o := Oracle(replies, false, namespace);
      OneCall(docker, r, o, 0);
      if Throws(replies(0)) {
        return FailedWith(DockerUnavailable);
      }
      if InspectOwned(docker, name, namespace).None? {
        return Answered(false);
      }
      OneCall(docker, r.(pc := Removing), o, 1);
      if replies(1).Fault? {
        return FailedWith(DockerUnavailable);
      }
      docker := docker.(containers := docker.containers - {name});
      if replies(1).Lost? {
        return FailedWith(DockerUnavailable);
      }
      OneCall(docker, r.(pc := RemovingProfile), o, 2);
      if replies(2).Fault? {
        return FailedWith(DockerUnavailable);
      }
      if !replies(2).NotThere? {
        docker := docker.(volumes := docker.volumes - {names.profileVolume});
      }
      return if replies(2).Lost? then FailedWith(DockerUnavailable) else Answered(true);
    }
  }
}

/**
 supervisor/src/docker.ts: any number of `ensure`, `stop` and `reset` requests, interleaved at every
 Docker call they await. One call is one step; the daemon may fail any of them.
 */
module Supervisors {
  import opened Prelude
  import opened Names

  /** The labels of a container: the owner's, the deployment's and the Bot's. */
  datatype Labels = Labels(owner: Option<string>, namespace: Option<string>, botId: Option<string>)

  /** Ownership, read off the labels alone; an unlabelled namespace counts as the default one. */
  predicate Ours(labels: Labels, namespace: string) {
    labels.owner == Some("true")
    && (if labels.namespace.Some? then labels.namespace.value else DEFAULT_NAMESPACE) == namespace
  }

  function LabelsFor(names: ComputerNames, namespace: string): (l: Labels)
    ensures Ours(l, namespace)
  {
    Labels(Some("true"), Some(namespace), Some(names.botId))
  }

  datatype Status = Created | Running | Stopped

  datatype Container = Container(labels: Labels, status: Status, port: nat)

  /** The daemon: containers by name, volumes by name, and the names of the containers it created, in order. */
  datatype Docker = Docker(containers: map<string, Container>, volumes: set<string>, created: seq<string>)

  datatype Info = Info(status: Status, port: nat)

  /** One computer, if this deployment owns it; another's container is as good as absent. */
  function InspectOwned(d: Docker, name: string, namespace: string): Option<Info> {
    if name in d.containers && Ours(d.containers[name].labels, namespace)
    then Some(Info(d.containers[name].status, d.containers[name].port))
    else None
  }

  // ---- requests ----

  datatype Verb = Ensure | Stop | Reset

  datatype Failure = DockerUnavailable | NameHeld | ComputerNotAnswering | RemovedWhileStarting

  /** The Docker call a request is waiting for, or how it ended. */
  datatype Pc =
    | Inspecting
    | MakingProfile
    | MakingWorkspace
    | Creating
    | Rechecking
    | Starting
    | Settling
    | AwaitingAnswer(settled: Option<Info>)
    | Stopping
    | Removing
    | RemovingProfile
    | Ensured(state: Option<Info>)
    | Answered(acted: bool)
    | FailedWith(failure: Failure)

  /** `attempt` counts down as the loop's variable does; `creates` counts the calls to create. */
  datatype Request = Request(verb: Verb, names: ComputerNames, pc: Pc, attempt: nat, creates: nat)

  const ATTEMPTS: nat := 2

  predicate Ended(r: Request) { r.pc.Ensured? || r.pc.Answered? || r.pc.FailedWith? }

  /**
   What the daemon makes of a call: an error that is none of the expected ones, or an answer. An answer
   may still be that a name is not published yet or a volume is in use, or that nothing answers in time;
   and it may be lost, so that the call took effect and its request sees an error all the same.
   */
  datatype Reply = Fault | Fine(port: nat) | NotThere | Unhealthy | Lost(port: nat)

  function Fail(r: Request, failure: Failure): Request { r.(pc := FailedWith(failure)) }

  /** The next turn of `ensure`'s loop, or its final throw. */
  function NextAttempt(r: Request): Request
    requires r.attempt > 0
  {
    var left := r.attempt - 1;
    if left > 0 then r.(attempt := left, pc := Inspecting) else Fail(r.(attempt := left), RemovedWhileStarting)
  }

  function WithStatus(d: Docker, name: string, status: Status, port: nat): Docker
    requires name in d.containers
  {
    d.(containers := d.containers[name := d.containers[name].(status := status, port := port)])
  }

  /** The first look of each verb. */
  function AfterInspect(d: Docker, r: Request, namespace: string): Request {
    var existing := InspectOwned(d, r.names.container, namespace);
    match r.verb
    case Ensure =>
      if existing.None? then r.(pc := MakingProfile)
      else if existing.value.status.Running? then r.(pc := Settling)
      else r.(pc := Starting)
    case Stop => if existing.None? then r.(pc := Answered(false)) else r.(pc := Stopping)
    case Reset => if existing.None? then r.(pc := Answered(false)) else r.(pc := Removing)
  }

  function StartCall(d: Docker, r: Request, reply: Reply): (Docker, Request)
    requires r.attempt > 0
  {
    var name := r.names.container;
    if name !in d.containers || reply.NotThere? then
      (d, if r.attempt > 1 then NextAttempt(r) else Fail(r, DockerUnavailable))
    else if d.containers[name].status.Running? then (d, r.(pc := Settling))
    else (WithStatus(d, name, Running, if reply.Fine? then reply.port else 0), r.(pc := Settling))
  }

  function CreateCall(d: Docker, r: Request, namespace: string): (Docker, Request) {
    var name := r.names.container;
    var r' := r.(creates := r.creates + 1);
    if name in d.containers then (d, r'.(pc := Rechecking))
    else
      (d.(containers := d.containers[name := Container(LabelsFor(r.names, namespace), Created, 0)],
          created := d.created + [name]),
       r'.(pc := Starting))
  }

  /** What a call that is answered does, and where its request goes on. */
  function Effect(d: Docker, r: Request, reply: Reply, namespace: string): (Docker, Request)
    requires !Ended(r) && r.attempt > 0 && !r.pc.AwaitingAnswer?
  {
    var name := r.names.container;
    match r.pc
    case Inspecting => (d, AfterInspect(d, r, namespace))
    case MakingProfile => (d.(volumes := d.volumes + {r.names.profileVolume}), r.(pc := MakingWorkspace))
    case MakingWorkspace => (d.(volumes := d.volumes + {r.names.workspaceVolume}), r.(pc := Creating))
    case Creating => CreateCall(d, r, namespace)
    case Rechecking =>
      (d, if InspectOwned(d, name, namespace).None? then Fail(r, NameHeld) else r.(pc := Starting))
    case Starting => StartCall(d, r, reply)
    case Settling => (d, r.(pc := AwaitingAnswer(InspectOwned(d, name, namespace))))
    case Stopping =>
      (if name in d.containers && d.containers[name].status.Running?
       then WithStatus(d, name, Stopped, d.containers[name].port) else d,
       r.(pc := Answered(true)))
    case Removing => (d.(containers := d.containers - {name}), r.(pc := RemovingProfile))
    case RemovingProfile =>
      (if reply.NotThere? then d else d.(volumes := d.volumes - {r.names.profileVolume}), r.(pc := Answered(true)))
  }

  /** One awaited Docker call of a request, up to its next one. */
  function CallStep(d: Docker, r: Request, reply: Reply, namespace: string): (Docker, Request)
    requires !Ended(r) && r.attempt > 0
  {
    if r.pc.AwaitingAnswer? then
      (d, if reply.Unhealthy? then Fail(r, ComputerNotAnswering) else r.(pc := Ensured(r.pc.settled)))
    else
      var unanswered := Fail(if r.pc.Creating? then r.(creates := r.creates + 1) else r, DockerUnavailable);
      match reply
      case Fault => (d, unanswered)
      case Lost(port) => (Effect(d, r, Fine(port), namespace).0, unanswered)
      case _ => Effect(d, r, reply, namespace)
  }

  // ---- the system ----

  datatype System = System(namespace: string, docker: Docker, requests: map<nat, Request>)

  datatype Action =
    | Arrive(id: nat, verb: Verb, botId: string)
    | Call(id: nat, reply: Reply)
    /** A container starts, stops or moves by itself. */
    | Changes(name: string, status: Status, port: nat)
    /** Somebody takes one of ours away by hand. */
    | Vanishes(name: string)

  predicate Enabled(s: System, a: Action) {
    match a
    case Arrive(id, _, botId) => id !in s.requests && NamesFor(s.namespace, botId).Named?
    case Call(id, _) => id in s.requests && !Ended(s.requests[id]) && s.requests[id].attempt > 0
    case Changes(name, _, _) => name in s.docker.containers
    case Vanishes(name) => name in s.docker.containers && Ours(s.docker.containers[name].labels, s.namespace)
  }

  function Step(s: System, a: Action): System
    requires Enabled(s, a)
  {
    match a
    case Arrive(id, verb, botId) =>
      s.(requests := s.requests[id := Request(verb, NamesFor(s.namespace, botId).names, Inspecting, ATTEMPTS, 0)])
    case Call(id, reply) =>
      var (d, r) := CallStep(s.docker, s.requests[id], reply, s.namespace);
      s.(docker := d, requests := s.requests[id := r])
    case Changes(name, status, port) => s.(docker := WithStatus(s.docker, name, status, port))
    case Vanishes(name) => s.(docker := s.docker.(containers := s.docker.containers - {name}))
  }

  datatype Run = Run(states: seq<System>, actions: seq<Action>)

  /** Any run, from any state of the daemon, with no request yet. */
  ghost predicate IsRun(r: Run) {
    && |r.states| == |r.actions| + 1
    && r.states[0].requests == map[]
    && forall k :: 0 <= k < |r.actions| ==>
         Enabled(r.states[k], r.actions[k]) && r.states[k + 1] == Step(r.states[k], r.actions[k])
  }

  // ---- another's container ----

  predicate Foreign(s: System, name: string) {
    name in s.docker.containers && !Ours(s.docker.containers[name].labels, s.namespace)
  }

  /** Past this point a request acts on the container its name holds. */
  predicate Acting(r: Request) {
    r.pc.Starting? || r.pc.Settling? || r.pc.AwaitingAnswer? || r.pc.Ensured? || r.pc.Stopping? || r.pc.Removing?
    || r.pc.RemovingProfile? || r.pc == Answered(true)
  }

  /** Which calls each verb makes, and how its counters stand. */
  predicate WellRun(r: Request) {
    && 1 <= r.attempt <= ATTEMPTS
    && r.creates <= 1 + ATTEMPTS - r.attempt
    && (r.pc.Inspecting? || r.pc.MakingProfile? || r.pc.MakingWorkspace? || r.pc.Creating? ==>
          r.creates <= ATTEMPTS - r.attempt)
    && (r.pc.FailedWith? ==> r.pc.failure != RemovedWhileStarting)
    && (r.verb.Ensure? ==> !r.pc.Stopping? && !r.pc.Removing? && !r.pc.RemovingProfile? && !r.pc.Answered?)
    && (r.verb.Stop? ==> r.pc.Inspecting? || r.pc.Stopping? || r.pc.Answered? || r.pc.FailedWith?)
    && (r.verb.Reset? ==> r.pc.Inspecting? || r.pc.Removing? || r.pc.RemovingProfile? || r.pc.Answered? || r.pc.FailedWith?)
  }

  predicate RequestInv(s: System, r: Request) {
    && NamesFor(s.namespace, r.names.botId) == Named(r.names)
    && WellRun(r)
    && (Acting(r) ==> !Foreign(s, r.names.container))
  }

  ghost predicate Inv(s: System) {
    forall id :: id in s.requests ==> RequestInv(s, s.requests[id])
  }

  /** One call leaves every other name of the daemon alone, and another's container too. */
  lemma CallTouches(s: System, id: nat, reply: Reply)
    requires Inv(s) && Enabled(s, Call(id, reply))
    ensures var r, d, d' := s.requests[id], s.docker, Step(s, Call(id, reply)).docker;
            && (forall name :: name != r.names.container ==>
                  (name in d'.containers <==> name in d.containers)
                  && (name in d.containers ==> d'.containers[name] == d.containers[name]))
            && (forall v :: v != r.names.profileVolume && v != r.names.workspaceVolume ==>
                  (v in d'.volumes <==> v in d.volumes))
            && (r.names.workspaceVolume in d.volumes ==> r.names.workspaceVolume in d'.volumes)
            && (forall name :: Foreign(s, name) ==>
                  name in d'.containers && d'.containers[name] == d.containers[name])
            && (forall name :: name !in d.containers && name in d'.containers ==>
                  Ours(d'.containers[name].labels, s.namespace))
  {
    var r := s.requests[id];
    assert RequestInv(s, r);
    NamesSeparate(s.namespace, r.names.botId, r.names.botId);
  }

  lemma CallRunsWell(d: Docker, r: Request, reply: Reply, namespace: string)
    requires !Ended(r) && WellRun(r)
    ensures WellRun(CallStep(d, r, reply, namespace).1) && CallStep(d, r, reply, namespace).1.names == r.names
  {
  }

  /** A request reaches the calls that act only through a look that found the container ours, or by making it. */
  lemma CallActsOnOwn(d: Docker, r: Request, reply: Reply, namespace: string)
    requires !Ended(r) && r.attempt > 0
    requires Acting(r) && r.names.container in d.containers ==> Ours(d.containers[r.names.container].labels, namespace)
    ensures var (d', r') := CallStep(d, r, reply, namespace);
            Acting(r') && r.names.container in d'.containers ==>
              Ours(d'.containers[r.names.container].labels, namespace)
  {
  }

  lemma CallInv(s: System, id: nat, reply: Reply)
    requires Inv(s) && Enabled(s, Call(id, reply))
    ensures RequestInv(Step(s, Call(id, reply)), Step(s, Call(id, reply)).requests[id])
  {
    assert RequestInv(s, s.requests[id]);
    CallRunsWell(s.docker, s.requests[id], reply, s.namespace);
    CallActsOnOwn(s.docker, s.requests[id], reply, s.namespace);
  }

  lemma StepInv(s: System, a: Action)
    requires Inv(s) && Enabled(s, a)
    ensures Inv(Step(s, a))
    ensures forall name :: Foreign(s, name) <==> Foreign(Step(s, a), name)
  {
    if a.Call? {
      CallTouches(s, a.id, a.reply);
      OwnStaysOwn(s, a.id, a.reply);
      CallInv(s, a.id, a.reply);
    }
    forall id | id in Step(s, a).requests
      ensures RequestInv(Step(s, a), Step(s, a).requests[id])
    {
      if id in s.requests {
        assert RequestInv(s, s.requests[id]);
      }
    }
  }

  lemma OwnStaysOwn(s: System, id: nat, reply: Reply)
    requires Inv(s) && Enabled(s, Call(id, reply))
    ensures forall name :: Foreign(s, name) <==> Foreign(Step(s, Call(id, reply)), name)
  {
    CallTouches(s, id, reply);
    var r, s' := s.requests[id], Step(s, Call(id, reply));
    forall name | Foreign(s', name)
      ensures Foreign(s, name)
    {
      if name in s.docker.containers {
        assert s'.docker.containers[name].labels == s.docker.containers[name].labels;
      }
    }
  }

  lemma {:induction false} RunInv(r: Run, k: nat)
    requires IsRun(r) && k < |r.states|
    ensures Inv(r.states[k]) && r.states[k].namespace == r.states[0].namespace
    ensures forall name :: Foreign(r.states[0], name) <==> Foreign(r.states[k], name)
    decreases k
  {
    if k > 0 {
      RunInv(r, k - 1);
      StepInv(r.states[k - 1], r.actions[k - 1]);
    }
  }

  /** Our owner label, and our namespace's, which an old container of the default namespace does without. */
  lemma OursExactlyWhen(labels: Labels, namespace: string)
    ensures Ours(labels, namespace) <==>
              && labels.owner == Some("true")
              && (labels.namespace == Some(namespace) || (labels.namespace == None && namespace == "openbot"))
  {
  }

  /**
   Another's container is never started, stopped or removed by a request, and every `ensure` whose
   name it holds, if it has ended, has ended in an error; `stop` and `reset` have done nothing.
   */
  lemma ForeignIsLeftAlone(r: Run, k: nat, name: string)
    requires IsRun(r) && k < |r.states| && Foreign(r.states[0], name)
    ensures Foreign(r.states[k], name)
    ensures k < |r.actions| && r.actions[k].Call? ==>
              name in r.states[k + 1].docker.containers
              && r.states[k + 1].docker.containers[name] == r.states[k].docker.containers[name]
    ensures forall id ::
              id in r.states[k].requests && r.states[k].requests[id].names.container == name
              && Ended(r.states[k].requests[id]) ==>
              (r.states[k].requests[id].pc.FailedWith?
               || (!r.states[k].requests[id].verb.Ensure? && r.states[k].requests[id].pc == Answered(false)))
  {
    RunInv(r, k);
    if k < |r.actions| && r.actions[k].Call? {
      CallTouches(r.states[k], r.actions[k].id, r.actions[k].reply);
    }
    forall id | id in r.states[k].requests
      ensures RequestInv(r.states[k], r.states[k].requests[id])
    {
    }
  }

  /** A request for one Bot changes no container and no volume of another Bot. */
  lemma BotsAreIsolated(r: Run, k: nat, botId: string)
    requires IsRun(r) && k < |r.actions| && r.actions[k].Call?
    requires NamesFor(r.states[0].namespace, botId).Named?
    requires r.states[k].requests[r.actions[k].id].names.botId != botId
    ensures var names, d, d' := NamesFor(r.states[0].namespace, botId).names, r.states[k].docker, r.states[k + 1].docker;
            && (names.container in d'.containers <==> names.container in d.containers)
            && (names.container in d.containers ==> d'.containers[names.container] == d.containers[names.container])
            && (names.profileVolume in d'.volumes <==> names.profileVolume in d.volumes)
            && (names.workspaceVolume in d'.volumes <==> names.workspaceVolume in d.volumes)
  {
    RunInv(r, k);
    var s, id := r.states[k], r.actions[k].id;
    assert RequestInv(s, s.requests[id]);
    CallTouches(s, id, r.actions[k].reply);
    NamesSeparate(s.namespace, s.requests[id].names.botId, botId);
    NamesSeparate(s.namespace, botId, s.requests[id].names.botId);
  }

  lemma StepKeepsWorkspace(s: System, a: Action, botId: string)
    requires Inv(s) && Enabled(s, a) && NamesFor(s.namespace, botId).Named?
    requires NamesFor(s.namespace, botId).names.workspaceVolume in s.docker.volumes
    ensures NamesFor(s.namespace, botId).names.workspaceVolume in Step(s, a).docker.volumes
  {
    if a.Call? {
      assert RequestInv(s, s.requests[a.id]);
      CallTouches(s, a.id, a.reply);
      NamesSeparate(s.namespace, s.requests[a.id].names.botId, botId);
    }
  }

  /** No verb ever removes a workspace volume. */
  lemma {:induction false} WorkspacesStay(r: Run, j: nat, k: nat, botId: string)
    requires IsRun(r) && j <= k < |r.states| && NamesFor(r.states[0].namespace, botId).Named?
    requires NamesFor(r.states[0].namespace, botId).names.workspaceVolume in r.states[j].docker.volumes
    ensures NamesFor(r.states[0].namespace, botId).names.workspaceVolume in r.states[k].docker.volumes
    decreases k
  {
    if j < k {
      WorkspacesStay(r, j, k - 1, botId);
      RunInv(r, k - 1);
      StepKeepsWorkspace(r.states[k - 1], r.actions[k - 1], botId);
    }
  }

  // ---- every request ends, inside its loop ----

  /** How many calls a request can still make. */
  function CallsLeft(r: Request): nat {
    match r.pc
    case Inspecting => 8 * r.attempt + 5
    case MakingProfile => 8 * r.attempt + 4
    case MakingWorkspace => 8 * r.attempt + 3
    case Creating => 8 * r.attempt + 2
    case Rechecking => 8 * r.attempt + 1
    case Starting => 8 * r.attempt
    case Settling => 2
    case AwaitingAnswer(_) => 1
    case Stopping => 1
    case Removing => 2
    case RemovingProfile => 1
    case _ => 0
  }

  lemma CallNearerEnd(d: Docker, r: Request, reply: Reply, namespace: string)
    requires !Ended(r) && WellRun(r)
    ensures CallsLeft(CallStep(d, r, reply, namespace).1) < CallsLeft(r) <= 21
  {
  }

  /**
   Every call brings its request nearer its end; an `ensure` calls create at most twice, and never
   falls out of its loop to the final throw.
   */
  lemma RequestsEnd(r: Run, k: nat, id: nat)
    requires IsRun(r) && k < |r.states| && id in r.states[k].requests
    ensures r.states[k].requests[id].creates <= ATTEMPTS
    ensures r.states[k].requests[id].pc != FailedWith(RemovedWhileStarting)
    ensures !Ended(r.states[k].requests[id]) <==> Enabled(r.states[k], Call(id, Fault))
    ensures k < |r.actions| && r.actions[k].Call? && r.actions[k].id == id ==>
              id in r.states[k + 1].requests
              && CallsLeft(r.states[k + 1].requests[id]) < CallsLeft(r.states[k].requests[id]) <= 21
  {
    RunInv(r, k);
    var s := r.states[k];
    assert RequestInv(s, s.requests[id]);
    if k < |r.actions| && r.actions[k].Call? && r.actions[k].id == id {
      assert Enabled(s, r.actions[k]);
      CallNearerEnd(s.docker, s.requests[id], r.actions[k].reply, s.namespace);
    }
  }

  // ---- what each verb's calls do ----

  /** A request ends as ensured only by a wait that was answered, and as not answering only by one that was not. */
  lemma EnsuredOnlyWhenAnswered(r: Run, k: nat, id: nat)
    requires IsRun(r) && k < |r.actions| && id in r.states[k].requests && !Ended(r.states[k].requests[id])
    ensures id in r.states[k + 1].requests
    ensures r.states[k + 1].requests[id].pc.Ensured? ==>
              && r.actions[k].Call? && r.actions[k].id == id && !r.actions[k].reply.Unhealthy?
              && r.states[k].requests[id].pc.AwaitingAnswer?
              && r.states[k + 1].requests[id].pc.state == r.states[k].requests[id].pc.settled
    ensures r.states[k + 1].requests[id].pc == FailedWith(ComputerNotAnswering) ==>
              && r.actions[k].Call? && r.actions[k].id == id && r.actions[k].reply.Unhealthy?
              && r.states[k].requests[id].pc.AwaitingAnswer?
  {
  }

  /** Unless the daemon refuses it, the call of `stop` leaves its container not running and otherwise as it was. */
  lemma StopStops(r: Run, k: nat)
    requires IsRun(r) && k < |r.actions| && r.actions[k].Call? && !r.actions[k].reply.Fault?
    requires r.states[k].requests[r.actions[k].id].pc.Stopping?
    ensures var name, d, d' := r.states[k].requests[r.actions[k].id].names.container, r.states[k].docker, r.states[k + 1].docker;
            && d'.containers.Keys == d.containers.Keys && d'.volumes == d.volumes
            && (name in d.containers ==>
                  && !d'.containers[name].status.Running?
                  && d'.containers[name].labels == d.containers[name].labels)
  {
  }

  /** Unless the daemon refuses them, the calls of `reset` take the container away, and then the profile. */
  lemma ResetRemoves(r: Run, k: nat)
    requires IsRun(r) && k < |r.actions| && r.actions[k].Call? && !r.actions[k].reply.Fault?
    ensures var q, d, d' := r.states[k].requests[r.actions[k].id], r.states[k].docker, r.states[k + 1].docker;
            && (q.pc.Removing? ==> d'.containers == d.containers - {q.names.container} && d'.volumes == d.volumes)
            && (q.pc.RemovingProfile? && !r.actions[k].reply.NotThere? ==>
                  d'.volumes == d.volumes - {q.names.profileVolume} && d'.containers == d.containers)
  {
  }

  // ---- concurrent ensures ----

  /** Within the run so far, only `ensure` has been asked for this Bot, and nobody else touched its container. */
  ghost predicate OnlyEnsures(r: Run, k: nat, name: string)
    requires |r.states| == |r.actions| + 1 && k < |r.states|
  {
    && (forall j, id :: 0 <= j <= k && id in r.states[j].requests && r.states[j].requests[id].names.container == name ==>
          r.states[j].requests[id].verb.Ensure?)
    && (forall j :: 0 <= j < k && r.actions[j].Changes? ==> r.actions[j].name != name)
    && (forall j :: 0 <= j < k && r.actions[j].Vanishes? ==> r.actions[j].name != name)
  }

  function Count(s: seq<string>, x: string): nat {
    if s == [] then 0 else Count(s[..|s| - 1], x) + if s[|s| - 1] == x then 1 else 0
  }

  /** The one container of a name: made at most once, and every request past its start saw it running. */
  ghost predicate OneContainer(s: System, name: string, before: nat) {
    && before <= Count(s.docker.created, name) <= before + 1
    && (Count(s.docker.created, name) == before + 1 ==> name in s.docker.containers)
    && forall id :: id in s.requests && s.requests[id].names.container == name ==> Sees(s, name, s.requests[id])
  }

  predicate Sees(s: System, name: string, r: Request) {
    && (r.pc.Settling? || r.pc.AwaitingAnswer? || r.pc.Ensured? ==>
          name in s.docker.containers && s.docker.containers[name].status.Running?)
    && (r.pc.AwaitingAnswer? ==> r.pc.settled == Some(Info(Running, s.docker.containers[name].port)))
    && (r.pc.Ensured? ==> r.pc.state == Some(Info(Running, s.docker.containers[name].port)))
  }

  lemma CallSees(s: System, id: nat, reply: Reply, name: string, before: nat)
    requires Inv(s) && Enabled(s, Call(id, reply)) && OneContainer(s, name, before)
    requires s.requests[id].names.container == name ==> s.requests[id].verb.Ensure?
    ensures OneContainer(Step(s, Call(id, reply)), name, before)
  {
    var r, s' := s.requests[id], Step(s, Call(id, reply));
    assert RequestInv(s, r);
    CallTouches(s, id, reply);
    CreatedGrows(s, id, reply);
    if r.names.container == name {
      assert Sees(s, name, r);
      EnsureKeeps(s, id, reply);
    }
    forall other | other in s'.requests && s'.requests[other].names.container == name
      ensures Sees(s', name, s'.requests[other])
    {
      if other != id {
        assert Sees(s, name, s.requests[other]);
      }
    }
  }

  lemma CreatedGrows(s: System, id: nat, reply: Reply)
    requires Enabled(s, Call(id, reply))
    ensures var d, d', own := s.docker, Step(s, Call(id, reply)).docker, s.requests[id].names.container;
            || d'.created == d.created
            || (d'.created == d.created + [own] && own !in d.containers && own in d'.containers)
    ensures forall name :: Count(Step(s, Call(id, reply)).docker.created, name) ==
              Count(s.docker.created, name)
              + if Step(s, Call(id, reply)).docker.created != s.docker.created && name == s.requests[id].names.container
                then 1 else 0
  {
    var d, own := s.docker, s.requests[id].names.container;
    assert (d.created + [own])[..|d.created|] == d.created;
  }

  /** A call of `ensure` neither removes its container, nor stops it, nor moves it while it runs. */
  lemma EnsureKeeps(s: System, id: nat, reply: Reply)
    requires Inv(s) && Enabled(s, Call(id, reply)) && s.requests[id].verb.Ensure?
    ensures var name, d, d' := s.requests[id].names.container, s.docker, Step(s, Call(id, reply)).docker;
            name in d.containers ==>
              name in d'.containers && (d.containers[name].status.Running? ==> d'.containers[name] == d.containers[name])
  {
    assert RequestInv(s, s.requests[id]);
  }

  lemma {:induction false} EnsuresMakeOne(r: Run, k: nat, name: string)
    requires IsRun(r) && k < |r.states| && OnlyEnsures(r, k, name)
    ensures OneContainer(r.states[k], name, Count(r.states[0].docker.created, name))
    decreases k
  {
    if k > 0 {
      EnsuresMakeOne(r, k - 1, name);
      RunInv(r, k - 1);
      var s, a, before := r.states[k - 1], r.actions[k - 1], Count(r.states[0].docker.created, name);
      if a.Call? {
        CallSees(s, a.id, a.reply, name, before);
      } else {
        forall id | id in Step(s, a).requests && Step(s, a).requests[id].names.container == name
          ensures Sees(Step(s, a), name, Step(s, a).requests[id])
        {
          if id in s.requests {
            assert Sees(s, name, s.requests[id]);
          }
        }
      }
    }
  }

  /**
   With no stop or reset of a Bot, any number of concurrent ensures of it create at most one container,
   and all that have returned report that container running, at the same address.
   */
  lemma ConcurrentEnsuresAgree(r: Run, k: nat, name: string, a: nat, b: nat)
    requires IsRun(r) && k < |r.states| && OnlyEnsures(r, k, name)
    requires a in r.states[k].requests && b in r.states[k].requests
    requires r.states[k].requests[a].names.container == name && r.states[k].requests[b].names.container == name
    requires r.states[k].requests[a].pc.Ensured? && r.states[k].requests[b].pc.Ensured?
    ensures Count(r.states[k].docker.created, name) <= Count(r.states[0].docker.created, name) + 1
    ensures name in r.states[k].docker.containers && r.states[k].docker.containers[name].status.Running?
    ensures r.states[k].requests[a].pc.state == r.states[k].requests[b].pc.state
         == Some(Info(Running, r.states[k].docker.containers[name].port))
  {
    EnsuresMakeOne(r, k, name);
    assert Sees(r.states[k], name, r.states[k].requests[a]);
    assert Sees(r.states[k], name, r.states[k].requests[b]);
  }
}

/**
 Deploying a compose file by driving the Docker daemon directly: the plain deployment and the
 streamed one, which emits progress events and rolls back.

 Names are unique in the daemon, and no other client acts on it during a run.  A run asks the daemon to
 create, start or remove a name at most once, so a set of names per request says all of its refusals.
 */
module Deploy {
  import opened Common
  import opened DeploySession
  import opened StartOrder
  import ComposeLabels
  import Paths
  import StackStore

  // ----- The daemon -----

  /** A container as the daemon knows it; one that is created is not running yet. */
  datatype Status = Status(running: bool, labels: map<string, string>)

  /** The containers there are, by name. */
  type Containers = map<string, Status>

  type Services = map<string, Service>

  /** What the daemon refuses although it could be done: pulls by their number, the rest by name. */
  datatype Refusals = Refusals(pull: set<nat>, create: set<string>, start: set<string>, remove: set<string>)

  class Daemon {
    const refuses: Refusals
    var containers: Containers
    var images: set<string>
    /** How many pulls were asked for. */
    var pulls: nat
    /** Names in the order in which they were started. */
    ghost var startLog: seq<string>
    /** Every attempted removal and whether it worked. */
    ghost var removals: seq<(string, bool)>

    constructor (refuses: Refusals, containers: Containers)
      ensures this.refuses == refuses && this.containers == containers
      ensures pulls == 0 && startLog == [] && removals == []
    {
      this.refuses, this.containers, images, pulls := refuses, containers, {}, 0;
      startLog, removals := [], [];
    }

    method InspectImage(image: string) returns (present: bool)
      ensures present ==> image in images
    {
      present := *;
      present := present && image in images;
    }

    method PullImage(image: string) returns (err: Option<string>)
      modifies this`images, this`pulls
      ensures err.Some? <==> old(pulls) in refuses.pull
      ensures pulls == old(pulls) + 1
      ensures images == if err.None? then old(images) + {image} else old(images)
    {
      var message: string := *;
      err := if pulls in refuses.pull then Some(message) else None;
      pulls := pulls + 1;
      if err.None? {
        images := images + {image};
      }
    }

    method Create(name: string, labels: map<string, string>) returns (err: Option<string>)
      modifies this`containers
      ensures err.Some? <==> name in old(containers) || name in refuses.create
      ensures containers == if err.None? then old(containers)[name := Status(false, labels)] else old(containers)
    {
      if name in containers {
        return Some("name is already in use");
      }
      if name in refuses.create {
        var message: string := *;
        return Some(message);
      }
      containers := containers[name := Status(false, labels)];
      return None;
    }

    method Start(name: string) returns (err: Option<string>)
      requires name in containers
      modifies this`containers, this`startLog
      ensures err.Some? <==> name in refuses.start
      ensures containers ==
        if err.None? then old(containers)[name := old(containers)[name].(running := true)] else old(containers)
      ensures startLog == if err.None? then old(startLog) + [name] else old(startLog)
    {
      if name in refuses.start {
        var message: string := *;
        return Some(message);
      }
      containers := containers[name := containers[name].(running := true)];
      startLog := startLog + [name];
      return None;
    }

    /** A forced removal; the caller ignores whether it worked. */
    method Remove(name: string)
      modifies this`containers, this`removals
      ensures containers == if name in refuses.remove then old(containers) else old(containers) - {name}
      ensures removals == old(removals) + [(name, name !in refuses.remove)]
    {
      if name !in refuses.remove {
        containers := containers - {name};
      }
      removals := removals + [(name, name !in refuses.remove)];
    }
  }

  // ----- Names -----

  function ContainerName(project: string, service: string): string {
    project + "_" + service
  }

  lemma NamesDiffer(project: string, a: string, b: string)
    ensures ContainerName(project, a) == ContainerName(project, b) ==> a == b
  {
    assert ContainerName(project, a)[|project| + 1..] == a && ContainerName(project, b)[|project| + 1..] == b;
  }

  function Names(project: string, services: seq<string>): seq<string> {
    seq(|services|, i requires 0 <= i < |services| => ContainerName(project, services[i]))
  }

  // ----- What a service's container looks like -----

  /** The agent's settings: where compose files are kept, and how a label that is no string prints. */
  datatype Agent = Agent(basePath: string, render: ComposeLabels.Item -> string)

  /** One deployment: of these services, under this project name. */
  datatype Plan = Plan(agent: Agent, project: string, services: Services)

  /** The zero service stands for a name that only occurs in a `depends_on`. */
  function ServiceNamed(services: Services, name: string): Service {
    if name in services then services[name] else Service("", OtherForm, None, None)
  }

  function UserLabels(agent: Agent, service: Service): map<string, string> {
    match service.labels
    case None => map[]
    case Some(labels) => ComposeLabels.ParseLabels(labels, agent.render)
  }

  /** The agent's own labels; those from the compose file win over them. */
  function ContainerLabels(project: string, composePath: string, service: string, user: map<string, string>)
    : map<string, string>
  {
    map["dockpal.managed" := "true", "dockpal.project" := project, "dockpal.compose" := composePath,
        "dockpal.service" := service] + user
  }

  function ComposePath(plan: Plan): string {
    Paths.Clean(Paths.Clean(plan.agent.basePath) + "/" + plan.project + "/docker-compose.yml")
  }

  function LabelsFor(plan: Plan, name: string): map<string, string> {
    ContainerLabels(plan.project, ComposePath(plan), name, UserLabels(plan.agent, ServiceNamed(plan.services, name)))
  }

  ghost predicate Holds(labels: map<string, string>, key: string, value: string) {
    key in labels && labels[key] == value
  }

  /**
   A service's labels from the file, and the four of the agent where the file does not set them: among them
   the service's own name, and where the compose file of the project is written.
   */
  ghost predicate Carries(labels: map<string, string>, agent: Agent, project: string, name: string,
                          user: map<string, string>) {
    && (forall key :: key in user ==> Holds(labels, key, user[key]))
    && (forall key :: key in labels ==>
          key in user || key in {"dockpal.managed", "dockpal.project", "dockpal.compose", "dockpal.service"})
    && ("dockpal.managed" !in user ==> Holds(labels, "dockpal.managed", "true"))
    && ("dockpal.project" !in user ==> Holds(labels, "dockpal.project", project))
    && ("dockpal.service" !in user ==> Holds(labels, "dockpal.service", name))
    && ("dockpal.compose" !in user && StackStore.ValidProjectName(project) ==>
          Holds(labels, "dockpal.compose", StackStore.LegacyDir(agent.basePath, project) + "/" + "docker-compose.yml"))
  }

  /** The path in the label is where the file is written. */
  lemma ComposePathIsWritten(plan: Plan)
    requires StackStore.ValidProjectName(plan.project)
    ensures ComposePath(plan) == StackStore.LegacyDir(plan.agent.basePath, plan.project) + "/" + "docker-compose.yml"
  {
    hide Paths.Clean;
    var base := Paths.Clean(plan.agent.basePath);
    var dir := base + "/" + plan.project;
    ProjectDir(plan.agent.basePath, plan.project);
    Paths.CleanTheFirstPart(dir, "docker-compose.yml");
    assert dir + "/" + "docker-compose.yml" == base + "/" + plan.project + "/docker-compose.yml";
    assert Paths.IsOrdinary("docker-compose.yml");
    Paths.NamesStay(Paths.Clean(dir), "docker-compose.yml");
  }

  lemma ProjectDir(basePath: string, project: string)
    requires StackStore.ValidProjectName(project)
    ensures var dir := StackStore.LegacyDir(basePath, project);
      Paths.Clean(dir) == dir && dir != "/" && dir != "."
  {
    hide Paths.Clean;
    Paths.CleanIsIdempotent(basePath);
    Paths.CleanIsIdempotent(Paths.Clean(basePath) + "/" + project);
    StackStore.ProjectNamesAreOrdinary(project);
    Paths.CleanChild(Paths.Clean(basePath), project);
  }

  lemma LabelsAreCarried(plan: Plan, name: string)
    ensures Carries(LabelsFor(plan, name), plan.agent, plan.project, name,
                    UserLabels(plan.agent, ServiceNamed(plan.services, name)))
  {
    hide ComposePath, StackStore.LegacyDir, UserLabels;
    OwnKeysDiffer();
    if StackStore.ValidProjectName(plan.project) {
      ComposePathIsWritten(plan);
    }
  }

  lemma OwnKeysDiffer()
    ensures "dockpal.managed" !in ["dockpal.project", "dockpal.compose", "dockpal.service"]
    ensures "dockpal.project" !in ["dockpal.compose", "dockpal.service"] && "dockpal.compose" != "dockpal.service"
  {
    assert "dockpal.managed"[8] == 'm' && "dockpal.project"[8] == 'p' && "dockpal.compose"[8] == 'c';
    assert "dockpal.service"[8] == 's';
  }

  /** The container of a service is there, with the labels it must have. */
  ghost predicate IsLabelled(containers: Containers, plan: Plan, name: string) {
    var container := plan.project + "_" + name;
    container in containers
    && Carries(containers[container].labels, plan.agent, plan.project, name,
               UserLabels(plan.agent, ServiceNamed(plan.services, name)))
  }

  /** The running containers of `names`. */
  function Started(plan: Plan, names: seq<string>): Containers {
    if names == [] then map[]
    else
      var last := names[|names| - 1];
      Started(plan, names[..|names| - 1])[ContainerName(plan.project, last) := Status(true, LabelsFor(plan, last))]
  }

  /** Whether the daemon creates the container of a service, told before the run. */
  predicate CanCreate(plan: Plan, refuses: Refusals, containers: Containers, name: string) {
    && ServiceNamed(plan.services, name).malformed.None?
    && ContainerName(plan.project, name) !in containers
    && ContainerName(plan.project, name) !in refuses.create
  }

  predicate CanStart(plan: Plan, refuses: Refusals, containers: Containers, name: string) {
    CanCreate(plan, refuses, containers, name) && ContainerName(plan.project, name) !in refuses.start
  }

  ghost predicate AllCanStart(plan: Plan, refuses: Refusals, containers: Containers, names: seq<string>) {
    forall name :: name in names ==> CanStart(plan, refuses, containers, name)
  }

  predicate PullsWorked(refuses: Refusals, from: nat, to: nat) {
    forall k :: from <= k < to ==> k !in refuses.pull
  }

  lemma StartedKeys(plan: Plan, names: seq<string>)
    ensures Started(plan, names).Keys == Elements(Names(plan.project, names))
  {
    if names != [] {
      var before, last := names[..|names| - 1], names[|names| - 1];
      StartedKeys(plan, before);
      assert Names(plan.project, names) == Names(plan.project, before) + [ContainerName(plan.project, last)];
      ElementsAppend(Names(plan.project, before), ContainerName(plan.project, last));
    }
  }

  lemma NoneStarted(plan: Plan, order: seq<string>, before: Containers)
    ensures before + Started(plan, order[..0]) == before
  {
  }

  lemma StartedAppend(plan: Plan, names: seq<string>, name: string)
    ensures Started(plan, names + [name]) ==
      Started(plan, names)[ContainerName(plan.project, name) := Status(true, LabelsFor(plan, name))]
  {
    assert (names + [name])[..|names|] == names;
  }

  /** Starting some services does not change whether another one can be created. */
  lemma OthersDoNotMatter(plan: Plan, refuses: Refusals, containers: Containers, names: seq<string>, name: string)
    requires name !in names
    ensures ContainerName(plan.project, name) !in Started(plan, names)
    ensures CanCreate(plan, refuses, containers + Started(plan, names), name)
      <==> CanCreate(plan, refuses, containers, name)
  {
    StartedKeys(plan, names);
    NamedIn(plan.project, names, name);
  }

  // ----- What the results are stated in -----

  /** Whenever a service's container is in `names`, so are those of everything it depends on. */
  ghost predicate ClosedUnderDependencies(g: Graph, project: string, names: seq<string>) {
    forall service, dep :: ContainerName(project, service) in names && dep in Deps(g, service)
                           ==> ContainerName(project, dep) in names
  }

  /** Every moment of a run that appended `started` to the start log. */
  ghost predicate AlwaysClosed(g: Graph, project: string, started: seq<string>) {
    forall k :: 0 <= k <= |started| ==> ClosedUnderDependencies(g, project, started[..k])
  }

  lemma NamedIn(project: string, services: seq<string>, service: string)
    ensures ContainerName(project, service) in Names(project, services) <==> service in services
  {
    forall i | 0 <= i < |services|
      ensures Names(project, services)[i] == ContainerName(project, service) <==> services[i] == service
    {
      NamesDiffer(project, service, services[i]);
    }
  }

  lemma StartedPrefixIsClosed(g: Graph, project: string, order: seq<string>, k: nat)
    requires DependencyOrder(g, order) && k <= |order|
    ensures ClosedUnderDependencies(g, project, Names(project, order[..k]))
  {
    var names := Names(project, order[..k]);
    forall service, dep | ContainerName(project, service) in names && dep in Deps(g, service)
      ensures ContainerName(project, dep) in names
    {
      NamedIn(project, order[..k], service);
      PrefixIsClosed(g, order, k, service);
      NamedIn(project, order[..k], dep);
    }
  }

  lemma StartingInOrderIsAlwaysClosed(g: Graph, project: string, order: seq<string>, n: nat)
    requires DependencyOrder(g, order) && n <= |order|
    ensures AlwaysClosed(g, project, Names(project, order[..n]))
  {
    forall k | 0 <= k <= n ensures ClosedUnderDependencies(g, project, Names(project, order[..n])[..k]) {
      StartedPrefixIsClosed(g, project, order, k);
      assert Names(project, order[..n])[..k] == Names(project, order[..k]);
    }
  }

  /** The images of the first `n` services of the order are all present. */
  ghost predicate ImagesPresent(images: set<string>, services: Services, order: seq<string>, n: nat) {
    forall i :: 0 <= i < n && i < |order| ==>
      (if order[i] in services then services[order[i]].image else "") in images
  }

  ghost function ServicesOf(decoded: Result<Services, string>): Services {
    if decoded.Success? then decoded.value else map[]
  }

  /** How far a run got; `at` indexes the start order. */
  datatype Outcome =
    | Rejected
    | FailedParsing
    | FailedResolving
    | FailedPulling(at: nat)
    | FailedWriting
    | FailedCreating(at: nat)
    | FailedStarting(at: nat)
    | Completed

  /** `at` is the first of the order whose container cannot be created, or is created and cannot be started. */
  ghost predicate FirstBlocked(plan: Plan, refuses: Refusals, before: Containers, order: seq<string>,
                               at: nat, created: bool) {
    && at < |order| && AllCanStart(plan, refuses, before, order[..at])
    && !CanStart(plan, refuses, before, order[at])
    && (created <==> CanCreate(plan, refuses, before, order[at]))
  }

  /** How many services of the order a run has started. */
  ghost function StartedCount(outcome: Outcome, order: seq<string>): nat {
    match outcome
    case FailedPulling(at) => at
    case FailedCreating(at) => at
    case FailedStarting(at) => at
    case Completed => |order|
    case _ => 0
  }

  // ----- The steps both deployments share -----

  method ParseComposeFile(decoded: Result<Services, string>)
    returns (r: Result<Services, string>)
    ensures r.Success? <==> decoded.Success? && decoded.value != map[]
    ensures r.Success? ==> r == decoded
  {
    if decoded.Success? && |decoded.value| == 0 {
      return Failure("no services defined in compose file");
    }
    r := decoded;
  }

  method PullImageIfNeeded(daemon: Daemon, image: string) returns (err: Option<string>)
    modifies daemon`images, daemon`pulls
    ensures old(daemon.images) <= daemon.images && (err.None? ==> image in daemon.images)
    ensures old(daemon.pulls) <= daemon.pulls
    ensures err.None? <==> PullsWorked(daemon.refuses, old(daemon.pulls), daemon.pulls)
  {
    var present := daemon.InspectImage(image);
    if present {
      return None;
    }
    err := daemon.PullImage(image);
  }

  /**
   Creates a container and starts it.  It fails without a trace, or leaves the container created and not
   running: the latter exactly when creating it works and only the start is refused.
   */
  method CreateAndStartService(daemon: Daemon, plan: Plan, name: string) returns (err: Option<string>)
    modifies daemon`containers, daemon`startLog
    ensures err.None? <==> CanStart(plan, daemon.refuses, old(daemon.containers), name)
    ensures daemon.containers ==
      if CanCreate(plan, daemon.refuses, old(daemon.containers), name)
      then old(daemon.containers)[ContainerName(plan.project, name) := Status(err.None?, LabelsFor(plan, name))]
      else old(daemon.containers)
    ensures daemon.startLog ==
      if err.None? then old(daemon.startLog) + [ContainerName(plan.project, name)] else old(daemon.startLog)
    ensures daemon.containers != old(daemon.containers) ==> IsLabelled(daemon.containers, plan, name)
  {
    hide LabelsFor, Carries;
    LabelsAreCarried(plan, name);
    var service := ServiceNamed(plan.services, name);
    if service.malformed.Some? {
      return service.malformed;
    }
    var container := ContainerName(plan.project, name);
    err := daemon.Create(container, LabelsFor(plan, name));
    if err.Some? {
      return;
    }
    err := daemon.Start(container);
  }

  /** `order` lists every service and every name depended on, dependencies first. */
  ghost predicate StartOrderOf(g: Graph, order: seq<string>) {
    && !Cyclic(g)
    && NoDup(order) && Elements(order) == Nodes(g)
    && DependencyOrder(g, order)
  }

  lemma NamesStep(project: string, order: seq<string>, i: nat)
    requires i < |order|
    ensures Names(project, order[..i + 1]) == Names(project, order[..i]) + [ContainerName(project, order[i])]
  {
  }

  lemma NextInOrder(order: seq<string>, i: nat)
    requires NoDup(order) && i < |order|
    ensures order[..i + 1] == order[..i] + [order[i]] && order[i] !in order[..i]
  {
  }

  // ----- The plain deployment -----

  ghost predicate Decodable(decoded: Result<Services, string>) {
    decoded.Success? && decoded.value != map[]
  }

  ghost function GraphOf(decoded: Result<Services, string>): Graph {
    if decoded.Success? then Requirements(decoded.value) else map[]
  }

  ghost function PlanOf(agent: Agent, project: string, decoded: Result<Services, string>): Plan {
    Plan(agent, project, ServicesOf(decoded))
  }

  /** What a plain run that ended with `outcome` has done to the containers; nothing is undone. */
  ghost predicate StartedUpTo(plan: Plan, refuses: Refusals, before: Containers, after: Containers,
                              order: seq<string>, outcome: Outcome) {
    match outcome
    case FailedPulling(at) =>
      at < |order| && AllCanStart(plan, refuses, before, order[..at]) && after == before + Started(plan, order[..at])
    case FailedCreating(at) =>
      FirstBlocked(plan, refuses, before, order, at, false) && after == before + Started(plan, order[..at])
    case FailedStarting(at) =>
      && FirstBlocked(plan, refuses, before, order, at, true)
      && after == (before + Started(plan, order[..at]))
                  [ContainerName(plan.project, order[at]) := Status(false, LabelsFor(plan, order[at]))]
    case Completed => AllCanStart(plan, refuses, before, order) && after == before + Started(plan, order)
    case _ => after == before
  }

  ghost predicate DeployedPlainly(plan: Plan, refuses: Refusals, before: Containers, after: Containers,
                                  decoded: Result<Services, string>, writeError: Option<string>,
                                  outcome: Outcome, order: seq<string>) {
    var acceptable := StackStore.ValidProjectName(plan.project);
    && (outcome.Rejected? <==> !acceptable)
    && (outcome.FailedWriting? <==> acceptable && writeError.Some?)
    && (outcome.FailedParsing? <==> acceptable && writeError.None? && !Decodable(decoded))
    && (outcome.FailedResolving? <==>
          acceptable && writeError.None? && Decodable(decoded) && Cyclic(GraphOf(decoded)))
    && (Reached(outcome) ==> StartOrderOf(GraphOf(decoded), order))
    && StartedUpTo(plan, refuses, before, after, order, outcome)
  }

  /** The run got as far as the services. */
  predicate Reached(outcome: Outcome) {
    outcome.FailedPulling? || outcome.FailedCreating? || outcome.FailedStarting? || outcome.Completed?
  }

  /** How a run ends that is blocked at `at`. */
  ghost function BlockedAt(plan: Plan, refuses: Refusals, before: Containers, order: seq<string>, at: nat): Outcome
    requires at < |order|
  {
    if CanCreate(plan, refuses, before, order[at]) then FailedStarting(at) else FailedCreating(at)
  }

  /** The next service of the order, when those before it were started; `before` is how the run began. */
  method StartNext(daemon: Daemon, plan: Plan, order: seq<string>, at: nat, ghost before: Containers)
    returns (err: Option<string>)
    requires NoDup(order) && at < |order| && AllCanStart(plan, daemon.refuses, before, order[..at])
    requires daemon.containers == before + Started(plan, order[..at])
    modifies daemon`containers, daemon`startLog
    ensures err.None? ==>
      && AllCanStart(plan, daemon.refuses, before, order[..at + 1])
      && daemon.containers == before + Started(plan, order[..at + 1])
      && daemon.startLog == old(daemon.startLog) + [ContainerName(plan.project, order[at])]
    ensures err.Some? ==>
      && StartedUpTo(plan, daemon.refuses, before, daemon.containers, order,
                     BlockedAt(plan, daemon.refuses, before, order, at))
      && daemon.startLog == old(daemon.startLog)
  {
    hide Started, LabelsFor, IsLabelled;
    NextInOrder(order, at);
    OthersDoNotMatter(plan, daemon.refuses, before, order[..at], order[at]);
    StartedAppend(plan, order[..at], order[at]);
    err := CreateAndStartService(daemon, plan, order[at]);
  }

  /** No entry of a service is malformed, and no container has the name of one. */
  ghost predicate AllWereReady(services: Services, project: string, before: Containers) {
    forall name :: name in services ==> services[name].malformed.None? && project + "_" + name !in before
  }

  lemma CompletedMeansReady(plan: Plan, refuses: Refusals, before: Containers, order: seq<string>, outcome: Outcome,
                            after: Containers)
    requires StartOrderOf(Requirements(plan.services), order)
    requires StartedUpTo(plan, refuses, before, after, order, outcome)
    ensures outcome.Completed? ==> AllWereReady(plan.services, plan.project, before)
  {
    if outcome.Completed? {
      NothingBlocksTheReady(plan, refuses, before, order);
    }
  }

  lemma NothingBlocksTheReady(plan: Plan, refuses: Refusals, before: Containers, order: seq<string>)
    requires StartOrderOf(Requirements(plan.services), order) && AllCanStart(plan, refuses, before, order)
    ensures AllWereReady(plan.services, plan.project, before)
  {
    hide DependencyOrder, Cyclic;
    forall name | name in plan.services ensures CanStart(plan, refuses, before, name) {
      assert name in Nodes(Requirements(plan.services));
      assert name in Elements(order);
    }
  }

  /** Every name that a run would start can be started, told before the run. */
  ghost predicate NothingBlocks(plan: Plan, refuses: Refusals, before: Containers) {
    forall name :: name in Nodes(Requirements(plan.services)) ==> CanStart(plan, refuses, before, name)
  }

  /**
   Writes the file, then pulls, creates and starts service by service.  Whether it completes is told by
   the state before it: in particular, none of its containers may exist yet.
   */
  method DeployCompose(daemon: Daemon, agent: Agent, project: string, decoded: Result<Services, string>,
                       writeError: Option<string>)
    returns (err: Option<string>, ghost outcome: Outcome, ghost order: seq<string>)
    modifies daemon
    ensures err.None? <==> outcome.Completed?
    ensures DeployedPlainly(PlanOf(agent, project, decoded), daemon.refuses, old(daemon.containers), daemon.containers,
                            decoded, writeError, outcome, order)
    ensures daemon.startLog == old(daemon.startLog) + Names(project, order[..StartedCount(outcome, order)])
    ensures ImagesPresent(daemon.images, ServicesOf(decoded), order, StartedCount(outcome, order))
    ensures old(daemon.pulls) <= daemon.pulls
    ensures outcome.FailedPulling? <==> !PullsWorked(daemon.refuses, old(daemon.pulls), daemon.pulls)
    ensures outcome.Completed? <==>
      && StackStore.ValidProjectName(project) && writeError.None? && Decodable(decoded) && !Cyclic(GraphOf(decoded))
      && PullsWorked(daemon.refuses, old(daemon.pulls), daemon.pulls)
      && NothingBlocks(PlanOf(agent, project, decoded), daemon.refuses, old(daemon.containers))
    ensures forall name :: name in Made(outcome, order) ==>
      IsLabelled(daemon.containers, PlanOf(agent, project, decoded), name)
    ensures outcome.Completed? ==> AllWereReady(ServicesOf(decoded), project, old(daemon.containers))
    ensures daemon.removals == old(daemon.removals)
  {
    hide IsLabelled, Cyclic, Nodes, Requirements;
    order := [];
    if !StackStore.ValidProjectName(project) {
      return Some("invalid project name"), Rejected, order;
    }
    if writeError.Some? {
      return writeError, FailedWriting, order;
    }
    var parsed := ParseComposeFile(decoded);
    if parsed.Failure? {
      return Some(parsed.error), FailedParsing, order;
    }
    var resolved := ResolveStartOrder(parsed.value);
    if resolved.Failure? {
      return Some(resolved.error), FailedResolving, order;
    }
    order := resolved.value;
    err, outcome := PullAndStartEach(daemon, Plan(agent, project, parsed.value), resolved.value);
    MadeAreLabelled(Plan(agent, project, parsed.value), daemon.refuses, old(daemon.containers), daemon.containers,
                    order, outcome);
    CompletedMeansReady(Plan(agent, project, parsed.value), daemon.refuses, old(daemon.containers), order, outcome,
                        daemon.containers);
  }

  method PullAndStartEach(daemon: Daemon, plan: Plan, order: seq<string>)
    returns (err: Option<string>, ghost outcome: Outcome)
    requires NoDup(order)
    modifies daemon
    ensures Reached(outcome) && (err.None? <==> outcome.Completed?)
    ensures StartedUpTo(plan, daemon.refuses, old(daemon.containers), daemon.containers, order, outcome)
    ensures daemon.startLog == old(daemon.startLog) + Names(plan.project, order[..StartedCount(outcome, order)])
    ensures ImagesPresent(daemon.images, plan.services, order, StartedCount(outcome, order))
    ensures old(daemon.pulls) <= daemon.pulls
    ensures outcome.FailedPulling? <==> !PullsWorked(daemon.refuses, old(daemon.pulls), daemon.pulls)
    ensures daemon.removals == old(daemon.removals)
  {
    hide CanCreate, CanStart, LabelsFor, Started;
    NoneStarted(plan, order, daemon.containers);
    for i := 0 to |order|
      invariant AllCanStart(plan, daemon.refuses, old(daemon.containers), order[..i])
      invariant daemon.containers == old(daemon.containers) + Started(plan, order[..i])
      invariant daemon.startLog == old(daemon.startLog) + Names(plan.project, order[..i])
      invariant ImagesPresent(daemon.images, plan.services, order, i)
      invariant old(daemon.pulls) <= daemon.pulls && PullsWorked(daemon.refuses, old(daemon.pulls), daemon.pulls)
      invariant daemon.removals == old(daemon.removals)
    {
      err := PullImageIfNeeded(daemon, ServiceNamed(plan.services, order[i]).image);
      if err.Some? {
        return err, FailedPulling(i);
      }
      NamesStep(plan.project, order, i);
      err := StartNext(daemon, plan, order, i, old(daemon.containers));
      if err.Some? {
        return err, BlockedAt(plan, daemon.refuses, old(daemon.containers), order, i);
      }
    }
    assert order[..|order|] == order;
    return None, Completed;
  }

  /** At every moment of a plain run, the started services include everything they depend on. */
  lemma PlainRunIsAlwaysClosed(plan: Plan, refuses: Refusals, before: Containers, after: Containers,
                               decoded: Result<Services, string>, writeError: Option<string>,
                               outcome: Outcome, order: seq<string>)
    requires DeployedPlainly(plan, refuses, before, after, decoded, writeError, outcome, order)
    ensures AlwaysClosed(GraphOf(decoded), plan.project, Names(plan.project, order[..StartedCount(outcome, order)]))
  {
    if Reached(outcome) {
      StartingInOrderIsAlwaysClosed(GraphOf(decoded), plan.project, order, StartedCount(outcome, order));
    }
  }

  /**
   Deploying again: where the services are in order and the daemon refuses nothing, a plain deployment that
   gets past its pulls completes if and only if none of its containers exists yet.
   */
  lemma CompletesExactlyOnFreshNames(plan: Plan, refuses: Refusals, before: Containers, after: Containers,
                                     decoded: Result<Services, string>, writeError: Option<string>,
                                     outcome: Outcome, order: seq<string>)
    requires DeployedPlainly(plan, refuses, before, after, decoded, writeError, outcome, order)
    requires plan.services == ServicesOf(decoded) && Reached(outcome) && !outcome.FailedPulling?
    requires refuses.create == {} && refuses.start == {}
    requires forall name :: name in plan.services ==> plan.services[name].malformed.None?
    ensures outcome.Completed? <==>
      forall name :: name in Nodes(Requirements(plan.services)) ==> ContainerName(plan.project, name) !in before
  {
    assert forall name :: name in order <==> name in Elements(order);
    if outcome.FailedCreating? || outcome.FailedStarting? {
      assert order[outcome.at] in order;
    }
  }

  /** The services whose containers a plain run has made, running or not. */
  ghost function Made(outcome: Outcome, order: seq<string>): seq<string> {
    match outcome
    case FailedPulling(at) => if at <= |order| then order[..at] else []
    case FailedCreating(at) => if at <= |order| then order[..at] else []
    case FailedStarting(at) => if at < |order| then order[..at + 1] else []
    case Completed => order
    case _ => []
  }

  /** The services whose pull worked, as far as the run asked. */
  ghost function Pulled(outcome: Outcome, order: seq<string>): seq<string> {
    match outcome
    case FailedPulling(at) => if at <= |order| then order[..at] else []
    case _ => if Reached(outcome) then order else []
  }

  /** Of these, a run makes the containers up to the first that is blocked, told before the run. */
  lemma MadeExactly(plan: Plan, refuses: Refusals, before: Containers, after: Containers,
                    order: seq<string>, outcome: Outcome, i: nat)
    requires StartedUpTo(plan, refuses, before, after, order, outcome)
    requires NoDup(order) && i < |Pulled(outcome, order)|
    ensures order[i] in Made(outcome, order) <==>
      AllCanStart(plan, refuses, before, order[..i]) && CanCreate(plan, refuses, before, order[i])
  {
    var made := |Made(outcome, order)|;
    assert Made(outcome, order) == order[..made];
    assert order[i] in order[..made] <==> i < made;
    if outcome.Completed? {
      assert forall name :: name in order[..i] ==> name in order;
    } else if i < outcome.at {
      assert forall name :: name in order[..i] ==> name in order[..outcome.at];
      assert order[..outcome.at][i] in order[..outcome.at];
    } else if i > outcome.at {
      assert order[..i][outcome.at] in order[..i];
    }
  }

  /** Nothing else is made. */
  lemma MadeWasPulled(outcome: Outcome, order: seq<string>)
    ensures Made(outcome, order) <= Pulled(outcome, order) <= order
  {
  }

  /** Every container from before is there as it was, and besides exactly those of `names`, with their labels. */
  ghost predicate Adds(plan: Plan, before: Containers, after: Containers, names: seq<string>) {
    && after.Keys == before.Keys + Elements(Names(plan.project, names))
    && (forall name :: name in before ==> name in after && after[name] == before[name])
    && (forall service :: service in names ==>
          && ContainerName(plan.project, service) in after
          && after[ContainerName(plan.project, service)].labels == LabelsFor(plan, service))
  }

  /** A plain run adds the containers that it made. */
  lemma ContainersAfter(plan: Plan, refuses: Refusals, before: Containers, after: Containers,
                        order: seq<string>, outcome: Outcome)
    requires StartedUpTo(plan, refuses, before, after, order, outcome) && NoDup(order)
    ensures Adds(plan, before, after, Made(outcome, order))
  {
    hide LabelsFor, Adds, Names;
    if outcome.FailedStarting? {
      var at := outcome.at;
      StartedAdds(plan, refuses, before, order[..at]);
      AddsOneMore(plan, before, before + Started(plan, order[..at]), order[..at], order[at], false);
      NextInOrder(order, at);
    } else if Reached(outcome) {
      StartedAdds(plan, refuses, before, Made(outcome, order));
    } else {
      AddsNone(plan, before);
    }
  }

  lemma MadeAreLabelled(plan: Plan, refuses: Refusals, before: Containers, after: Containers,
                        order: seq<string>, outcome: Outcome)
    requires StartedUpTo(plan, refuses, before, after, order, outcome) && NoDup(order)
    ensures forall name :: name in Made(outcome, order) ==> IsLabelled(after, plan, name)
  {
    hide LabelsFor, Carries, StartedUpTo;
    ContainersAfter(plan, refuses, before, after, order, outcome);
    forall name | name in Made(outcome, order) ensures IsLabelled(after, plan, name) {
      LabelsAreCarried(plan, name);
    }
  }

  lemma AddsNone(plan: Plan, before: Containers)
    ensures Adds(plan, before, before, [])
  {
  }

  lemma AddsOneMore(plan: Plan, before: Containers, after: Containers, names: seq<string>, name: string, running: bool)
    requires Adds(plan, before, after, names) && ContainerName(plan.project, name) !in before
    ensures Adds(plan, before, after[ContainerName(plan.project, name) := Status(running, LabelsFor(plan, name))],
                 names + [name])
  {
    hide LabelsFor;
    assert Names(plan.project, names + [name]) == Names(plan.project, names) + [ContainerName(plan.project, name)];
    ElementsAppend(Names(plan.project, names), ContainerName(plan.project, name));
    forall service | ContainerName(plan.project, service) == ContainerName(plan.project, name) ensures service == name {
      NamesDiffer(plan.project, service, name);
    }
  }

  lemma StartedAdds(plan: Plan, refuses: Refusals, before: Containers, names: seq<string>)
    requires AllCanStart(plan, refuses, before, names)
    ensures Adds(plan, before, before + Started(plan, names), names)
  {
    hide LabelsFor;
    StartedKeys(plan, names);
    StartedAreNew(plan, refuses, before, names);
    forall service | service in names
      ensures ContainerName(plan.project, service) in Started(plan, names)
      ensures Started(plan, names)[ContainerName(plan.project, service)].labels == LabelsFor(plan, service)
    {
      StartedLookup(plan, names, service);
    }
  }

  lemma {:induction false} StartedLookup(plan: Plan, names: seq<string>, service: string)
    requires service in names
    ensures ContainerName(plan.project, service) in Started(plan, names)
    ensures Started(plan, names)[ContainerName(plan.project, service)] == Status(true, LabelsFor(plan, service))
    decreases |names|
  {
    hide LabelsFor;
    var before, last := names[..|names| - 1], names[|names| - 1];
    if service != last {
      assert names == before + [last];
      StartedLookup(plan, before, service);
      NamesDiffer(plan.project, service, last);
    }
  }

  // ----- The streamed deployment -----

  predicate Contains(text: string, part: string) {
    exists i :: 0 <= i <= |text| - |part| && part <= text[i..]
  }

  /** The advice for a daemon error; empty when there is none. */
  function DiagnoseDeployError(message: string): string {
    if Contains(message, "address already in use") || Contains(message, "port is already allocated") then
      "Port conflict"
    else if Contains(message, "No such image") then
      "Image not found"
    else if Contains(message, "name is already in use") then
      "Container name conflict"
    else if Contains(message, "permission denied") then
      "Permission denied"
    else if Contains(message, "network not found") then
      "Network not found"
    else if Contains(message, "timeout") || Contains(message, "context deadline") then
      "Timeout"
    else if Contains(message, "disk space") || Contains(message, "no space left") then
      "Disk full"
    else if Contains(message, "manifest unknown") || Contains(message, "not found") then
      "Image tag not found"
    else
      ""
  }

  /** Which containers a streamed run tries to remove: those it has started, if it is creating when it fails. */
  ghost function ToRemove(project: string, order: seq<string>, outcome: Outcome): seq<string> {
    match outcome
    case FailedCreating(at) => if at <= |order| then Names(project, order[..at]) else []
    case FailedStarting(at) => if at <= |order| then Names(project, order[..at]) else []
    case _ => []
  }

  /** No container is created before every image is there. */
  ghost predicate ImagesFirst(images: set<string>, services: Services, order: seq<string>,
                              outcome: Outcome) {
    outcome.FailedCreating? || outcome.FailedStarting? || outcome.Completed? ==>
      ImagesPresent(images, services, order, |order|)
  }

  /** The session has seen at most `limit` emissions and no close. */
  ghost predicate OpenWithin(script: seq<Action>, limit: int) {
    Closes(script) == 0 && |script| <= limit
  }

  /** An error was reported exactly if there is one; a complete run has reported every step. */
  ghost predicate Reported(script: seq<Action>, err: Option<string>, order: seq<string>) {
    && (err.Some? <==> Errors(script) > 0)
    && (err.None? ==> |script| == 7 + 4 * |order|)
  }

  /** One attempt per name, in order, each with whether it worked. */
  function Attempts(names: seq<string>, refused: set<string>): seq<(string, bool)> {
    seq(|names|, i requires 0 <= i < |names| => (names[i], names[i] !in refused))
  }

  method RemoveAll(daemon: Daemon, created: seq<string>)
    modifies daemon`containers, daemon`removals
    ensures daemon.removals == old(daemon.removals) + Attempts(created, daemon.refuses.remove)
    ensures daemon.containers == old(daemon.containers) - (Elements(created) - daemon.refuses.remove)
  {
    for i := 0 to |created|
      invariant daemon.removals == old(daemon.removals) + Attempts(created[..i], daemon.refuses.remove)
      invariant daemon.containers == old(daemon.containers) - (Elements(created[..i]) - daemon.refuses.remove)
    {
      assert created[..i + 1] == created[..i] + [created[i]];
      ElementsAppend(created[..i], created[i]);
      OneRemoval(old(daemon.containers), Elements(created[..i]), daemon.refuses.remove, created[i]);
      daemon.Remove(created[i]);
    }
    assert created[..|created|] == created;
  }

  lemma OneRemoval(containers: Containers, done: set<string>, refused: set<string>, name: string)
    ensures containers - (done + {name} - refused) ==
      if name in refused then containers - (done - refused) else containers - (done - refused) - {name}
  {
    assert done + {name} - refused == if name in refused then done - refused else done - refused + {name};
  }

  /** The started containers whose removal is refused. */
  function Stuck(plan: Plan, refuses: Refusals, names: seq<string>): Containers {
    Started(plan, names) - (Started(plan, names).Keys - refuses.remove)
  }

  /**
   What is left after a streamed run.  When service `at` is the first that is blocked, the services before
   it are removed again, except where that is refused, and its own container stays exactly when it was
   created and only its start was refused.
   */
  ghost predicate RolledBack(plan: Plan, refuses: Refusals, before: Containers, after: Containers,
                             order: seq<string>, outcome: Outcome) {
    match outcome
    case FailedCreating(at) =>
      FirstBlocked(plan, refuses, before, order, at, false) && after == before + Stuck(plan, refuses, order[..at])
    case FailedStarting(at) =>
      && FirstBlocked(plan, refuses, before, order, at, true)
      && after == (before + Stuck(plan, refuses, order[..at]))
                  [ContainerName(plan.project, order[at]) := Status(false, LabelsFor(plan, order[at]))]
    case Completed => AllCanStart(plan, refuses, before, order) && after == before + Started(plan, order)
    case _ => after == before
  }

  /** What a streamed run that ended with `outcome` has done to the daemon. */
  ghost predicate DeployedStreamed(plan: Plan, refuses: Refusals, before: Containers, after: Containers,
                                   decoded: Result<Services, string>, outcome: Outcome, order: seq<string>) {
    && !outcome.Rejected?
    && (outcome.FailedParsing? <==> !Decodable(decoded))
    && (outcome.FailedResolving? <==> Decodable(decoded) && Cyclic(GraphOf(decoded)))
    && (outcome.FailedParsing? || outcome.FailedResolving? || StartOrderOf(GraphOf(decoded), order))
    && RolledBack(plan, refuses, before, after, order, outcome)
  }

  /** Which pulls and writes end a run, and when it completes, told before the run. */
  ghost predicate EndsAsItMust(plan: Plan, refuses: Refusals, before: Containers,
                               decoded: Result<Services, string>, writeError: Option<string>,
                               from: nat, to: nat, outcome: Outcome) {
    && (outcome.FailedPulling? <==> !PullsWorked(refuses, from, to))
    && (outcome.FailedWriting? <==>
          Decodable(decoded) && !Cyclic(GraphOf(decoded)) && PullsWorked(refuses, from, to) && writeError.Some?)
    && (outcome.Completed? <==>
          && Decodable(decoded) && !Cyclic(GraphOf(decoded)) && PullsWorked(refuses, from, to) && writeError.None?
          && NothingBlocks(plan, refuses, before))
  }

  /** A step that begins and ends, for each of `n` services. */
  function Each(step: string, n: nat): seq<(string, string)> {
    if n == 0 then [] else Each(step, n - 1) + [(step, "running"), (step, "done")]
  }

  lemma EachGrows(step: string, n: nat)
    ensures Each(step, 0) == [] && Each(step, n + 1) == Each(step, n) + [(step, "running"), (step, "done")]
  {
  }

  function Hints(n: nat): seq<(string, string)> {
    if n == 0 then [] else Hints(n - 1) + [("hint", "error")]
  }

  /** Up to the pulls. */
  function Resolved(): seq<(string, string)> {
    [("parse", "running"), ("parse", "done"), ("resolve", "running"), ("resolve", "done")]
  }

  /** Up to the services, of which there are `n`. */
  function Written(n: nat): seq<(string, string)> {
    Resolved() + Each("pull", n) + [("write", "running"), ("write", "done")]
  }

  /** What a failed service adds: the error, some advice, and the removal of what was started. */
  function Blocked(at: nat, hints: nat): seq<(string, string)> {
    [("create", "running"), ("create", "error")] + Hints(hints)
    + if at == 0 then [] else [("cleanup", "running"), ("cleanup", "done")]
  }

  /** Steps and statuses of a whole run over `n` services, with `hints` pieces of advice if it fails. */
  function Told(outcome: Outcome, n: nat, hints: nat): seq<(string, string)> {
    match outcome
    case FailedParsing => [("parse", "running"), ("parse", "error")]
    case FailedResolving => [("parse", "running"), ("parse", "done"), ("resolve", "running"), ("resolve", "error")]
    case FailedPulling(at) =>
      Resolved() + Each("pull", at) + ([("pull", "running"), ("pull", "error")] + Hints(hints))
    case FailedWriting => Resolved() + Each("pull", n) + [("write", "running"), ("write", "error")]
    case FailedCreating(at) => Written(n) + Each("create", at) + Blocked(at, hints)
    case FailedStarting(at) => Written(n) + Each("create", at) + Blocked(at, hints)
    case Completed => Written(n) + Each("create", n) + [("complete", "done")]
    case Rejected => []
  }

  /** The texts for which there is advice. */
  ghost predicate IsKnownProblem(message: string) {
    || Mentions(message, "address already in use")
    || Mentions(message, "port is already allocated")
    || Mentions(message, "No such image")
    || Mentions(message, "name is already in use")
    || Mentions(message, "permission denied")
    || Mentions(message, "network not found")
    || Mentions(message, "timeout")
    || Mentions(message, "context deadline")
    || Mentions(message, "disk space")
    || Mentions(message, "no space left")
    || Mentions(message, "manifest unknown")
    || Mentions(message, "not found")
  }

  ghost predicate Mentions(message: string, part: string) {
    exists before, after :: message == before + part + after
  }

  /** How many pieces of advice a failed pull gets; those about credentials come in addition. */
  ghost function PullHints(message: string): nat {
    (if IsKnownProblem(message) then 1 else 0)
    + if Mentions(message, "unauthorized") || Mentions(message, "denied") then 1 else 0
  }

  ghost function HintsFor(outcome: Outcome, message: string): nat {
    match outcome
    case FailedPulling(_) => PullHints(message)
    case FailedCreating(_) => if IsKnownProblem(message) then 1 else 0
    case FailedStarting(_) => if IsKnownProblem(message) then 1 else 0
    case _ => 0
  }

  ghost predicate TellsAll(marks: seq<(string, string)>, outcome: Outcome, n: nat, err: Option<string>) {
    marks == Told(outcome, n, if err.Some? then HintsFor(outcome, err.value) else 0)
  }

  lemma ContainsIsMentions(message: string, part: string)
    ensures Contains(message, part) <==> Mentions(message, part)
  {
    if Contains(message, part) {
      var i :| 0 <= i <= |message| - |part| && part <= message[i..];
      assert message == message[..i] + part + message[i + |part|..];
    }
    forall before, after | message == before + part + after ensures Contains(message, part) {
      assert message[|before|..] == part + after;
    }
  }

  /** There is advice exactly for the known problems. */
  lemma AdviceExactly(message: string)
    ensures DiagnoseDeployError(message) != "" <==> IsKnownProblem(message)
  {
    hide Contains, Mentions;
    ContainsIsMentions(message, "address already in use");
    ContainsIsMentions(message, "port is already allocated");
    ContainsIsMentions(message, "No such image");
    ContainsIsMentions(message, "name is already in use");
    ContainsIsMentions(message, "permission denied");
    ContainsIsMentions(message, "network not found");
    ContainsIsMentions(message, "timeout");
    ContainsIsMentions(message, "context deadline");
    ContainsIsMentions(message, "disk space");
    ContainsIsMentions(message, "no space left");
    ContainsIsMentions(message, "manifest unknown");
    ContainsIsMentions(message, "not found");
  }

  /**
   The streamed deployment: pulls everything, saves the compose file, then creates and starts service
   by service, rolling back when that fails.
   */
  method DeployComposeStreamed(daemon: Daemon, session: Session, agent: Agent, project: string,
                               decoded: Result<Services, string>, writeError: Option<string>,
                               authFor: string -> Option<string>)
    returns (err: Option<string>, ghost outcome: Outcome, ghost order: seq<string>)
    requires session.script == []
    modifies daemon, session
    ensures err.None? <==> outcome.Completed?
    ensures DeployedStreamed(PlanOf(agent, project, decoded), daemon.refuses, old(daemon.containers), daemon.containers,
                             decoded, outcome, order)
    ensures old(daemon.pulls) <= daemon.pulls
    ensures EndsAsItMust(PlanOf(agent, project, decoded), daemon.refuses, old(daemon.containers), decoded, writeError,
                         old(daemon.pulls), daemon.pulls, outcome)
    ensures daemon.startLog == old(daemon.startLog) + Names(project, order[..CreatedCount(outcome, order)])
    ensures daemon.removals == old(daemon.removals) + Attempts(ToRemove(project, order, outcome), daemon.refuses.remove)
    ensures ImagesFirst(daemon.images, ServicesOf(decoded), order, outcome)
    ensures forall name :: name in Remaining(outcome, order) ==>
      IsLabelled(daemon.containers, PlanOf(agent, project, decoded), name)
    ensures outcome.Completed? ==> AllWereReady(ServicesOf(decoded), project, old(daemon.containers))
    ensures session.done && ClosesLast(session.script)
    ensures err.Some? <==> Errors(session.script) > 0
    ensures |Emissions(session.script)| <= 9 + 4 * |order|
    ensures outcome.Completed? ==> |Emissions(session.script)| == 7 + 4 * |order|
    ensures TellsAll(Marks(session.script), outcome, |order|, err)
  {
    hide Marks, Told;
    err, outcome, order := RunStreamed(daemon, session, agent, project, decoded, writeError, authFor);
    RemainingAreLabelled(PlanOf(agent, project, decoded), daemon.refuses, old(daemon.containers), daemon.containers,
                    decoded, outcome, order);
    if outcome.Completed? {
      NothingBlocksTheReady(PlanOf(agent, project, decoded), daemon.refuses, old(daemon.containers), order);
    }
    ClosingAnOpenScript(session.script);
    ErrorsAppend(session.script, CloseDone);
    MarksAppend(session.script, CloseDone);
    session.Close();
  }

  /** The services whose containers a streamed run leaves, where removals work. */
  ghost function Remaining(outcome: Outcome, order: seq<string>): seq<string> {
    match outcome
    case Completed => order
    case FailedStarting(at) => if at < |order| then [order[at]] else []
    case _ => []
  }

  lemma RemainingAreLabelled(plan: Plan, refuses: Refusals, before: Containers, after: Containers,
                        decoded: Result<Services, string>, outcome: Outcome, order: seq<string>)
    requires DeployedStreamed(plan, refuses, before, after, decoded, outcome, order)
    ensures forall name :: name in Remaining(outcome, order) ==> IsLabelled(after, plan, name)
  {
    hide LabelsFor, Carries, DependencyOrder, Stuck;
    if outcome.Completed? {
      StartedAdds(plan, refuses, before, order);
    }
    forall name | name in Remaining(outcome, order) ensures IsLabelled(after, plan, name) {
      LabelsAreCarried(plan, name);
    }
  }

  /** How many services a streamed run has started; it starts none while it pulls. */
  ghost function CreatedCount(outcome: Outcome, order: seq<string>): nat {
    if outcome.FailedPulling? then 0 else StartedCount(outcome, order)
  }

  lemma ClosingAnOpenScript(script: seq<Action>)
    requires Closes(script) == 0
    ensures ClosesLast(script + [CloseDone]) && |Emissions(script + [CloseDone])| == |script|
  {
    NoClosesMeansAllEmissions(script);
    EmissionsOf(script);
  }

  lemma {:induction false} NoClosesMeansAllEmissions(script: seq<Action>)
    requires Closes(script) == 0
    ensures forall i :: 0 <= i < |script| ==> script[i].Emit?
  {
    if script != [] {
      NoClosesMeansAllEmissions(script[..|script| - 1]);
    }
  }

  lemma {:induction false} EmissionsOf(script: seq<Action>)
    requires forall i :: 0 <= i < |script| ==> script[i].Emit?
    ensures |Emissions(script + [CloseDone])| == |script|
  {
    if script == [] {
      assert script + [CloseDone] == [CloseDone];
    } else {
      assert (script + [CloseDone])[1..] == script[1..] + [CloseDone];
      EmissionsOf(script[1..]);
    }
  }

  /** The body of the streamed deployment, before the deferred close of Done. */
  method RunStreamed(daemon: Daemon, session: Session, agent: Agent, project: string,
                     decoded: Result<Services, string>, writeError: Option<string>,
                     authFor: string -> Option<string>)
    returns (err: Option<string>, ghost outcome: Outcome, ghost order: seq<string>)
    requires session.script == []
    modifies daemon, session
    ensures err.None? <==> outcome.Completed?
    ensures DeployedStreamed(PlanOf(agent, project, decoded), daemon.refuses, old(daemon.containers), daemon.containers,
                             decoded, outcome, order)
    ensures old(daemon.pulls) <= daemon.pulls
    ensures EndsAsItMust(PlanOf(agent, project, decoded), daemon.refuses, old(daemon.containers), decoded, writeError,
                         old(daemon.pulls), daemon.pulls, outcome)
    ensures daemon.startLog == old(daemon.startLog) + Names(project, order[..CreatedCount(outcome, order)])
    ensures daemon.removals == old(daemon.removals) + Attempts(ToRemove(project, order, outcome), daemon.refuses.remove)
    ensures ImagesFirst(daemon.images, ServicesOf(decoded), order, outcome)
    ensures OpenWithin(session.script, 9 + 4 * |order|) && Reported(session.script, err, order)
    ensures TellsAll(Marks(session.script), outcome, |order|, err)
  {
    order := [];
    var services, startOrder;
    err, services, startOrder, outcome := ParseAndResolve(session, decoded);
    if err.Some? {
      assert Marks(session.script) == Told(outcome, 0, 0);
      return;
    }
    order := startOrder;
    err, outcome := PullWriteAndStart(daemon, session, Plan(agent, project, services), startOrder, writeError, authFor);
  }

  method ParseAndResolve(session: Session, decoded: Result<Services, string>)
    returns (err: Option<string>, services: Services, order: seq<string>, ghost outcome: Outcome)
    modifies session
    ensures err.None? ==> Decodable(decoded) && services == decoded.value && StartOrderOf(GraphOf(decoded), order)
    ensures err.Some? ==> outcome == if Decodable(decoded) then FailedResolving else FailedParsing
    ensures err.Some? && Decodable(decoded) ==> Cyclic(GraphOf(decoded))
    ensures Closes(session.script) == Closes(old(session.script))
    ensures err.None? <==> Errors(session.script) == Errors(old(session.script))
    ensures |session.script| <= |old(session.script)| + 4
    ensures err.None? ==> |session.script| == |old(session.script)| + 4
    ensures Marks(session.script) == Marks(old(session.script)) + if err.Some? then Told(outcome, 0, 0) else Resolved()
  {
    hide Marks, Closes, Errors, Cyclic, Nodes, Requirements, DependencyOrder;
    ghost var before := Marks(session.script);
    services, order, outcome := map[], [], Completed;
    session.Emit("parse", "", "running");
    var parsed := ParseComposeFile(decoded);
    if parsed.Failure? {
      session.Emit("parse", parsed.error, "error");
      assert Marks(session.script) == before + Told(FailedParsing, 0, 0);
      return Some(parsed.error), services, order, FailedParsing;
    }
    services := parsed.value;
    session.Emit("parse", "", "done");
    err, order := ResolveAndTell(session, services);
    if err.Some? {
      assert Marks(session.script) == before + Told(FailedResolving, 0, 0);
      outcome := FailedResolving;
    } else {
      assert Marks(session.script) == before + Resolved();
    }
  }

  method ResolveAndTell(session: Session, services: Services) returns (err: Option<string>, order: seq<string>)
    modifies session
    ensures err.None? ==> StartOrderOf(Requirements(services), order)
    ensures err.Some? ==> Cyclic(Requirements(services))
    ensures Closes(session.script) == Closes(old(session.script))
    ensures Errors(session.script) == Errors(old(session.script)) + if err.Some? then 1 else 0
    ensures |session.script| == |old(session.script)| + 2
    ensures Marks(session.script) ==
      Marks(old(session.script)) + [("resolve", "running"), ("resolve", if err.Some? then "error" else "done")]
  {
    hide Marks, Closes, Errors, Cyclic, IsDeclaredCycle, StandsBefore, Declares, Nodes, Requirements, DependencyOrder;
    session.Emit("resolve", "", "running");
    var resolved := ResolveStartOrder(services);
    if resolved.Failure? {
      session.Emit("resolve", resolved.error, "error");
      return Some(resolved.error), [];
    }
    session.Emit("resolve", "", "done");
    return None, resolved.value;
  }

  /** The pulls and the saved file; with an error, nothing but images has changed. */
  method PullAndWrite(daemon: Daemon, session: Session, services: Services, order: seq<string>,
                      writeError: Option<string>, authFor: string -> Option<string>)
    returns (err: Option<string>, ghost outcome: Outcome)
    modifies daemon`images, daemon`pulls, session
    ensures err.None? ==> ImagesPresent(daemon.images, services, order, |order|)
    ensures old(daemon.pulls) <= daemon.pulls
    ensures err.None? <==> writeError.None? && PullsWorked(daemon.refuses, old(daemon.pulls), daemon.pulls)
    ensures err.Some? ==> outcome.FailedPulling? || outcome == FailedWriting
    ensures err.Some? ==> (outcome.FailedPulling? <==> !PullsWorked(daemon.refuses, old(daemon.pulls), daemon.pulls))
    ensures Closes(session.script) == Closes(old(session.script))
    ensures err.None? <==> Errors(session.script) == Errors(old(session.script))
    ensures |session.script| <= |old(session.script)| + 2 * |order| + 2
    ensures err.None? ==> |session.script| == |old(session.script)| + 2 * |order| + 2
    ensures Marks(old(session.script)) == Resolved() ==>
      if err.None? then Marks(session.script) == Written(|order|)
      else TellsAll(Marks(session.script), outcome, |order|, err)
  {
    hide Closes, Errors, Marks, ImagesPresent, PullHints, Each, Hints;
    outcome := Completed;
    var at: nat;
    err, at := PullAll(daemon, session, services, order, authFor);
    if err.Some? {
      return err, FailedPulling(at);
    }
    session.Emit("write", "", "running");
    if writeError.Some? {
      session.Emit("write", writeError.value, "error");
      assert Marks(old(session.script)) == Resolved() ==>
        Marks(session.script) == Told(FailedWriting, |order|, 0);
      return writeError, FailedWriting;
    }
    session.Emit("write", "", "done");
  }

  /** The services, and the last event if all of them were started. */
  method StartAndComplete(daemon: Daemon, session: Session, plan: Plan, order: seq<string>)
    returns (err: Option<string>, ghost outcome: Outcome)
    requires StartOrderOf(Requirements(plan.services), order)
    modifies daemon`containers, daemon`startLog, daemon`removals, session
    ensures outcome.Completed? || outcome.FailedCreating? || outcome.FailedStarting?
    ensures err.None? <==> outcome.Completed?
    ensures outcome.Completed? <==> NothingBlocks(plan, daemon.refuses, old(daemon.containers))
    ensures RolledBack(plan, daemon.refuses, old(daemon.containers), daemon.containers, order, outcome)
    ensures daemon.startLog == old(daemon.startLog) + Names(plan.project, order[..CreatedCount(outcome, order)])
    ensures daemon.removals ==
      old(daemon.removals) + Attempts(ToRemove(plan.project, order, outcome), daemon.refuses.remove)
    ensures Closes(session.script) == Closes(old(session.script))
    ensures err.None? <==> Errors(session.script) == Errors(old(session.script))
    ensures |session.script| <= |old(session.script)| + 2 * |order| + 3
    ensures err.None? ==> |session.script| == |old(session.script)| + 2 * |order| + 1
    ensures Marks(old(session.script)) == Written(|order|) ==> TellsAll(Marks(session.script), outcome, |order|, err)
  {
    hide Closes, Errors, Marks, Stuck, Started, LabelsFor;
    var at: nat;
    err, at := StartAll(daemon, session, plan, order);
    if err.Some? {
      assert order[at] in Elements(order) && !CanStart(plan, daemon.refuses, old(daemon.containers), order[at]);
      return err, BlockedAt(plan, daemon.refuses, old(daemon.containers), order, at);
    }
    assert order[..|order|] == order;
    session.Emit("complete", "", "done");
    assert Marks(old(session.script)) == Written(|order|) ==> Marks(session.script) == Told(Completed, |order|, 0);
    return None, Completed;
  }

  method PullWriteAndStart(daemon: Daemon, session: Session, plan: Plan, order: seq<string>, writeError: Option<string>,
                           authFor: string -> Option<string>)
    returns (err: Option<string>, ghost outcome: Outcome)
    requires StartOrderOf(Requirements(plan.services), order) && plan.services != map[]
    requires OpenWithin(session.script, 4) && |session.script| == 4 && Errors(session.script) == 0
    requires Marks(session.script) == Resolved()
    modifies daemon, session
    ensures err.None? <==> outcome.Completed?
    ensures DeployedStreamed(plan, daemon.refuses, old(daemon.containers), daemon.containers, Success(plan.services),
                             outcome, order)
    ensures old(daemon.pulls) <= daemon.pulls
    ensures EndsAsItMust(plan, daemon.refuses, old(daemon.containers), Success(plan.services), writeError,
                         old(daemon.pulls), daemon.pulls, outcome)
    ensures daemon.startLog == old(daemon.startLog) + Names(plan.project, order[..CreatedCount(outcome, order)])
    ensures daemon.removals ==
      old(daemon.removals) + Attempts(ToRemove(plan.project, order, outcome), daemon.refuses.remove)
    ensures ImagesFirst(daemon.images, plan.services, order, outcome)
    ensures OpenWithin(session.script, 9 + 4 * |order|) && Reported(session.script, err, order)
    ensures TellsAll(Marks(session.script), outcome, |order|, err)
  {
    hide TellsAll, Closes, Errors, Marks, NothingBlocks, ImagesPresent, FirstBlocked, Stuck, PullsWorked, Cyclic;
    err, outcome := PullAndWrite(daemon, session, plan.services, order, writeError, authFor);
    if err.Some? {
      return;
    }
    err, outcome := StartAndComplete(daemon, session, plan, order);
  }

  /** One error event, advice when there is some, and a word about credentials when access was refused. */
  method ReportPullFailure(session: Session, message: string, registryAuth: string)
    modifies session
    ensures Closes(session.script) == Closes(old(session.script))
    ensures Errors(session.script) > Errors(old(session.script))
    ensures |old(session.script)| < |session.script| <= |old(session.script)| + 3
    ensures Marks(session.script) == Marks(old(session.script)) + [("pull", "error")] + Hints(PullHints(message))
  {
    hide Marks, DiagnoseDeployError, Contains, Closes, Errors, IsKnownProblem, Mentions;
    AdviceExactly(message);
    ContainsIsMentions(message, "unauthorized");
    ContainsIsMentions(message, "denied");
    var suggestion := DiagnoseDeployError(message);
    session.Emit("pull", message, "error");
    if suggestion != "" {
      session.Emit("hint", suggestion, "error");
    }
    var denied := Contains(message, "unauthorized") || Contains(message, "denied");
    if denied {
      var hint := if registryAuth != "" then "Authentication failed" else "No credentials found";
      session.Emit("hint", hint, "error");
    }
    assert Hints(1) == [("hint", "error")] && Hints(2) == [("hint", "error"), ("hint", "error")];
  }

  /** Pulls in start order up to the first failure, whose position is `at`. */
  method PullAll(daemon: Daemon, session: Session, services: Services, order: seq<string>,
                 authFor: string -> Option<string>)
    returns (err: Option<string>, at: nat)
    modifies daemon`images, daemon`pulls, session
    ensures at <= |order| && (err.None? <==> at == |order|)
    ensures err.None? ==> ImagesPresent(daemon.images, services, order, |order|)
    ensures old(daemon.pulls) <= daemon.pulls
    ensures err.None? <==> PullsWorked(daemon.refuses, old(daemon.pulls), daemon.pulls)
    ensures Closes(session.script) == Closes(old(session.script))
    ensures err.None? <==> Errors(session.script) == Errors(old(session.script))
    ensures |session.script| <= |old(session.script)| + 2 * |order| + if err.Some? then 2 else 0
    ensures err.None? ==> |session.script| == |old(session.script)| + 2 * |order|
    ensures err.None? ==> Marks(session.script) == Marks(old(session.script)) + Each("pull", at)
    ensures err.Some? ==>
      Marks(session.script) == Marks(old(session.script)) + Each("pull", at)
        + ([("pull", "running"), ("pull", "error")] + Hints(PullHints(err.value)))
  {
    hide Closes, Errors, Marks, Hints, PullHints, Each;
    at := 0;
    EachGrows("pull", 0);
    while at < |order|
      invariant at <= |order| && ImagesPresent(daemon.images, services, order, at)
      invariant old(daemon.pulls) <= daemon.pulls && PullsWorked(daemon.refuses, old(daemon.pulls), daemon.pulls)
      invariant Closes(session.script) == Closes(old(session.script))
      invariant Errors(session.script) == Errors(old(session.script))
      invariant |session.script| == |old(session.script)| + 2 * at
      invariant Marks(session.script) == Marks(old(session.script)) + Each("pull", at)
    {
      var service := ServiceNamed(services, order[at]);
      session.Emit("pull", service.image, "running");
      var auth := authFor(service.image);
      var registryAuth := if auth.Some? then auth.value else "";
      err := PullImageIfNeeded(daemon, service.image);
      if err.Some? {
        ReportPullFailure(session, err.value, registryAuth);
        assert Marks(session.script) == Marks(old(session.script)) + Each("pull", at)
          + ([("pull", "running"), ("pull", "error")] + Hints(PullHints(err.value)));
        return;
      }
      session.Emit("pull", service.image, "done");
      EachGrows("pull", at);
      at := at + 1;
    }
    err := None;
  }

  /** Creates and starts in start order; when service `at` is blocked, removes what was started. */
  method StartAll(daemon: Daemon, session: Session, plan: Plan, order: seq<string>)
    returns (err: Option<string>, at: nat)
    requires NoDup(order)
    modifies daemon`containers, daemon`startLog, daemon`removals, session
    ensures at <= |order| && (err.None? <==> at == |order|)
    ensures RolledBack(plan, daemon.refuses, old(daemon.containers), daemon.containers, order,
                       if err.None? then Completed
                       else BlockedAt(plan, daemon.refuses, old(daemon.containers), order, at))
    ensures daemon.startLog == old(daemon.startLog) + Names(plan.project, order[..at])
    ensures daemon.removals == old(daemon.removals) +
      if err.None? then [] else Attempts(Names(plan.project, order[..at]), daemon.refuses.remove)
    ensures Closes(session.script) == Closes(old(session.script))
    ensures err.None? <==> Errors(session.script) == Errors(old(session.script))
    ensures |session.script| <= |old(session.script)| + 2 * |order| + if err.Some? then 3 else 0
    ensures err.None? ==> |session.script| == |old(session.script)| + 2 * |order|
    ensures err.None? ==> Marks(session.script) == Marks(old(session.script)) + Each("create", at)
    ensures err.Some? ==>
      Marks(session.script) ==
        Marks(old(session.script)) + Each("create", at) + Blocked(at, if IsKnownProblem(err.value) then 1 else 0)
  {
    hide Closes, Errors, Marks, FirstBlocked, Stuck, Started, Each, AllCanStart, IsKnownProblem, Hints;
    var created: seq<string>;
    err, at, created := StartUntilFailure(daemon, session, plan, order);
    if err.Some? {
      TellFailure(session, err.value);
      Cleanup(daemon, session, created, plan, order, at, old(daemon.containers));
      assert Marks(session.script) ==
        Marks(old(session.script)) + Each("create", at) + Blocked(at, if IsKnownProblem(err.value) then 1 else 0);
    } else {
      assert order[..at] == order;
    }
  }

  /** One error event, and advice when there is some. */
  method TellFailure(session: Session, message: string)
    modifies session
    ensures Closes(session.script) == Closes(old(session.script))
    ensures Errors(session.script) > Errors(old(session.script))
    ensures |session.script| <= |old(session.script)| + 2
    ensures Marks(session.script) ==
      Marks(old(session.script)) + [("create", "error")] + Hints(if IsKnownProblem(message) then 1 else 0)
  {
    hide Closes, Errors, Marks, DiagnoseDeployError, IsKnownProblem;
    var suggestion := DiagnoseDeployError(message);
    AdviceExactly(message);
    session.Emit("create", message, "error");
    if suggestion != "" {
      session.Emit("hint", suggestion, "error");
    }
    assert Hints(1) == [("hint", "error")];
  }

  method StartUntilFailure(daemon: Daemon, session: Session, plan: Plan, order: seq<string>)
    returns (err: Option<string>, at: nat, created: seq<string>)
    requires NoDup(order)
    modifies daemon`containers, daemon`startLog, session
    ensures at <= |order| && (err.None? <==> at == |order|) && created == Names(plan.project, order[..at])
    ensures daemon.startLog == old(daemon.startLog) + created
    ensures err.None? ==>
      && AllCanStart(plan, daemon.refuses, old(daemon.containers), order[..at])
      && daemon.containers == old(daemon.containers) + Started(plan, order[..at])
    ensures err.Some? ==>
      StartedUpTo(plan, daemon.refuses, old(daemon.containers), daemon.containers, order,
                  BlockedAt(plan, daemon.refuses, old(daemon.containers), order, at))
    ensures Closes(session.script) == Closes(old(session.script))
    ensures Errors(session.script) == Errors(old(session.script))
    ensures |session.script| == |old(session.script)| + 2 * at + if err.Some? then 1 else 0
    ensures Marks(session.script) ==
      Marks(old(session.script)) + Each("create", at) + if err.Some? then [("create", "running")] else []
  {
    hide Closes, Errors, Marks, CanCreate, CanStart, LabelsFor, Each, Started, StartedUpTo;
    NoneStarted(plan, order, daemon.containers);
    created, at := [], 0;
    EachGrows("create", 0);
    while at < |order|
      invariant at <= |order| && created == Names(plan.project, order[..at])
      invariant AllCanStart(plan, daemon.refuses, old(daemon.containers), order[..at])
      invariant daemon.containers == old(daemon.containers) + Started(plan, order[..at])
      invariant daemon.startLog == old(daemon.startLog) + created
      invariant Closes(session.script) == Closes(old(session.script))
      invariant Errors(session.script) == Errors(old(session.script))
      invariant |session.script| == |old(session.script)| + 2 * at
      invariant Marks(session.script) == Marks(old(session.script)) + Each("create", at)
    {
      NamesStep(plan.project, order, at);
      var container := ContainerName(plan.project, order[at]);
      session.Emit("create", container, "running");
      err := StartNext(daemon, plan, order, at, old(daemon.containers));
      if err.Some? {
        return;
      }
      created := created + [container];
      session.Emit("create", container, "done");
      EachGrows("create", at);
      at := at + 1;
    }
    err := None;
  }

  /** Removes the containers this run has started, when service `at` is blocked. */
  method Cleanup(daemon: Daemon, session: Session, created: seq<string>,
                 ghost plan: Plan, ghost order: seq<string>, ghost at: nat, ghost before: Containers)
    requires NoDup(order) && at < |order| && created == Names(plan.project, order[..at])
    requires StartedUpTo(plan, daemon.refuses, before, daemon.containers, order,
                         BlockedAt(plan, daemon.refuses, before, order, at))
    modifies daemon`containers, daemon`removals, session
    ensures RolledBack(plan, daemon.refuses, before, daemon.containers, order,
                       BlockedAt(plan, daemon.refuses, before, order, at))
    ensures daemon.removals == old(daemon.removals) + Attempts(created, daemon.refuses.remove)
    ensures Closes(session.script) == Closes(old(session.script))
    ensures Errors(session.script) == Errors(old(session.script))
    ensures |session.script| == |old(session.script)| + if created == [] then 0 else 2
    ensures Marks(session.script) ==
      Marks(old(session.script)) + if created == [] then [] else [("cleanup", "running"), ("cleanup", "done")]
  {
    hide Closes, Errors, Marks;
    ghost var now := daemon.containers;
    RemovalUndoes(plan, daemon.refuses, before, now, order, at);
    if |created| == 0 {
      return;
    }
    session.Emit("cleanup", "", "running");
    RemoveAll(daemon, created);
    session.Emit("cleanup", "", "done");
  }

  /** Removing the started containers from what a blocked run has left gives what `RolledBack` says. */
  lemma RemovalUndoes(plan: Plan, refuses: Refusals, before: Containers, now: Containers,
                      order: seq<string>, at: nat)
    requires NoDup(order) && at < |order|
    requires StartedUpTo(plan, refuses, before, now, order, BlockedAt(plan, refuses, before, order, at))
    ensures RolledBack(plan, refuses, before,
                       now - (Elements(Names(plan.project, order[..at])) - refuses.remove), order,
                       BlockedAt(plan, refuses, before, order, at))
  {
    hide LabelsFor;
    NextInOrder(order, at);
    OthersDoNotMatter(plan, refuses, before, order[..at], order[at]);
    StartedKeys(plan, order[..at]);
    StartedAreNew(plan, refuses, before, order[..at]);
    var removed := Elements(Names(plan.project, order[..at])) - refuses.remove;
    assert (before + Started(plan, order[..at])) - removed == before + Stuck(plan, refuses, order[..at]);
  }

  lemma StartedAreNew(plan: Plan, refuses: Refusals, before: Containers, names: seq<string>)
    requires AllCanStart(plan, refuses, before, names)
    ensures Started(plan, names).Keys !! before.Keys
  {
    StartedKeys(plan, names);
    forall i | 0 <= i < |names| ensures Names(plan.project, names)[i] !in before {
      assert names[i] in names;
    }
  }

  // ----- Consequences -----

  /** At every moment before the rollback, the started services include everything they depend on. */
  lemma StreamedRunIsAlwaysClosed(plan: Plan, refuses: Refusals, before: Containers, after: Containers,
                                  decoded: Result<Services, string>, outcome: Outcome, order: seq<string>)
    requires DeployedStreamed(plan, refuses, before, after, decoded, outcome, order)
    ensures AlwaysClosed(GraphOf(decoded), plan.project, Names(plan.project, order[..CreatedCount(outcome, order)]))
  {
    if CreatedCount(outcome, order) > 0 {
      StartingInOrderIsAlwaysClosed(GraphOf(decoded), plan.project, order, CreatedCount(outcome, order));
    }
  }

  /**
   When every removal works, a failed streamed run leaves the containers as they were, except exactly when
   a start was refused: then the one service's container is left, created and not running.
   */
  lemma LeftoverExactlyWhenStartRefused(plan: Plan, refuses: Refusals, before: Containers, after: Containers,
                                        decoded: Result<Services, string>, outcome: Outcome, order: seq<string>)
    requires DeployedStreamed(plan, refuses, before, after, decoded, outcome, order)
    requires refuses.remove == {} && !outcome.Completed?
    ensures after == before <==> !outcome.FailedStarting?
    ensures outcome.FailedStarting? ==>
      var name := order[outcome.at];
      after == before[ContainerName(plan.project, name) := Status(false, LabelsFor(plan, name))]
  {
    if outcome.FailedCreating? || outcome.FailedStarting? {
      assert Stuck(plan, refuses, order[..outcome.at]) == map[];
      assert before + map[] == before;
    }
  }

  lemma OneNode(name: string)
    ensures var g := Requirements(map[name := Service("", OtherForm, None, None)]);
      !Cyclic(g) && Nodes(g) == {name}
  {
    var g := Requirements(map[name := Service("", OtherForm, None, None)]);
    assert g == map[name := {}];
    OrderedGraphIsAcyclic(g, [name]);
  }

  /** A run of one service whose start alone is refused ends there. */
  lemma OneRefusedService(plan: Plan, refuses: Refusals, name: string, after: Containers, from: nat, to: nat,
                          outcome: Outcome, order: seq<string>)
    requires plan.services == map[name := Service("", OtherForm, None, None)]
    requires refuses == Refusals({}, {}, {ContainerName(plan.project, name)}, {})
    requires DeployedStreamed(plan, refuses, map[], after, Success(plan.services), outcome, order)
    requires EndsAsItMust(plan, refuses, map[], Success(plan.services), None, from, to, outcome)
    ensures outcome == FailedStarting(0)
    ensures after == map[ContainerName(plan.project, name) := Status(false, LabelsFor(plan, name))]
  {
    hide LabelsFor, Cyclic;
    OneNode(name);
    assert name in Elements(order) && !CanStart(plan, refuses, map[], name);
    assert forall i :: 0 <= i < |order| ==> order[i] in Elements(order);
    assert Stuck(plan, refuses, order[..0]) == map[];
    assert (map[] + map[])[ContainerName(plan.project, name) := Status(false, LabelsFor(plan, name))] ==
      map[ContainerName(plan.project, name) := Status(false, LabelsFor(plan, name))];
  }

  /** The leftover occurs: for every project and service name, when only that start is refused. */
  method LeftoverOccurs(agent: Agent, project: string, name: string) returns (daemon: Daemon, err: Option<string>)
    ensures err.Some? && daemon.refuses.remove == {}
    ensures daemon.containers.Keys == {project + "_" + name}
    ensures !daemon.containers[project + "_" + name].running
  {
    var services := map[name := Service("", OtherForm, None, None)];
    daemon := new Daemon(Refusals({}, {}, {ContainerName(project, name)}, {}), map[]);
    var session := new Session();
    ghost var outcome, order;
    err, outcome, order :=
      DeployComposeStreamed(daemon, session, agent, project, Success(services), None, image => None);
    OneRefusedService(Plan(agent, project, services), daemon.refuses, name, daemon.containers, 0, daemon.pulls,
                      outcome, order);
  }

  lemma {:induction false} ErrorsAreInTheScript(script: seq<Action>)
    ensures Errors(script) > 0 <==> exists a :: a in script && IsError(a)
    decreases |script|
  {
    if script != [] {
      var before, last := script[..|script| - 1], script[|script| - 1];
      ErrorsAreInTheScript(before);
      assert script == before + [last];
      assert forall a :: a in script <==> a in before || a == last;
    }
  }

  lemma {:induction false} EmissionsAreInTheScript(script: seq<Action>, e: Event)
    ensures e in Emissions(script) <==> Action.Emit(e) in script
  {
    if script != [] {
      EmissionsAreInTheScript(script[1..], e);
      assert forall a :: a in script <==> a == script[0] || a in script[1..];
    }
  }

  ghost predicate ShowsError(events: seq<Event>) {
    exists e :: e in events && e.status == "error"
  }

  lemma ErrorsAreEmitted(script: seq<Action>)
    ensures Errors(script) > 0 <==> ShowsError(Emissions(script))
  {
    ErrorsAreInTheScript(script);
    if Errors(script) > 0 {
      var a :| a in script && IsError(a);
      EmissionsAreInTheScript(script, a.event);
    }
    if ShowsError(Emissions(script)) {
      var e :| e in Emissions(script) && e.status == "error";
      EmissionsAreInTheScript(script, e);
      assert IsError(Action.Emit(e));
    }
  }

  /**
   A reader that drains the session of a streamed deployment of at most ten nodes has taken every event,
   and has seen an error exactly if the deployment failed.
   */
  lemma DeploymentsOfTenServicesAreFullyReported(script: seq<Action>, order: seq<string>, steps: seq<Step>)
    requires ClosesLast(script) && |Emissions(script)| <= 9 + 4 * |order| && |order| <= 10
    requires Run(Init(script), steps).Some?
    requires Run(Init(script), steps).value.phase == LeftAfterDrain
    ensures Run(Init(script), steps).value.taken == Emissions(script)
    ensures ShowsError(Run(Init(script), steps).value.taken) <==> Errors(script) > 0
  {
    SmallDeploysLoseNothing(script, steps);
    ErrorsAreEmitted(script);
  }
}

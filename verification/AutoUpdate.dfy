/**
 The auto-update switch of an app: the label is set or removed in the compose file, the file is deployed
 over whatever containers are there, and the list of apps then shows what the containers carry.
 */
module AutoUpdate {
  import opened Common
  import opened ComposeLabels
  import opened Deploy
  import Apps
  import StackStore
  import StartOrder

  // ----- Rewriting -----

  /** The value that the switch writes; an empty one removes the label. */
  function SwitchValue(enabled: bool): string {
    if enabled then "true" else ""
  }

  /** A service without a body is passed over; unsupported labels are an error. */
  function RelabelService(service: StartOrder.Service, enabled: bool): Option<StartOrder.Service> {
    match service.labels
    case None => Some(service)
    case Some(labels) =>
      match SetLabel(labels, Apps.AUTO_UPDATE, SwitchValue(enabled))
      case None => None
      case Some(rewritten) => Some(service.(labels := Some(rewritten)))
  }

  predicate CanRelabel(services: Services, enabled: bool) {
    forall name :: name in services ==> RelabelService(services[name], enabled).Some?
  }

  /** Only labels of an unsupported kind stand in the way. */
  lemma OnlyUnsupportedLabelsFail(services: Services, enabled: bool)
    ensures CanRelabel(services, enabled) <==>
      forall name :: name in services ==> services[name].labels != Some(Unsupported)
  {
  }

  function Relabel(services: Services, enabled: bool): Services
    requires CanRelabel(services, enabled)
  {
    map name | name in services :: RelabelService(services[name], enabled).value
  }

  /** The file as it is deployed; one that does not decode is deployed, and refused there, as it is. */
  function Rewritten(file: Result<Services, string>, enabled: bool): Result<Services, string>
    requires file.Success? ==> CanRelabel(file.value, enabled)
  {
    if file.Success? then Success(Relabel(file.value, enabled)) else file
  }

  // ----- Listing containers -----

  ghost predicate DistinctIds(containers: Containers, id: string -> string) {
    forall a, b :: a in containers && b in containers && id(a) == id(b) ==> a == b
  }

  /** The containers that carry a label, in any order; `id` are the ids, none of them empty. */
  ghost predicate IsListing(containers: Containers, id: string -> string, key: string, list: seq<Apps.Container>) {
    && (forall c :: c in list ==>
          c.name in containers && c.labels == containers[c.name].labels && c.id == id(c.name) && c.id != "")
    && (forall name :: name in containers && key in containers[name].labels ==> exists c :: c in list && c.name == name)
  }

  /** All containers with a label, whatever its value. */
  method ListContainersWithLabel(daemon: Daemon, id: string -> string, key: string) returns (list: seq<Apps.Container>)
    requires forall name :: name in daemon.containers ==> id(name) != ""
    ensures IsListing(daemon.containers, id, key, list)
  {
    list := [];
    var names := daemon.containers.Keys;
    while names != {}
      invariant names <= daemon.containers.Keys
      invariant forall c :: c in list ==>
        && c.name in daemon.containers && c.labels == daemon.containers[c.name].labels
        && c.id == id(c.name) && key in c.labels
      invariant forall name :: name in daemon.containers && name !in names && key in daemon.containers[name].labels ==>
        exists c :: c in list && c.name == name
      decreases |names|
    {
      var name :| name in names;
      names := names - {name};
      var labels := daemon.containers[name].labels;
      if key in labels {
        var c := Apps.Container(id(name), name, "", "", labels);
        assert forall d :: d in list + [c] <==> d in list || d == c;
        list := list + [c];
      }
    }
  }

  // ----- The handler -----

  datatype Answer = BadRequest | NotFound | InternalError | Done

  /** `file` is what a container of the project names as its compose file. */
  ghost predicate IsComposeFileOf(containers: Containers, project: string,
                                  files: map<string, Result<Services, string>>, file: Result<Services, string>) {
    exists name :: name in containers && IsAppContainer(containers[name].labels, project, files, file)
  }

  predicate IsAppContainer(labels: map<string, string>, project: string, files: map<string, Result<Services, string>>,
                           file: Result<Services, string>) {
    var path := Apps.LabelIn(labels, "dockpal.compose");
    Apps.LabelIn(labels, Apps.PROJECT) == project && path in files && file == files[path]
  }

  /** The first listed container of the project is at `at`; without one, that is the end of the list. */
  ghost predicate IsFirst(listed: seq<Apps.Container>, project: string, at: nat) {
    && at <= |listed|
    && (forall j :: 0 <= j < at ==> Apps.Label(listed[j], Apps.PROJECT) != project)
    && (at < |listed| ==> Apps.Label(listed[at], Apps.PROJECT) == project)
  }

  ghost predicate HasContainer(containers: Containers, project: string) {
    exists name :: name in containers && Apps.LabelIn(containers[name].labels, Apps.PROJECT) == project
  }

  /** A container of the project whose compose file can be read. */
  predicate NamesFile(labels: map<string, string>, files: map<string, Result<Services, string>>) {
    Apps.LabelIn(labels, "dockpal.compose") != "" && Apps.LabelIn(labels, "dockpal.compose") in files
  }

  /**
   The compose file of an app, read from where the first container of the project says it is.  There is
   none if there is no such container, or if that one names no readable file.
   */
  method ResolveAppCompose(daemon: Daemon, id: string -> string, project: string,
                           files: map<string, Result<Services, string>>)
    returns (file: Option<Result<Services, string>>, ghost listed: seq<Apps.Container>, ghost first: nat)
    requires forall name :: name in daemon.containers ==> id(name) != ""
    ensures IsListing(daemon.containers, id, Apps.PROJECT, listed) && IsFirst(listed, project, first)
    ensures file ==
      if first < |listed| && NamesFile(listed[first].labels, files)
      then Some(files[Apps.Label(listed[first], "dockpal.compose")]) else None
    ensures file.Some? ==> IsComposeFileOf(daemon.containers, project, files, file.value)
    ensures project != "" ==> (first < |listed| <==> HasContainer(daemon.containers, project))
  {
    hide IsListing;
    var containers := ListContainersWithLabel(daemon, id, Apps.PROJECT);
    listed := containers;
    for i := 0 to |containers|
      invariant forall j :: 0 <= j < i ==> Apps.Label(containers[j], Apps.PROJECT) != project
    {
      assert containers[i] in containers;
      if Apps.Label(containers[i], Apps.PROJECT) == project {
        var path := Apps.Label(containers[i], "dockpal.compose");
        if path == "" || path !in files {
          return None, listed, i;
        }
        assert IsAppContainer(daemon.containers[containers[i].name].labels, project, files, files[path]);
        return Some(files[path]), listed, i;
      }
    }
    return None, listed, |listed|;
  }

  /**
   Rewrites the app's compose file and deploys it, without removing the app's containers first.
   `files` are the readable compose files.
   */
  method SetAppAutoUpdate(daemon: Daemon, agent: Agent, id: string -> string, project: string,
                          bodyOk: bool, enabled: bool, files: map<string, Result<Services, string>>,
                          writeError: Option<string>)
    returns (answer: Answer, file: Option<Result<Services, string>>,
             ghost run: Option<Outcome>, ghost order: seq<string>)
    requires forall name :: name in daemon.containers ==> id(name) != ""
    modifies daemon
    ensures run.None? ==> daemon.containers == old(daemon.containers) && answer != Done
    ensures file.Some? ==> IsComposeFileOf(old(daemon.containers), project, files, file.value)
    ensures run.Some? <==>
      && project != "" && bodyOk && file.Some? && (file.value.Success? ==> CanRelabel(file.value.value, enabled))
    ensures run.Some? <==>
      && project != "" && bodyOk && file.Some?
      && (file.value.Success? ==>
            forall name :: name in file.value.value ==> file.value.value[name].labels != Some(Unsupported))
    ensures run.Some? ==>
      && DeployedPlainly(PlanOf(agent, project, Rewritten(file.value, enabled)), daemon.refuses, old(daemon.containers),
                         daemon.containers, Rewritten(file.value, enabled), writeError, run.value, order)
      && (answer == Done <==> run.value.Completed?)
  {
    hide CanRelabel, Relabel, DeployedPlainly, IsLabelled, NothingBlocks, IsListing, HasContainer, NamesFile;
    file, run, order := None, None, [];
    if project == "" || !bodyOk {
      return BadRequest, file, run, order;
    }
    ghost var listed, first;
    file, listed, first := ResolveAppCompose(daemon, id, project, files);
    if file.None? {
      return NotFound, file, run, order;
    }
    if file.value.Success? {
      OnlyUnsupportedLabelsFail(file.value.value, enabled);
    }
    if file.value.Success? && !CanRelabel(file.value.value, enabled) {
      return InternalError, file, run, order;
    }
    ghost var outcome;
    var err;
    err, outcome, order := DeployCompose(daemon, agent, project, Rewritten(file.value, enabled), writeError);
    run := Some(outcome);
    answer := if err.None? then Done else InternalError;
  }

  // ----- The list of apps, from the daemon's containers -----

  /** Some container of the project carries the label. */
  ghost predicate ShownBy(containers: Containers, project: string) {
    exists name :: name in containers && IsSwitchedOn(containers[name].labels, project)
  }

  predicate IsSwitchedOn(labels: map<string, string>, project: string) {
    Apps.ProjectOf(labels) == project && Apps.LabelIn(labels, Apps.AUTO_UPDATE) == "true"
  }

  ghost predicate Lists(apps: seq<Apps.App>, project: string) {
    exists i :: 0 <= i < |apps| && apps[i].name == project && apps[i].autoUpdate
  }

  /** A container with a listed label survives the merge of both listings. */
  lemma MergedHas(containers: Containers, id: string -> string,
                  labelled: seq<Apps.Container>, compose: seq<Apps.Container>, name: string) returns (c: Apps.Container)
    requires DistinctIds(containers, id)
    requires IsListing(containers, id, Apps.PROJECT, labelled)
    requires IsListing(containers, id, Apps.COMPOSE_PROJECT, compose)
    requires name in containers && Apps.ProjectOf(containers[name].labels) != ""
    ensures c in Apps.FirstOccurrences(labelled + compose) && c.labels == containers[name].labels
  {
    var all := labelled + compose;
    assert exists d :: d in all && d.name == name;
    var d :| d in all && d.name == name;
    Apps.IdsAreKeptOnce(all);
    assert d.id in Apps.Ids(Apps.FirstOccurrences(all));
    c :| c in Apps.FirstOccurrences(all) && c.id == d.id;
    Apps.FirstIsKept(all, c);
    assert c in all;
  }

  /** The list says that a project is switched on exactly when one of the daemon's containers does. */
  lemma ListShowsContainers(containers: Containers, id: string -> string, project: string,
                            labelled: seq<Apps.Container>, compose: seq<Apps.Container>, apps: seq<Apps.App>)
    requires project != "" && DistinctIds(containers, id)
    requires IsListing(containers, id, Apps.PROJECT, labelled)
    requires IsListing(containers, id, Apps.COMPOSE_PROJECT, compose)
    requires Apps.IsAppList(Apps.FirstOccurrences(labelled + compose), apps)
    ensures Lists(apps, project) <==> ShownBy(containers, project)
  {
    var merged := Apps.FirstOccurrences(labelled + compose);
    if Lists(apps, project) {
      var i :| 0 <= i < |apps| && apps[i].name == project && apps[i].autoUpdate;
      assert Apps.IsApp(merged, apps[i]);
      var c :| c in merged && Apps.Project(c) == project && Apps.Label(c, Apps.AUTO_UPDATE) == "true";
      Apps.FirstIsKept(labelled + compose, c);
      assert c in labelled + compose;
      assert IsSwitchedOn(containers[c.name].labels, project);
    }
    if ShownBy(containers, project) {
      var name :| name in containers && IsSwitchedOn(containers[name].labels, project);
      var c := MergedHas(containers, id, labelled, compose, name);
      assert Apps.HasProject(merged, project);
      assert project in Apps.AppNames(apps);
      var i :| 0 <= i < |apps| && apps[i].name == project;
      assert Apps.IsApp(merged, apps[i]);
    }
  }

  // ----- What the switch brings about -----

  /**
   Among the services that were pulled, one can be made, each before it started, whose container will carry
   the label for the project.
   */
  ghost predicate CanMakeOne(plan: Plan, refuses: Refusals, before: Containers, pulled: seq<string>) {
    exists i :: 0 <= i < |pulled| && IsSwitchedOn(LabelsFor(plan, pulled[i]), plan.project)
      && AllCanStart(plan, refuses, before, pulled[..i]) && CanCreate(plan, refuses, before, pulled[i])
  }

  /** The first service's container is there already. */
  predicate FirstExists(project: string, pulled: seq<string>, containers: Containers) {
    pulled != [] && ContainerName(project, pulled[0]) in containers
  }

  ghost predicate MadeOne(plan: Plan, outcome: Outcome, order: seq<string>) {
    exists name :: name in Made(outcome, order) && IsSwitchedOn(LabelsFor(plan, name), plan.project)
  }

  lemma MadeOneExactly(plan: Plan, refuses: Refusals, before: Containers, after: Containers,
                       outcome: Outcome, order: seq<string>)
    requires StartedUpTo(plan, refuses, before, after, order, outcome) && NoDup(order)
    ensures MadeOne(plan, outcome, order) <==> CanMakeOne(plan, refuses, before, Pulled(outcome, order))
  {
    hide StartedUpTo, CanCreate, CanStart, LabelsFor;
    var pulled := Pulled(outcome, order);
    MadeWasPulled(outcome, order);
    forall i | 0 <= i < |pulled|
      ensures pulled[i] in Made(outcome, order) <==>
        AllCanStart(plan, refuses, before, pulled[..i]) && CanCreate(plan, refuses, before, pulled[i])
    {
      MadeExactly(plan, refuses, before, after, order, outcome, i);
      assert pulled[..i] == order[..i];
    }
    assert forall name :: name in Made(outcome, order) ==> name in pulled;
  }

  /**
   After a plain run, the containers show the label if they did before, or one that was made does; where the
   container of the first service existed already, the run changes nothing in that.
   */
  lemma RunShowsExactly(plan: Plan, refuses: Refusals, before: Containers, after: Containers,
                        decoded: Result<Services, string>, writeError: Option<string>,
                        outcome: Outcome, order: seq<string>)
    requires DeployedPlainly(plan, refuses, before, after, decoded, writeError, outcome, order)
    ensures ShownBy(after, plan.project) <==>
      ShownBy(before, plan.project) || CanMakeOne(plan, refuses, before, Pulled(outcome, order))
    ensures FirstExists(plan.project, Pulled(outcome, order), before) ==>
      (ShownBy(after, plan.project) <==> ShownBy(before, plan.project))
  {
    hide CanMakeOne, StartedUpTo, LabelsFor;
    if Reached(outcome) {
      ShownByMade(plan, refuses, before, after, outcome, order);
      MadeOneExactly(plan, refuses, before, after, outcome, order);
    } else {
      NothingWasMade(plan, refuses, before, after, outcome, order);
    }
    if FirstExists(plan.project, Pulled(outcome, order), before) {
      FirstIsThere(plan, refuses, before, Pulled(outcome, order));
    }
  }

  lemma NothingWasMade(plan: Plan, refuses: Refusals, before: Containers, after: Containers,
                       outcome: Outcome, order: seq<string>)
    requires StartedUpTo(plan, refuses, before, after, order, outcome) && !Reached(outcome)
    ensures after == before && !CanMakeOne(plan, refuses, before, Pulled(outcome, order))
  {
  }

  lemma FirstIsThere(plan: Plan, refuses: Refusals, before: Containers, pulled: seq<string>)
    requires FirstExists(plan.project, pulled, before)
    ensures !CanMakeOne(plan, refuses, before, pulled)
  {
    hide LabelsFor;
    forall i | 0 < i < |pulled| ensures !AllCanStart(plan, refuses, before, pulled[..i]) {
      assert pulled[0] in pulled[..i] && !CanStart(plan, refuses, before, pulled[0]);
    }
  }

  lemma ShownByMade(plan: Plan, refuses: Refusals, before: Containers, after: Containers,
                    outcome: Outcome, order: seq<string>)
    requires StartedUpTo(plan, refuses, before, after, order, outcome) && NoDup(order)
    ensures ShownBy(after, plan.project) <==> ShownBy(before, plan.project) || MadeOne(plan, outcome, order)
  {
    hide LabelsFor, StartedUpTo;
    ContainersAfter(plan, refuses, before, after, order, outcome);
  }

  // ----- Ordinary compose files -----

  /** The labels of a service name the switch at most once, and do not claim a project. */
  ghost predicate IsOrdinary(service: StartOrder.Service, render: Item -> string) {
    match service.labels
    case None => true
    case Some(labels) =>
      OccursAtMostOnce(labels, Apps.AUTO_UPDATE) && Apps.PROJECT !in ParseLabels(labels, render)
  }

  lemma KeysDiffer()
    ensures '=' !in Apps.AUTO_UPDATE && Apps.AUTO_UPDATE != Apps.PROJECT
    ensures Apps.AUTO_UPDATE !in ["dockpal.managed", "dockpal.compose", "dockpal.service"]
    ensures Apps.PROJECT !in ["dockpal.managed", "dockpal.compose", "dockpal.service"]
  {
    assert Apps.AUTO_UPDATE[8] == 'a' && Apps.PROJECT[8] == 'p';
    assert "dockpal.managed"[8] == 'm' && "dockpal.compose"[8] == 'c' && "dockpal.service"[8] == 's';
  }

  /** A container made from a rewritten ordinary service carries the label exactly if it was switched on. */
  lemma MadeContainerShows(plan: Plan, services: Services, enabled: bool, name: string)
    requires plan.project != "" && CanRelabel(services, enabled) && plan.services == Relabel(services, enabled)
    requires name in services ==> IsOrdinary(services[name], plan.agent.render)
    ensures IsSwitchedOn(LabelsFor(plan, name), plan.project) <==>
      enabled && name in services && services[name].labels.Some?
  {
    KeysDiffer();
    if name in services && services[name].labels.Some? {
      RewriteThenRead(services[name].labels.value, Apps.AUTO_UPDATE, SwitchValue(enabled), plan.agent.render);
    }
  }

  /** Among the services that were pulled, one with labels can be made, each before it started. */
  ghost predicate CanMakeLabelled(plan: Plan, refuses: Refusals, before: Containers, services: Services,
                                  pulled: seq<string>) {
    exists i :: 0 <= i < |pulled| && pulled[i] in services && services[pulled[i]].labels.Some?
      && AllCanStart(plan, refuses, before, pulled[..i]) && CanCreate(plan, refuses, before, pulled[i])
  }

  ghost predicate AllOrdinary(services: Services, render: Item -> string) {
    forall name :: name in services ==> IsOrdinary(services[name], render)
  }

  /** For an ordinary file, a container that carries the label is made exactly when it was switched on. */
  lemma LabelledAreMadeExactly(plan: Plan, refuses: Refusals, before: Containers, services: Services, enabled: bool,
                               pulled: seq<string>)
    requires plan.project != "" && CanRelabel(services, enabled) && plan.services == Relabel(services, enabled)
    requires AllOrdinary(services, plan.agent.render)
    ensures CanMakeOne(plan, refuses, before, pulled) <==>
      enabled && CanMakeLabelled(plan, refuses, before, services, pulled)
  {
    hide LabelsFor, IsOrdinary, CanRelabel, Relabel, CanCreate, CanStart, IsSwitchedOn;
    forall i | 0 <= i < |pulled|
      ensures IsSwitchedOn(LabelsFor(plan, pulled[i]), plan.project) <==>
        enabled && pulled[i] in services && services[pulled[i]].labels.Some?
    {
      MadeContainerShows(plan, services, enabled, pulled[i]);
    }
  }

  // ----- Main results -----

  /**
   Switching and then listing, for every state of the daemon and every compose file: the list shows the app
   as switched on if and only if, before, a container carried the label or one that will could be made.
   So it agrees with the switch, for an ordinary file: switched off exactly if no container carried the
   label, and switched on exactly if one did or one can be made; with the first container there already,
   the list stays as it was.
   */
  method SwitchThenList(daemon: Daemon, agent: Agent, id: string -> string, project: string, enabled: bool,
                        files: map<string, Result<Services, string>>, writeError: Option<string>)
    returns (answer: Answer, file: Option<Result<Services, string>>, apps: seq<Apps.App>,
             ghost run: Option<Outcome>, ghost order: seq<string>)
    requires project != "" && (forall name :: id(name) != "") && (forall a, b :: id(a) == id(b) ==> a == b)
    modifies daemon
    ensures run.None? ==> (Lists(apps, project) <==> ShownBy(old(daemon.containers), project))
    ensures run.Some? ==> file.Some? && (file.value.Success? ==> CanRelabel(file.value.value, enabled))
    ensures run.Some? ==>
      (Lists(apps, project) <==>
         || ShownBy(old(daemon.containers), project)
         || CanMakeOne(PlanOf(agent, project, Rewritten(file.value, enabled)), daemon.refuses, old(daemon.containers),
                       Pulled(run.value, order)))
    ensures run.Some? && file.value.Success? && AllOrdinary(file.value.value, agent.render) ==>
      ((Lists(apps, project) <==> enabled) <==>
        if !enabled then !ShownBy(old(daemon.containers), project)
        else
          || ShownBy(old(daemon.containers), project)
          || CanMakeLabelled(Plan(agent, project, Relabel(file.value.value, enabled)), daemon.refuses,
                             old(daemon.containers), file.value.value, Pulled(run.value, order)))
    ensures run.Some? && FirstExists(project, Pulled(run.value, order), old(daemon.containers)) ==>
      (Lists(apps, project) <==> ShownBy(old(daemon.containers), project))
  {
    hide ShownBy, Lists, CanMakeOne, CanMakeLabelled, AllOrdinary, Relabel, CanRelabel, Pulled;
    answer, file, run, order := SetAppAutoUpdate(daemon, agent, id, project, true, enabled, files, writeError);
    var labelled := ListContainersWithLabel(daemon, id, Apps.PROJECT);
    var compose := ListContainersWithLabel(daemon, id, Apps.COMPOSE_PROJECT);
    apps := Apps.ListApps(labelled, compose);
    ListShowsContainers(daemon.containers, id, project, labelled, compose, apps);
    if run.Some? {
      var decoded := Rewritten(file.value, enabled);
      RunShowsExactly(PlanOf(agent, project, decoded), daemon.refuses, old(daemon.containers),
                      daemon.containers, decoded, writeError, run.value, order);
      if file.value.Success? && AllOrdinary(file.value.value, agent.render) {
        LabelledAreMadeExactly(PlanOf(agent, project, decoded), daemon.refuses, old(daemon.containers),
                               file.value.value, enabled, Pulled(run.value, order));
      }
    }
  }
}

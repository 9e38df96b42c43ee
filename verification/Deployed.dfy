/**
 From a deployment to the list of apps, and back to the compose file: what the labels of the containers are for.
 */
module Deployed {
  import opened Common
  import opened Deploy
  import opened AutoUpdate
  import opened StartOrder
  import Apps
  import StackStore

  /** The file leaves the agent's own labels alone, and names every service. */
  ghost predicate LeavesOwnLabels(agent: Agent, services: Services) {
    && "" !in Nodes(Requirements(services))
    && forall name, key :: name in services && key in ["dockpal.project", "dockpal.compose", "dockpal.service"] ==>
         key !in UserLabels(agent, services[name])
  }

  /** Where the compose file of a project is written. */
  function PathOf(agent: Agent, project: string): string {
    StackStore.LegacyDir(agent.basePath, project) + "/" + "docker-compose.yml"
  }

  /** The labels of a container of the project, as far as they name where it belongs. */
  ghost predicate Belongs(labels: map<string, string>, project: string, path: string, service: string) {
    && Holds(labels, "dockpal.project", project) && Holds(labels, "dockpal.compose", path)
    && Holds(labels, "dockpal.service", service)
  }

  ghost predicate BelongsToSome(labels: map<string, string>, project: string, path: string, names: set<string>) {
    exists service :: service in names && Belongs(labels, project, path, service)
  }

  ghost predicate HasOne(containers: Containers, project: string, path: string, service: string) {
    exists name :: name in containers && Belongs(containers[name].labels, project, path, service)
  }

  /** Every container belongs to a service of the project, and every service has one. */
  ghost predicate AreServices(containers: Containers, project: string, path: string, names: set<string>) {
    && (forall name :: name in containers ==> BelongsToSome(containers[name].labels, project, path, names))
    && (forall service :: service in names ==> HasOne(containers, project, path, service))
  }

  lemma DeployedAreServices(agent: Agent, project: string, refuses: Refusals, after: Containers,
                            decoded: Result<Services, string>, writeError: Option<string>, order: seq<string>)
    requires DeployedPlainly(PlanOf(agent, project, decoded), refuses, map[], after, decoded, writeError, Completed,
                             order)
    requires LeavesOwnLabels(agent, ServicesOf(decoded))
    ensures AreServices(after, project, PathOf(agent, project), Nodes(Requirements(ServicesOf(decoded))))
  {
    hide LabelsFor, PathOf, Nodes, Requirements, Carries, Belongs, LeavesOwnLabels, DependencyOrder, AllCanStart;
    var plan := PlanOf(agent, project, decoded);
    ContainersAfter(plan, refuses, map[], after, order, Completed);
    MadeAreLabelled(plan, refuses, map[], after, order, Completed);
    ServicesOfOrder(plan, after, order);
    assert Elements(order) == Nodes(Requirements(ServicesOf(decoded)));
  }

  lemma ServicesOfOrder(plan: Plan, after: Containers, order: seq<string>)
    requires StackStore.ValidProjectName(plan.project) && LeavesOwnLabels(plan.agent, plan.services)
    requires after.Keys == Elements(Names(plan.project, order))
    requires forall name :: name in order ==> IsLabelled(after, plan, name)
    ensures AreServices(after, plan.project, PathOf(plan.agent, plan.project), Elements(order))
  {
    hide PathOf, IsLabelled, Belongs, BelongsToSome, HasOne, LeavesOwnLabels, StackStore.ValidProjectName, Names;
    var path := PathOf(plan.agent, plan.project);
    forall service | service in order ensures HasOne(after, plan.project, path, service) {
      OneOfOrder(plan, after, order, service);
    }
    forall name | name in after ensures BelongsToSome(after[name].labels, plan.project, path, Elements(order)) {
      assert name in Elements(Names(plan.project, order));
      var service := NamedInOrder(plan.project, order, name);
      OneOfOrder(plan, after, order, service);
    }
  }

  lemma NamedInOrder(project: string, order: seq<string>, name: string) returns (service: string)
    requires name in Names(project, order)
    ensures service in order && ContainerName(project, service) == name
  {
    var i :| 0 <= i < |order| && Names(project, order)[i] == name;
    service := order[i];
  }

  lemma OneOfOrder(plan: Plan, after: Containers, order: seq<string>, service: string)
    requires StackStore.ValidProjectName(plan.project) && LeavesOwnLabels(plan.agent, plan.services)
    requires service in order && IsLabelled(after, plan, service)
    ensures var path := PathOf(plan.agent, plan.project);
      && HasOne(after, plan.project, path, service)
      && ContainerName(plan.project, service) in after
      && BelongsToSome(after[ContainerName(plan.project, service)].labels, plan.project, path, Elements(order))
  {
    hide PathOf, Carries, Belongs, LeavesOwnLabels, StackStore.ValidProjectName;
    LabelledBelongs(plan, after, service);
    assert service in Elements(order);
  }

  lemma LabelledBelongs(plan: Plan, containers: Containers, name: string)
    requires IsLabelled(containers, plan, name) && StackStore.ValidProjectName(plan.project)
    requires LeavesOwnLabels(plan.agent, plan.services)
    ensures ContainerName(plan.project, name) in containers
    ensures Belongs(containers[ContainerName(plan.project, name)].labels, plan.project,
                    PathOf(plan.agent, plan.project), name)
  {
    hide StackStore.LegacyDir, Nodes, Requirements;
    var own := ["dockpal.project", "dockpal.compose", "dockpal.service"];
    assert own[0] in own && own[1] in own && own[2] in own;
  }

  lemma BelongingIsNamed(c: Apps.Container, project: string, path: string, service: string)
    requires project != "" && service != "" && Belongs(c.labels, project, path, service)
    ensures Apps.IsNamed(c, project, service)
  {
  }

  ghost predicate IsNamedBySome(c: Apps.Container, project: string, names: set<string>) {
    exists service :: service in names && Apps.IsNamed(c, project, service)
  }

  /** A merged container is one of the project's, and is named by its service. */
  lemma MergedBelongs(containers: Containers, id: string -> string, project: string, path: string, names: set<string>,
                      labelled: seq<Apps.Container>, compose: seq<Apps.Container>, c: Apps.Container)
    requires project != "" && "" !in names && AreServices(containers, project, path, names)
    requires IsListing(containers, id, Apps.PROJECT, labelled)
    requires IsListing(containers, id, Apps.COMPOSE_PROJECT, compose)
    requires c in Apps.FirstOccurrences(labelled + compose)
    ensures IsNamedBySome(c, project, names)
  {
    hide Apps.FirstOccurrences, Apps.IsNamed, Belongs, HasOne;
    Apps.FirstIsKept(labelled + compose, c);
    assert c in labelled || c in compose;
    assert BelongsToSome(containers[c.name].labels, project, path, names);
    var service :| service in names && Belongs(c.labels, project, path, service);
    BelongingIsNamed(c, project, path, service);
  }

  /** Every service has a merged container. */
  lemma ServiceIsMerged(containers: Containers, id: string -> string, project: string, path: string,
                        names: set<string>, labelled: seq<Apps.Container>, compose: seq<Apps.Container>,
                        service: string)
    returns (c: Apps.Container)
    requires project != "" && "" !in names && DistinctIds(containers, id)
    requires AreServices(containers, project, path, names) && service in names
    requires IsListing(containers, id, Apps.PROJECT, labelled)
    requires IsListing(containers, id, Apps.COMPOSE_PROJECT, compose)
    ensures c in Apps.FirstOccurrences(labelled + compose) && Apps.IsNamed(c, project, service)
  {
    hide Apps.FirstOccurrences, Apps.IsNamed, IsListing, BelongsToSome;
    assert HasOne(containers, project, path, service);
    var name :| name in containers && Belongs(containers[name].labels, project, path, service);
    c := MergedHas(containers, id, labelled, compose, name);
    BelongingIsNamed(c, project, path, service);
  }

  ghost predicate HasService(app: Apps.App, service: string) {
    exists s :: s in app.services && s.name == service
  }

  /** The list of apps names the project and exactly its services. */
  lemma ServicesAreListed(containers: Containers, id: string -> string, project: string, path: string,
                          names: set<string>, labelled: seq<Apps.Container>, compose: seq<Apps.Container>,
                          apps: seq<Apps.App>)
    requires project != "" && names != {} && "" !in names && DistinctIds(containers, id)
    requires AreServices(containers, project, path, names)
    requires IsListing(containers, id, Apps.PROJECT, labelled)
    requires IsListing(containers, id, Apps.COMPOSE_PROJECT, compose)
    requires Apps.IsAppList(Apps.FirstOccurrences(labelled + compose), apps)
    requires Apps.Describes(Apps.FirstOccurrences(labelled + compose), apps)
    ensures |apps| == 1 && apps[0].name == project
    ensures forall service :: HasService(apps[0], service) <==> service in names
  {
    hide Apps.FirstOccurrences, Apps.IsAppList, Apps.IsNamed, AreServices, IsListing;
    var merged := Apps.FirstOccurrences(labelled + compose);
    forall c | c in merged ensures IsNamedBySome(c, project, names) {
      MergedBelongs(containers, id, project, path, names, labelled, compose, c);
    }
    forall service | service in names ensures Apps.IsListed(apps, project, service) {
      var c := ServiceIsMerged(containers, id, project, path, names, labelled, compose, service);
    }
    OneApp(merged, apps, project, names);
    forall service | HasService(apps[0], service) ensures service in names {
      ListedIsNamed(merged, apps, project, names, service);
    }
    forall service | service in names ensures HasService(apps[0], service) {
      var app, s :| app in apps && app.name == project && s in app.services && s.name == service;
    }
  }

  lemma OneApp(cs: seq<Apps.Container>, apps: seq<Apps.App>, project: string, names: set<string>)
    requires Apps.IsAppList(cs, apps) && names != {}
    requires forall c :: c in cs ==> IsNamedBySome(c, project, names)
    requires forall service :: service in names ==> Apps.IsListed(apps, project, service)
    ensures |apps| == 1 && apps[0].name == project
  {
    hide Apps.IsApp, Apps.IsNamed;
    var service :| service in names;
    assert Apps.IsListed(apps, project, service);
    forall i | 0 <= i < |apps| ensures apps[i].name == project {
      assert Apps.AppNames(apps)[i] == apps[i].name && apps[i].name in Apps.AppNames(apps);
      assert Apps.HasProject(cs, apps[i].name);
      var c :| c in cs && Apps.Project(c) == apps[i].name;
      var named :| named in names && Apps.IsNamed(c, project, named);
      Apps.NamesAgree(c, project, named);
    }
    if |apps| > 1 {
      assert Apps.Less(Apps.AppNames(apps)[0], Apps.AppNames(apps)[1]);
      Apps.LessIsTotal(project, project);
      assert false;
    }
  }

  lemma ListedIsNamed(cs: seq<Apps.Container>, apps: seq<Apps.App>, project: string, names: set<string>,
                      service: string)
    requires Apps.Describes(cs, apps) && |apps| == 1 && apps[0].name == project
    requires forall c :: c in cs ==> IsNamedBySome(c, project, names)
    requires HasService(apps[0], service)
    ensures service in names
  {
    hide Apps.IsNamed;
    var s :| s in apps[0].services && s.name == service;
    assert apps[0] in apps && Apps.ShowsFirst(cs, project, s);
    var i :| 0 <= i < |cs| && Apps.IsNamed(cs[i], project, service);
    assert cs[i] in cs && IsNamedBySome(cs[i], project, names);
    var named :| named in names && Apps.IsNamed(cs[i], project, named);
    Apps.NamesAgree(cs[i], project, named);
    Apps.NamesAgree(cs[i], project, service);
  }

  /** Listing the apps, and looking for the file of one. */
  method ListAndFind(daemon: Daemon, id: string -> string, project: string, ghost path: string,
                     ghost names: set<string>, files: map<string, Result<Services, string>>)
    returns (apps: seq<Apps.App>, file: Option<Result<Services, string>>)
    requires project != "" && names != {} && "" !in names && path in files && path != ""
    requires (forall name :: id(name) != "") && (forall a, b :: id(a) == id(b) ==> a == b)
    requires AreServices(daemon.containers, project, path, names)
    ensures |apps| == 1 && apps[0].name == project
    ensures forall service :: HasService(apps[0], service) <==> service in names
    ensures file == Some(files[path])
  {
    hide AreServices, Apps.FirstOccurrences, HasService, IsListing, Apps.IsAppList, Apps.Describes, IsFirst;
    var labelled := ListContainersWithLabel(daemon, id, Apps.PROJECT);
    var compose := ListContainersWithLabel(daemon, id, Apps.COMPOSE_PROJECT);
    apps := Apps.ListApps(labelled, compose);
    ServicesAreListed(daemon.containers, id, project, path, names, labelled, compose, apps);
    ghost var listed, first;
    file, listed, first := ResolveAppCompose(daemon, id, project, files);
    FirstNamesTheFile(daemon.containers, id, project, path, names, listed, first);
  }

  /**
   Deploying to an empty daemon, listing, and looking for the file: the list shows the project with each
   service under its own name, and the file is found where the deployment has written it.
   */
  method DeployThenFind(daemon: Daemon, agent: Agent, id: string -> string, project: string,
                        decoded: Result<Services, string>, writeError: Option<string>,
                        files: map<string, Result<Services, string>>)
    returns (err: Option<string>, apps: seq<Apps.App>, file: Option<Result<Services, string>>)
    requires daemon.containers == map[] && LeavesOwnLabels(agent, ServicesOf(decoded))
    requires (forall name :: id(name) != "") && (forall a, b :: id(a) == id(b) ==> a == b)
    requires StackStore.LegacyDir(agent.basePath, project) + "/" + "docker-compose.yml" in files
    modifies daemon
    ensures err.None? ==>
      && file == Some(files[StackStore.LegacyDir(agent.basePath, project) + "/" + "docker-compose.yml"])
      && |apps| == 1 && apps[0].name == project
      && forall service :: HasService(apps[0], service) <==> service in Nodes(Requirements(ServicesOf(decoded)))
  {
    hide AreServices, Requirements, Nodes, HasService, IsLabelled, StackStore.LegacyDir, NothingBlocks;
    apps, file := [], None;
    ghost var outcome, order;
    err, outcome, order := DeployCompose(daemon, agent, project, decoded, writeError);
    if err.None? {
      ghost var names := Nodes(Requirements(ServicesOf(decoded)));
      DeployedAreServices(agent, project, daemon.refuses, daemon.containers, decoded, writeError, order);
      ServicesAreNamed(ServicesOf(decoded));
      apps, file := ListAndFind(daemon, id, project, PathOf(agent, project), names, files);
    }
  }

  lemma ServicesAreNamed(services: Services)
    requires services != map[]
    ensures Nodes(Requirements(services)) != {}
  {
    var name :| name in services;
    assert name in Nodes(Requirements(services));
  }

  lemma FirstNamesTheFile(containers: Containers, id: string -> string, project: string, path: string,
                          names: set<string>, listed: seq<Apps.Container>, first: nat)
    requires project != "" && names != {} && AreServices(containers, project, path, names)
    requires IsListing(containers, id, Apps.PROJECT, listed) && IsFirst(listed, project, first)
    ensures first < |listed| && Holds(listed[first].labels, "dockpal.compose", path)
  {
    hide HasOne, Belongs;
    var service :| service in names;
    AnyIsListed(containers, id, project, path, service, listed);
    assert listed[first] in listed && BelongsToSome(listed[first].labels, project, path, names);
    var other :| other in names && Belongs(listed[first].labels, project, path, other);
    BelongingHolds(listed[first].labels, project, path, other);
  }

  lemma AnyIsListed(containers: Containers, id: string -> string, project: string, path: string, service: string,
                    listed: seq<Apps.Container>)
    requires HasOne(containers, project, path, service) && IsListing(containers, id, Apps.PROJECT, listed)
    ensures exists c :: c in listed && Apps.Label(c, Apps.PROJECT) == project
  {
    var name :| name in containers && Belongs(containers[name].labels, project, path, service);
    var c :| c in listed && c.name == name;
  }

  lemma BelongingHolds(labels: map<string, string>, project: string, path: string, service: string)
    requires Belongs(labels, project, path, service)
    ensures Holds(labels, "dockpal.compose", path)
  {
  }
}

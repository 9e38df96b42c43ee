/** Grouping containers into one summary per compose project. */
module Apps {
  import opened Common

  datatype Container = Container(id: string, name: string, image: string, state: string, labels: map<string, string>)

  datatype Service = Service(name: string, image: string, state: string)

  datatype App = App(name: string, services: seq<Service>, autoUpdate: bool)

  const PROJECT := "dockpal.project"
  const COMPOSE_PROJECT := "com.docker.compose.project"
  const AUTO_UPDATE := "dockpal.auto-update"

  /** A missing label reads as the empty string. */
  function LabelIn(labels: map<string, string>, key: string): string {
    if key in labels then labels[key] else ""
  }

  function Label(c: Container, key: string): string {
    LabelIn(c.labels, key)
  }

  /** The effective project, empty if there is none. */
  function ProjectOf(labels: map<string, string>): string {
    var own := LabelIn(labels, PROJECT);
    if own != "" then own else LabelIn(labels, COMPOSE_PROJECT)
  }

  function Project(c: Container): string {
    ProjectOf(c.labels)
  }

  function ServiceName(c: Container): string {
    var own := Label(c, "dockpal.service");
    var compose := Label(c, "com.docker.compose.service");
    if own != "" then own else if compose != "" then compose else c.name
  }

  function Summary(c: Container): Service {
    Service(ServiceName(c), c.image, c.state)
  }

  // ----- The order of names -----

  /** Lexicographic order. */
  predicate Less(a: string, b: string) {
    b != "" && (a == "" || a[0] < b[0] || (a[0] == b[0] && Less(a[1..], b[1..])))
  }

  lemma {:induction false} LessIsTransitive(a: string, b: string, c: string)
    requires Less(a, b) && Less(b, c)
    ensures Less(a, c)
  {
    if a != "" && a[0] == b[0] == c[0] {
      LessIsTransitive(a[1..], b[1..], c[1..]);
    }
  }

  lemma {:induction false} LessIsTotal(a: string, b: string)
    ensures Less(a, b) || a == b || Less(b, a)
    ensures !(Less(a, b) && Less(b, a)) && !Less(a, a)
  {
    if a != "" && b != "" {
      LessIsTotal(a[1..], b[1..]);
      assert a == [a[0]] + a[1..] && b == [b[0]] + b[1..];
    }
    if a != "" {
      LessIsTotal(a[1..], a[1..]);
    }
  }

  /** A name stands before another if it is a beginning of it, or is smaller where they first differ. */
  lemma {:induction false} LessExactly(a: string, b: string)
    ensures Less(a, b) <==>
      || (a <= b && |a| < |b|)
      || exists k :: 0 <= k < |a| && k < |b| && a[..k] == b[..k] && a[k] < b[k]
  {
    if a != "" && b != "" && a[0] == b[0] {
      LessExactly(a[1..], b[1..]);
      assert a == [a[0]] + a[1..] && b == [b[0]] + b[1..];
      forall k | 0 <= k < |a| - 1 && k < |b| - 1
        ensures a[1..][..k] == b[1..][..k] <==> a[..k + 1] == b[..k + 1]
        ensures a[1..][k] == a[k + 1] && b[1..][k] == b[k + 1]
      {
        assert a[..k + 1] == [a[0]] + a[1..][..k] && b[..k + 1] == [b[0]] + b[1..][..k];
        assert a[..k + 1][1..] == a[1..][..k] && b[..k + 1][1..] == b[1..][..k];
      }
      if exists k :: 0 <= k < |a| && k < |b| && a[..k] == b[..k] && a[k] < b[k] {
        var k :| 0 <= k < |a| && k < |b| && a[..k] == b[..k] && a[k] < b[k];
        assert a[1..][k - 1] < b[1..][k - 1] && a[1..][..k - 1] == b[1..][..k - 1];
      }
      if exists k :: 0 <= k < |a[1..]| && k < |b[1..]| && a[1..][..k] == b[1..][..k] && a[1..][k] < b[1..][k] {
        var k :| 0 <= k < |a[1..]| && k < |b[1..]| && a[1..][..k] == b[1..][..k] && a[1..][k] < b[1..][k];
        assert a[..k + 1] == b[..k + 1] && a[k + 1] < b[k + 1];
      }
    } else if a != "" && b != "" && a[0] < b[0] {
      assert a[..0] == b[..0];
    }
  }

  ghost predicate Ascending(names: seq<string>) {
    forall i, j :: 0 <= i < j < |names| ==> Less(names[i], names[j])
  }

  /** There is one way to list a set of names in ascending order. */
  lemma {:induction false} OneAscendingList(a: seq<string>, b: seq<string>)
    requires Ascending(a) && Ascending(b) && Elements(a) == Elements(b)
    ensures a == b
  {
    if a == [] || b == [] {
      NotEmpty(a);
      NotEmpty(b);
    } else {
      SameFirst(a, b);
      RestElements(a);
      RestElements(b);
      OneAscendingList(a[1..], b[1..]);
      assert a == [a[0]] + a[1..] && b == [b[0]] + b[1..];
    }
  }

  lemma NotEmpty(a: seq<string>)
    ensures a != [] ==> Elements(a) != {}
  {
    if a != [] {
      assert a[0] in Elements(a);
    }
  }

  lemma SameFirst(a: seq<string>, b: seq<string>)
    requires Ascending(a) && Ascending(b) && Elements(a) == Elements(b) && a != [] && b != []
    ensures a[0] == b[0]
  {
    assert a[0] in Elements(b) && b[0] in Elements(a);
    LessIsTotal(a[0], b[0]);
  }

  lemma RestElements(a: seq<string>)
    requires Ascending(a) && a != []
    ensures Elements(a[1..]) == Elements(a) - {a[0]}
  {
    forall i | 0 < i < |a| ensures a[i] != a[0] {
      LessIsTotal(a[0], a[i]);
    }
    assert forall x :: x in a ==> x == a[0] || x in a[1..];
  }

  // ----- What the list of apps says -----

  /** Containers with a new, nonempty id, in order. */
  function FirstOccurrences(cs: seq<Container>): seq<Container> {
    if cs == [] then []
    else
      var before, last := FirstOccurrences(cs[..|cs| - 1]), cs[|cs| - 1];
      if last.id == "" || last.id in Ids(cs[..|cs| - 1]) then before else before + [last]
  }

  function Ids(cs: seq<Container>): set<string> {
    set c | c in cs :: c.id
  }

  ghost predicate HasProject(cs: seq<Container>, project: string) {
    project != "" && exists c :: c in cs && Project(c) == project
  }

  ghost predicate AutoUpdates(cs: seq<Container>, project: string) {
    exists c :: c in cs && Project(c) == project && Label(c, AUTO_UPDATE) == "true"
  }

  predicate Runs(c: Container, project: string, service: string) {
    Project(c) == project && ServiceName(c) == service
  }

  /** The first container of a service. */
  function FirstOf(cs: seq<Container>, project: string, service: string): Option<Container> {
    if cs == [] then None
    else
      var before, last := FirstOf(cs[..|cs| - 1], project, service), cs[|cs| - 1];
      if before.Some? then before else if Runs(last, project, service) then Some(last) else None
  }

  function ServiceIn(cs: seq<Container>, project: string, service: string): Option<Service> {
    match FirstOf(cs, project, service)
    case None => None
    case Some(c) => Some(Summary(c))
  }

  function ServiceNames(services: seq<Service>): seq<string> {
    seq(|services|, i requires 0 <= i < |services| => services[i].name)
  }

  function AppNames(apps: seq<App>): seq<string> {
    seq(|apps|, i requires 0 <= i < |apps| => apps[i].name)
  }

  ghost predicate IsServiceList(cs: seq<Container>, project: string, services: seq<Service>) {
    && Ascending(ServiceNames(services))
    && (forall s :: s in ServiceNames(services) <==> ServiceIn(cs, project, s).Some?)
    && (forall i :: 0 <= i < |services| ==> ServiceIn(cs, project, services[i].name) == Some(services[i]))
  }

  ghost predicate IsApp(cs: seq<Container>, app: App) {
    IsServiceList(cs, app.name, app.services) && (app.autoUpdate <==> AutoUpdates(cs, app.name))
  }

  /** Apps in ascending order, one per project, each as its containers say. */
  ghost predicate IsAppList(cs: seq<Container>, apps: seq<App>) {
    && Ascending(AppNames(apps))
    && (forall p :: p in AppNames(apps) <==> HasProject(cs, p))
    && (forall i :: 0 <= i < |apps| ==> IsApp(cs, apps[i]))
  }

  // ----- What the definitions mean -----

  ghost predicate IsFirstOf(cs: seq<Container>, i: nat, project: string, service: string) {
    i < |cs| && Runs(cs[i], project, service) && forall j :: 0 <= j < i ==> !Runs(cs[j], project, service)
  }

  /** FirstOf is the container that no other one of the service precedes. */
  lemma {:induction false} FirstOfIsFirst(cs: seq<Container>, project: string, service: string)
    ensures FirstOf(cs, project, service).None? <==> forall c :: c in cs ==> !Runs(c, project, service)
    ensures FirstOf(cs, project, service).Some? ==>
      exists i: nat :: IsFirstOf(cs, i, project, service) && FirstOf(cs, project, service) == Some(cs[i])
    decreases |cs|
  {
    if cs != [] {
      var before, last := cs[..|cs| - 1], cs[|cs| - 1];
      FirstOfIsFirst(before, project, service);
      assert cs == before + [last];
      if FirstOf(before, project, service).Some? {
        var i: nat :| IsFirstOf(before, i, project, service) && FirstOf(before, project, service) == Some(before[i]);
        assert IsFirstOf(cs, i, project, service);
      } else if Runs(last, project, service) {
        assert IsFirstOf(cs, |before|, project, service);
      }
    }
  }

  /** Every id is kept, and once only. */
  lemma {:induction false} IdsAreKeptOnce(cs: seq<Container>)
    ensures Ids(FirstOccurrences(cs)) == Ids(cs) - {""}
    ensures var kept := FirstOccurrences(cs); forall i, j :: 0 <= i < j < |kept| ==> kept[i].id != kept[j].id
    decreases |cs|
  {
    if cs != [] {
      var before, last := cs[..|cs| - 1], cs[|cs| - 1];
      IdsAreKeptOnce(before);
      IdsAppend(before, last);
      IdsAppend(FirstOccurrences(before), last);
      assert cs == before + [last];
      assert forall c :: c in FirstOccurrences(before) ==> c.id in Ids(FirstOccurrences(before));
    }
  }

  lemma IdsAppend(cs: seq<Container>, c: Container)
    ensures Ids(cs + [c]) == Ids(cs) + {c.id}
  {
    assert forall d :: d in cs + [c] <==> d in cs || d == c;
  }

  /** A kept container is the first one with its id. */
  lemma {:induction false} FirstIsKept(cs: seq<Container>, c: Container)
    requires c in FirstOccurrences(cs)
    ensures exists i :: 0 <= i < |cs| && cs[i] == c && c.id !in Ids(cs[..i])
    decreases |cs|
  {
    var before, last := cs[..|cs| - 1], cs[|cs| - 1];
    if c in FirstOccurrences(before) {
      FirstIsKept(before, c);
      var i :| 0 <= i < |before| && before[i] == c && c.id !in Ids(before[..i]);
      assert before[..i] == cs[..i];
      assert cs[i] == c;
    } else {
      assert cs[|cs| - 1] == c && c.id !in Ids(cs[..|cs| - 1]);
    }
  }

  /** The order of the listings is kept. */
  lemma {:induction false} OrderIsKept(cs: seq<Container>)
    ensures Subsequence(FirstOccurrences(cs), cs)
    decreases |cs|
  {
    if cs != [] {
      OrderIsKept(cs[..|cs| - 1]);
      var kept, last := FirstOccurrences(cs[..|cs| - 1]), cs[|cs| - 1];
      assert (kept + [last])[..|kept|] == kept;
    }
  }

  // ----- One list only -----

  lemma SameServices(cs: seq<Container>, project: string, a: seq<Service>, b: seq<Service>)
    requires IsServiceList(cs, project, a) && IsServiceList(cs, project, b)
    ensures a == b
  {
    var names, others := ServiceNames(a), ServiceNames(b);
    assert forall s :: s in names <==> s in others;
    OneAscendingList(names, others);
    forall i | 0 <= i < |a| ensures a[i] == b[i] {
      assert names[i] == others[i];
    }
  }

  /** The containers, in merge order, determine the list: it does not depend on how maps are walked. */
  lemma OneAppList(cs: seq<Container>, a: seq<App>, b: seq<App>)
    requires IsAppList(cs, a) && IsAppList(cs, b)
    ensures a == b
  {
    var names, others := AppNames(a), AppNames(b);
    assert forall p :: p in names <==> p in others;
    OneAscendingList(names, others);
    forall i | 0 <= i < |a| ensures a[i] == b[i] {
      assert names[i] == others[i];
      assert IsApp(cs, a[i]) && IsApp(cs, b[i]);
      SameServices(cs, a[i].name, a[i].services, b[i].services);
    }
  }

  // ----- Merging -----

  /** Both listings, without containers that have no id or were seen before. */
  method Merge(labelled: seq<Container>, compose: seq<Container>) returns (merged: seq<Container>)
    ensures merged == FirstOccurrences(labelled + compose)
  {
    var seen: set<string>;
    merged, seen := AppendNew([], {}, [], labelled);
    assert [] + labelled == labelled;
    merged, seen := AppendNew(merged, seen, labelled, compose);
  }

  /** One of the two loops; `past` is what was read before. */
  method AppendNew(merged: seq<Container>, seen: set<string>, ghost past: seq<Container>, cs: seq<Container>)
    returns (result: seq<Container>, seenNow: set<string>)
    requires merged == FirstOccurrences(past) && seen == Ids(past) - {""}
    ensures result == FirstOccurrences(past + cs) && seenNow == Ids(past + cs) - {""}
  {
    hide FirstOccurrences, Ids;
    result, seenNow := merged, seen;
    assert past + cs[..0] == past;
    for i := 0 to |cs|
      invariant result == FirstOccurrences(past + cs[..i]) && seenNow == Ids(past + cs[..i]) - {""}
    {
      ghost var known := past + cs[..i];
      assert past + cs[..i + 1] == known + [cs[i]];
      OneMore(known, cs[i]);
      if cs[i].id != "" && cs[i].id !in seenNow {
        seenNow := seenNow + {cs[i].id};
        result := result + [cs[i]];
      }
    }
    assert past + cs[..|cs|] == past + cs;
  }

  lemma OneMore(cs: seq<Container>, c: Container)
    ensures Ids(cs + [c]) == Ids(cs) + {c.id}
    ensures FirstOccurrences(cs + [c]) ==
      if c.id == "" || c.id in Ids(cs) then FirstOccurrences(cs) else FirstOccurrences(cs) + [c]
  {
    IdsAppend(cs, c);
    assert (cs + [c])[..|cs|] == cs;
  }

  // ----- Grouping -----

  datatype Accumulator = Accumulator(autoUpdate: bool, services: map<string, Service>)

  ghost predicate Accumulates(cs: seq<Container>, project: string, acc: Accumulator) {
    && (acc.autoUpdate <==> AutoUpdates(cs, project))
    && (forall s :: (if s in acc.services then Some(acc.services[s]) else None) == ServiceIn(cs, project, s))
  }

  ghost predicate IsGrouped(cs: seq<Container>, projects: map<string, Accumulator>) {
    && (forall p :: p in projects <==> HasProject(cs, p))
    && (forall p :: p in projects ==> Accumulates(cs, p, projects[p]))
  }

  method Group(cs: seq<Container>) returns (projects: map<string, Accumulator>)
    ensures IsGrouped(cs, projects)
  {
    projects := map[];
    for i := 0 to |cs|
      invariant IsGrouped(cs[..i], projects)
    {
      var project := Project(cs[i]);
      assert cs[..i + 1] == cs[..i] + [cs[i]];
      if project == "" {
        OtherProjects(cs[..i], cs[i], projects, projects);
      } else {
        var acc := if project in projects then projects[project] else Accumulator(false, map[]);
        if project !in projects {
          NewProject(cs[..i], project);
        }
        var next := AddContainer(cs[..i], acc, cs[i]);
        OtherProjects(cs[..i], cs[i], projects, projects[project := next]);
        projects := projects[project := next];
      }
    }
    assert cs[..|cs|] == cs;
  }

  /** What one container adds to its project. */
  method AddContainer(ghost past: seq<Container>, acc: Accumulator, c: Container) returns (next: Accumulator)
    requires Project(c) != "" && Accumulates(past, Project(c), acc)
    ensures Accumulates(past + [c], Project(c), next)
  {
    next := acc;
    if Label(c, AUTO_UPDATE) == "true" {
      next := next.(autoUpdate := true);
    }
    var service := ServiceName(c);
    if service !in next.services {
      next := next.(services := next.services[service := Summary(c)]);
    }
    ContainerAdded(past, c, Project(c));
  }

  function OrElse(known: Option<Service>, c: Container, project: string, service: string): Option<Service> {
    if known.Some? then known else if Runs(c, project, service) then Some(Summary(c)) else None
  }

  lemma ContainerAdded(cs: seq<Container>, c: Container, project: string)
    ensures AutoUpdates(cs + [c], project) <==>
      AutoUpdates(cs, project) || (Project(c) == project && Label(c, AUTO_UPDATE) == "true")
    ensures HasProject(cs + [c], project) <==> HasProject(cs, project) || (project != "" && Project(c) == project)
    ensures forall s :: ServiceIn(cs + [c], project, s) == OrElse(ServiceIn(cs, project, s), c, project, s)
  {
    assert (cs + [c])[..|cs|] == cs;
    assert forall d :: d in cs + [c] <==> d in cs || d == c;
  }

  /** A project without containers has accumulated nothing. */
  lemma NewProject(cs: seq<Container>, project: string)
    requires project != "" && !HasProject(cs, project)
    ensures Accumulates(cs, project, Accumulator(false, map[]))
  {
    forall s ensures ServiceIn(cs, project, s) == None {
      FirstOfIsFirst(cs, project, s);
    }
  }

  lemma OtherProjects(cs: seq<Container>, c: Container, projects: map<string, Accumulator>,
                      next: map<string, Accumulator>)
    requires IsGrouped(cs, projects)
    requires forall p :: p != Project(c) || p == "" ==>
      (p in next <==> p in projects) && (p in next ==> next[p] == projects[p])
    requires var p := Project(c); p != "" ==> p in next && Accumulates(cs + [c], p, next[p])
    ensures IsGrouped(cs + [c], next)
  {
    forall p ensures p in next <==> HasProject(cs + [c], p) {
      ContainerAdded(cs, c, p);
    }
    forall p | p in next ensures Accumulates(cs + [c], p, next[p]) {
      if p != Project(c) {
        ContainerAdded(cs, c, p);
      }
    }
  }

  // ----- Sorting and listing -----

  ghost predicate SortedBy<T>(items: seq<T>, name: T -> string) {
    forall i, j :: 0 <= i < j < |items| ==> Less(name(items[i]), name(items[j]))
  }

  ghost predicate DistinctNames<T>(items: seq<T>, name: T -> string) {
    forall i, j :: 0 <= i < j < |items| ==> name(items[i]) != name(items[j])
  }

  /** Sorts items with distinct names. */
  method SortByName<T>(items: seq<T>, name: T -> string) returns (sorted: seq<T>)
    requires DistinctNames(items, name)
    ensures SortedBy(sorted, name) && Elements(sorted) == Elements(items)
  {
    sorted := [];
    for k := 0 to |items|
      invariant SortedBy(sorted, name) && Elements(sorted) == Elements(items[..k])
    {
      assert items[..k + 1] == items[..k] + [items[k]];
      ElementsAppend(items[..k], items[k]);
      forall i | 0 <= i < |sorted| ensures name(sorted[i]) != name(items[k]) {
        assert sorted[i] in Elements(items[..k]);
      }
      sorted := Insert(sorted, items[k], name);
    }
    assert items[..|items|] == items;
  }

  method Insert<T>(sorted: seq<T>, item: T, name: T -> string) returns (result: seq<T>)
    requires SortedBy(sorted, name) && forall i :: 0 <= i < |sorted| ==> name(sorted[i]) != name(item)
    ensures SortedBy(result, name) && Elements(result) == Elements(sorted) + {item}
  {
    var at: nat := |sorted|;
    while at > 0 && Less(name(item), name(sorted[at - 1]))
      invariant at <= |sorted| && forall i :: at <= i < |sorted| ==> Less(name(item), name(sorted[i]))
    {
      at := at - 1;
    }
    forall i | 0 <= i < at ensures Less(name(sorted[i]), name(item)) {
      LessIsTotal(name(sorted[at - 1]), name(item));
      if i < at - 1 {
        LessIsTransitive(name(sorted[i]), name(sorted[at - 1]), name(item));
      }
    }
    result := sorted[..at] + [item] + sorted[at..];
    assert forall x :: x in result <==> x in sorted || x == item by {
      assert sorted == sorted[..at] + sorted[at..];
    }
  }

  function NameOfService(svc: Service): string {
    svc.name
  }

  function NameOfApp(app: App): string {
    app.name
  }

  /** The services of one project; the map is walked in any order. */
  method ServiceList(services: map<string, Service>) returns (list: seq<Service>)
    requires forall s :: s in services ==> services[s].name == s
    ensures Ascending(ServiceNames(list))
    ensures forall svc :: svc in list <==> svc.name in services && services[svc.name] == svc
  {
    list := [];
    var names := services.Keys;
    while names != {}
      invariant names <= services.Keys && DistinctNames(list, NameOfService)
      invariant forall svc :: svc in list <==> svc.name in services.Keys - names && services[svc.name] == svc
      decreases |names|
    {
      var s :| s in names;
      names := names - {s};
      list := list + [services[s]];
    }
    ghost var unsorted := list;
    list := SortByName(list, NameOfService);
    assert forall svc :: svc in list <==> svc in Elements(unsorted);
  }

  lemma ServiceHasItsName(cs: seq<Container>, project: string, service: string)
    ensures ServiceIn(cs, project, service).Some? ==> ServiceIn(cs, project, service).value.name == service
  {
    FirstOfIsFirst(cs, project, service);
  }

  lemma AccumulatedNames(cs: seq<Container>, project: string, acc: Accumulator)
    requires Accumulates(cs, project, acc)
    ensures forall s :: s in acc.services ==> acc.services[s].name == s
  {
    forall s | s in acc.services ensures acc.services[s].name == s {
      ServiceHasItsName(cs, project, s);
    }
  }

  lemma AccumulatedServices(cs: seq<Container>, project: string, acc: Accumulator, list: seq<Service>)
    requires Accumulates(cs, project, acc) && Ascending(ServiceNames(list))
    requires forall svc :: svc in list <==> svc.name in acc.services && acc.services[svc.name] == svc
    ensures IsServiceList(cs, project, list)
  {
    AccumulatedNames(cs, project, acc);
    forall s ensures s in ServiceNames(list) <==> ServiceIn(cs, project, s).Some? {
      if s in acc.services {
        var i :| 0 <= i < |list| && list[i] == acc.services[s];
        assert ServiceNames(list)[i] == s;
      }
    }
    forall i | 0 <= i < |list| ensures ServiceIn(cs, project, list[i].name) == Some(list[i]) {
      assert list[i] in list;
    }
  }

  /** Sorts and packs what one project has accumulated. */
  method MakeApp(ghost cs: seq<Container>, project: string, acc: Accumulator) returns (app: App)
    requires Accumulates(cs, project, acc)
    ensures IsApp(cs, app) && app.name == project
  {
    AccumulatedNames(cs, project, acc);
    var services := ServiceList(acc.services);
    AccumulatedServices(cs, project, acc, services);
    app := App(project, services, acc.autoUpdate);
  }

  /** The apps made so far: one for each of these projects. */
  ghost predicate MadeFor(cs: seq<Container>, apps: seq<App>, projects: set<string>) {
    && (forall app :: app in apps ==> app.name in projects && IsApp(cs, app))
    && (forall p :: p in projects ==> p in AppNames(apps))
  }

  lemma OneMoreApp(cs: seq<Container>, apps: seq<App>, projects: set<string>, app: App)
    requires MadeFor(cs, apps, projects) && IsApp(cs, app) && app.name !in projects && DistinctNames(apps, NameOfApp)
    ensures MadeFor(cs, apps + [app], projects + {app.name}) && DistinctNames(apps + [app], NameOfApp)
  {
    assert AppNames(apps + [app]) == AppNames(apps) + [app.name];
    forall i | 0 <= i < |apps| ensures apps[i].name != app.name {
      assert apps[i] in apps;
    }
  }

  lemma SortedApps(cs: seq<Container>, projects: map<string, Accumulator>, list: seq<App>, apps: seq<App>)
    requires IsGrouped(cs, projects) && MadeFor(cs, list, projects.Keys)
    requires SortedBy(apps, NameOfApp) && Elements(apps) == Elements(list)
    ensures IsAppList(cs, apps)
  {
    assert forall app :: app in apps <==> app in Elements(list);
    forall p ensures p in AppNames(apps) <==> HasProject(cs, p) {
      if p in projects {
        assert p in AppNames(list);
        var i :| 0 <= i < |list| && list[i].name == p;
        assert list[i] in Elements(apps);
        var j :| 0 <= j < |apps| && apps[j] == list[i];
        assert AppNames(apps)[j] == p;
      }
      if p in AppNames(apps) {
        var i :| 0 <= i < |apps| && apps[i].name == p;
        assert apps[i] in Elements(list);
      }
    }
    forall i | 0 <= i < |apps| ensures IsApp(cs, apps[i]) {
      assert apps[i] in Elements(list);
    }
  }

  /** One app per project; the map is walked in any order. */
  method MakeApps(ghost cs: seq<Container>, projects: map<string, Accumulator>) returns (apps: seq<App>)
    requires IsGrouped(cs, projects)
    ensures IsAppList(cs, apps)
  {
    hide IsServiceList, AutoUpdates, ServiceIn, HasProject;
    var list: seq<App> := [];
    var names := projects.Keys;
    ghost var made := {};
    while names != {}
      invariant made !! names && made + names == projects.Keys
      invariant DistinctNames(list, NameOfApp) && MadeFor(cs, list, made)
      decreases |names|
    {
      var p :| p in names;
      var app := MakeApp(cs, p, projects[p]);
      OneMoreApp(cs, list, made, app);
      list := list + [app];
      names, made := names - {p}, made + {p};
    }
    apps := SortByName(list, NameOfApp);
    SortedApps(cs, projects, list, apps);
  }

  // ----- The list of apps, told by the fields and labels of the containers -----

  /** The first of two labels that is there and not empty, or else `other`. */
  predicate Reads(labels: map<string, string>, first: string, second: string, other: string, value: string) {
    if first in labels && labels[first] != "" then value == labels[first]
    else if second in labels && labels[second] != "" then value == labels[second]
    else value == other
  }

  predicate IsInProject(c: Container, project: string) {
    Reads(c.labels, "dockpal.project", "com.docker.compose.project", "", project)
  }

  predicate IsNamed(c: Container, project: string, service: string) {
    && IsInProject(c, project)
    && Reads(c.labels, "dockpal.service", "com.docker.compose.service", c.name, service)
  }

  /** Image and state are those of the first container of the service. */
  ghost predicate ShowsFirst(cs: seq<Container>, project: string, service: Service) {
    exists i :: 0 <= i < |cs| && IsNamed(cs[i], project, service.name)
      && service.image == cs[i].image && service.state == cs[i].state
      && forall j :: 0 <= j < i ==> !IsNamed(cs[j], project, service.name)
  }

  ghost predicate Switched(cs: seq<Container>, project: string) {
    exists c :: c in cs && IsInProject(c, project)
      && "dockpal.auto-update" in c.labels && c.labels["dockpal.auto-update"] == "true"
  }

  ghost predicate IsListed(apps: seq<App>, project: string, service: string) {
    exists app, s :: app in apps && app.name == project && s in app.services && s.name == service
  }

  /** Apps and services are those that the containers name, and each shows what its containers carry. */
  ghost predicate Describes(cs: seq<Container>, apps: seq<App>) {
    && (forall c, project, service :: c in cs && IsNamed(c, project, service) && project != "" ==>
          IsListed(apps, project, service))
    && (forall app :: app in apps ==> app.name != "" && (app.autoUpdate <==> Switched(cs, app.name)))
    && (forall app, s :: app in apps && s in app.services ==> ShowsFirst(cs, app.name, s))
  }

  lemma NamesAgree(c: Container, project: string, service: string)
    ensures IsInProject(c, project) <==> Project(c) == project
    ensures IsNamed(c, project, service) <==> Runs(c, project, service)
  {
  }

  lemma ServicesShowFirst(cs: seq<Container>, project: string, service: Service)
    requires ServiceIn(cs, project, service.name) == Some(service)
    ensures ShowsFirst(cs, project, service)
  {
    FirstOfIsFirst(cs, project, service.name);
    var i: nat :| IsFirstOf(cs, i, project, service.name) && FirstOf(cs, project, service.name) == Some(cs[i]);
    forall j | 0 <= j < |cs| ensures IsNamed(cs[j], project, service.name) <==> Runs(cs[j], project, service.name) {
      NamesAgree(cs[j], project, service.name);
    }
  }

  lemma EveryServiceIsListed(cs: seq<Container>, apps: seq<App>, c: Container, project: string, service: string)
    requires IsAppList(cs, apps) && c in cs && IsNamed(c, project, service) && project != ""
    ensures IsListed(apps, project, service)
  {
    NamesAgree(c, project, service);
    assert HasProject(cs, project) && project in AppNames(apps);
    var i :| 0 <= i < |apps| && apps[i].name == project;
    assert IsApp(cs, apps[i]);
    FirstOfIsFirst(cs, project, service);
    assert service in ServiceNames(apps[i].services);
    var k :| 0 <= k < |apps[i].services| && apps[i].services[k].name == service;
    assert apps[i] in apps && apps[i].services[k] in apps[i].services;
  }

  lemma FlagsAgree(cs: seq<Container>, project: string)
    ensures AutoUpdates(cs, project) <==> Switched(cs, project)
  {
    forall c | c in cs ensures IsInProject(c, project) <==> Project(c) == project {
      NamesAgree(c, project, "");
    }
  }

  lemma ListsDescribe(cs: seq<Container>, apps: seq<App>)
    requires IsAppList(cs, apps)
    ensures Describes(cs, apps)
  {
    hide ServiceIn, ShowsFirst, Switched, AutoUpdates, IsNamed;
    forall c, project, service | c in cs && IsNamed(c, project, service) && project != ""
      ensures IsListed(apps, project, service)
    {
      EveryServiceIsListed(cs, apps, c, project, service);
    }
    forall app | app in apps ensures app.name != "" && (app.autoUpdate <==> Switched(cs, app.name)) {
      assert app.name in AppNames(apps) by {
        var i :| 0 <= i < |apps| && apps[i] == app;
        assert AppNames(apps)[i] == app.name;
      }
      assert IsApp(cs, app);
      FlagsAgree(cs, app.name);
    }
    forall app, s | app in apps && s in app.services ensures ShowsFirst(cs, app.name, s) {
      assert IsApp(cs, app);
      ServicesShowFirst(cs, app.name, s);
    }
  }

  /** All apps of the containers in two listings; a container in both counts as in the first. */
  method ListApps(labelled: seq<Container>, compose: seq<Container>) returns (apps: seq<App>)
    ensures IsAppList(FirstOccurrences(labelled + compose), apps)
    ensures Describes(FirstOccurrences(labelled + compose), apps)
  {
    var containers := Merge(labelled, compose);
    var projects := Group(containers);
    apps := MakeApps(containers, projects);
    ListsDescribe(containers, apps);
  }
}

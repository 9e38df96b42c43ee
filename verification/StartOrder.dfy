/**
 Service start order: the depth-first topological sort over `depends_on`.

 Map iteration order is arbitrary in the program, so every place that ranges over a map picks its
 next key nondeterministically here.  All contracts hold for every such choice.
 */
module StartOrder {
  import opened Common
  import ComposeLabels

  // ----- Compose services, as far as the start order looks at them -----

  /** A `depends_on` value after YAML decoding; a list item that is not a string is `None`. */
  datatype DependsOn =
    | ListForm(items: seq<Option<string>>)
    | MapForm(names: set<string>)
    | OtherForm

  /**
   A service; one without a body has no labels node to speak of.  `malformed` is the error of the first
   port or volume entry that does not parse, if any.
   */
  datatype Service = Service(image: string, dependsOn: DependsOn, labels: Option<ComposeLabels.Labels>,
                             malformed: Option<string>)

  function Required(dep: DependsOn): set<string> {
    match dep
    case ListForm(items) => set item | item in items && item.Some? :: item.value
    case MapForm(names) => names
    case OtherForm => {}
  }

  // ----- The dependency relation -----

  type Graph = map<string, set<string>>

  /** The `depends_on` relation of a compose file. */
  function Requirements(services: map<string, Service>): Graph {
    map name | name in services :: Required(services[name].dependsOn)
  }

  /** What `node` depends on; a name that is not a service depends on nothing. */
  function Deps(g: Graph, node: string): set<string> {
    if node in g then g[node] else {}
  }

  ghost predicate IsPath(g: Graph, p: seq<string>) {
    |p| >= 1 && forall i :: 0 <= i < |p| - 1 ==> p[i + 1] in Deps(g, p[i])
  }

  ghost predicate PathBetween(g: Graph, a: string, b: string, p: seq<string>) {
    IsPath(g, p) && p[0] == a && p[|p| - 1] == b
  }

  ghost predicate Reaches(g: Graph, a: string, b: string) {
    exists p :: PathBetween(g, a, b, p)
  }

  /** A nonempty path leads from `node` back to itself; self-loops included. */
  ghost predicate OnCycle(g: Graph, node: string) {
    exists p :: PathBetween(g, node, node, p) && |p| >= 2
  }

  ghost predicate Cyclic(g: Graph) {
    exists node :: OnCycle(g, node)
  }

  /** Services and everything named in a `depends_on`, defined as a service or not. */
  function Nodes(g: Graph): set<string> {
    g.Keys + set node, dep | node in g && dep in g[node] :: dep
  }

  /** Every node comes after everything it depends on. */
  ghost predicate DependencyOrder(g: Graph, order: seq<string>) {
    forall i, dep :: 0 <= i < |order| && dep in Deps(g, order[i]) ==> dep in order[..i]
  }

  // ----- Lemmas about paths and orders -----

  lemma NodesAreReachable(g: Graph, node: string)
    ensures node in Nodes(g) <==> exists key :: key in g && Reaches(g, key, node)
  {
    forall key, p | key in g && PathBetween(g, key, node, p) ensures node in Nodes(g) {
      if |p| >= 2 {
        assert p[|p| - 2 + 1] in Deps(g, p[|p| - 2]);
      }
    }
    if node in g {
      assert PathBetween(g, node, node, [node]);
    } else if node in Nodes(g) {
      var key :| key in g && node in g[key];
      assert PathBetween(g, key, node, [key, node]);
    }
  }

  /** Along a path, positions in a dependency order strictly decrease. */
  lemma {:induction false} PathDescends(g: Graph, order: seq<string>, p: seq<string>, i: nat) returns (j: nat)
    requires NoDup(order) && DependencyOrder(g, order)
    requires IsPath(g, p) && i < |order| && p[0] == order[i]
    ensures j <= i && p[|p| - 1] == order[j]
    ensures |p| >= 2 ==> j < i
    decreases |p|
  {
    j := i;
    if |p| >= 2 {
      assert p[1] in Deps(g, order[i]);
      assert p[1] in order[..i];
      var k :| 0 <= k < i && order[k] == p[1];
      var tail := p[1..];
      assert forall m :: 0 <= m < |tail| ==> tail[m] == p[m + 1];
      j := PathDescends(g, order, tail, k);
    }
  }

  /** A graph whose services can all be put in a dependency order has no cycle. */
  lemma OrderedGraphIsAcyclic(g: Graph, order: seq<string>)
    requires NoDup(order) && DependencyOrder(g, order) && g.Keys <= Elements(order)
    ensures !Cyclic(g)
  {
    if Cyclic(g) {
      var node :| OnCycle(g, node);
      var p :| PathBetween(g, node, node, p) && |p| >= 2;
      assert p[1] in Deps(g, p[0]);
      assert node in order;
      var i :| 0 <= i < |order| && order[i] == node;
      var j := PathDescends(g, order, p, i);
      assert false;
    }
  }

  /** Every prefix of a dependency order is closed under `depends_on`. */
  lemma PrefixIsClosed(g: Graph, order: seq<string>, k: nat, node: string)
    requires DependencyOrder(g, order) && k <= |order| && node in order[..k]
    ensures Deps(g, node) <= Elements(order[..k])
  {
    var i :| 0 <= i < k && order[i] == node;
    forall dep | dep in Deps(g, node) ensures dep in order[..k] {
      assert dep in order[..i];
      var m :| 0 <= m < i && order[m] == dep;
      assert order[..k][m] == dep;
    }
  }

  lemma ExtendOrder(g: Graph, order: seq<string>, node: string)
    requires NoDup(order) && DependencyOrder(g, order)
    requires node !in order && Deps(g, node) <= Elements(order)
    ensures NoDup(order + [node]) && DependencyOrder(g, order + [node])
    ensures Elements(order + [node]) == Elements(order) + {node}
  {
    var longer := order + [node];
    forall i, dep | 0 <= i < |longer| && dep in Deps(g, longer[i]) ensures dep in longer[..i] {
      assert longer[..|order|] == order;
      if i < |order| {
        assert longer[..i] == order[..i];
      }
    }
  }

  lemma ClosesCycle(g: Graph, trail: seq<string>, node: string)
    requires IsPath(g, trail + [node]) && node in Elements(trail)
    ensures OnCycle(g, node)
  {
    var i :| 0 <= i < |trail| && trail[i] == node;
    var loop := (trail + [node])[i..];
    assert PathBetween(g, node, node, loop);
  }

  lemma OneFurther(g: Graph, trail: seq<string>, node: string, dep: string)
    requires IsPath(g, trail + [node]) && dep in Deps(g, node)
    ensures IsPath(g, trail + [node] + [dep]) && dep in Nodes(g)
  {
  }

  // ----- The sort itself -----

  /** The relation a concrete dependency table stands for. */
  function Relation(deps: map<string, seq<string>>): Graph {
    map node | node in deps :: Elements(deps[node])
  }

  /** The variables that the recursive closure `visit` captures. */
  class Sorter {
    const deps: map<string, seq<string>>
    var visited: set<string>
    var inStack: set<string>
    var order: seq<string>

    ghost function Graph(): Graph {
      Relation(deps)
    }

    ghost predicate Consistent()
      reads this
    {
      && NoDup(order)
      && visited == Elements(order)
      && visited <= Nodes(Graph())
      && visited !! inStack
      && DependencyOrder(Graph(), order)
    }

    constructor (deps: map<string, seq<string>>)
      ensures this.deps == deps && Consistent() && inStack == {} && order == []
    {
      this.deps := deps;
      visited, inStack, order := {}, {}, [];
    }

    /**
     `trail` is the chain of calls that are still open: a path whose nodes are exactly `inStack`.
     A result `Some(n)` is the error "circular dependency detected at n".
     */
    method Visit(node: string, ghost trail: seq<string>) returns (cycleAt: Option<string>)
      requires Consistent() && node in Nodes(Graph())
      requires Elements(trail) == inStack && IsPath(Graph(), trail + [node])
      modifies this
      ensures cycleAt.Some? ==> OnCycle(Graph(), cycleAt.value)
      ensures cycleAt.None? ==> Consistent() && inStack == old(inStack) && node in visited
      ensures cycleAt.None? ==> old(visited) <= visited && old(order) <= order
      decreases Nodes(Graph()) - visited - inStack
    {
      hide IsPath, OnCycle, DependencyOrder, NoDup;
      if node in inStack {
        ClosesCycle(Graph(), trail, node);
        return Some(node);
      }
      if node in visited {
        return None;
      }
      inStack := inStack + {node};
      var next := if node in deps then deps[node] else [];
      assert Elements(next) == Deps(Graph(), node);
      for i := 0 to |next|
        invariant Consistent() && inStack == old(inStack) + {node}
        invariant old(visited) <= visited && old(order) <= order
        invariant forall k :: 0 <= k < i ==> next[k] in visited
      {
        OneFurther(Graph(), trail, node, next[i]);
        var r := Visit(next[i], trail + [node]);
        if r.Some? {
          return r;
        }
      }
      ExtendOrder(Graph(), order, node);
      inStack := inStack - {node};
      visited := visited + {node};
      order := order + [node];
      return None;
    }
  }

  /** Sorts the nodes reachable from the keys of `deps`, or names a node on a cycle. */
  method TopologicalSort(deps: map<string, seq<string>>) returns (r: Result<seq<string>, string>)
    ensures r.Failure? <==> Cyclic(Relation(deps))
    ensures r.Failure? ==> OnCycle(Relation(deps), r.error)
    ensures r.Success? ==> NoDup(r.value) && Elements(r.value) == Nodes(Relation(deps))
    ensures r.Success? ==> DependencyOrder(Relation(deps), r.value)
  {
    var sorter := new Sorter(deps);
    ghost var g := Relation(deps);
    var todo := deps.Keys;
    while todo != {}
      invariant sorter.Consistent() && sorter.inStack == {} && sorter.deps == deps
      invariant todo <= deps.Keys && deps.Keys - todo <= sorter.visited
      decreases todo
    {
      var name :| name in todo;
      var cycleAt := sorter.Visit(name, []);
      if cycleAt.Some? {
        return Failure(cycleAt.value);
      }
      todo := todo - {name};
    }
    OrderedGraphIsAcyclic(g, sorter.order);
    forall node, dep | node in g && dep in g[node] ensures dep in sorter.visited {
      var i :| 0 <= i < |sorter.order| && sorter.order[i] == node;
      assert dep in Deps(g, sorter.order[i]);
    }
    return Success(sorter.order);
  }

  /** Reads a `depends_on` value; the order of a mapping's names is arbitrary. */
  method ParseDependsOn(dep: DependsOn) returns (names: seq<string>)
    ensures dep.ListForm? ==> forall name :: name in names <==> Some(name) in dep.items
    ensures dep.MapForm? ==> forall name :: name in names <==> name in dep.names
    ensures dep.OtherForm? ==> names == []
    ensures Elements(names) == Required(dep)
  {
    names := [];
    match dep {
      case ListForm(items) =>
        for i := 0 to |items|
          invariant Elements(names) == Required(ListForm(items[..i]))
        {
          assert items[..i + 1] == items[..i] + [items[i]];
          if items[i].Some? {
            ElementsAppend(names, items[i].value);
            names := names + [items[i].value];
          }
        }
        assert items[..|items|] == items;
      case MapForm(set0) =>
        var todo := set0;
        while todo != {}
          invariant todo <= set0 && Elements(names) == set0 - todo
          decreases todo
        {
          var name :| name in todo;
          ElementsAppend(names, name);
          names := names + [name];
          todo := todo - {name};
        }
      case OtherForm =>
    }
    assert forall name :: name in names <==> name in Required(dep) by {
      assert forall name :: name in names <==> name in Elements(names);
    }
  }

  // ----- The start order of a compose file, stated on its declarations -----

  /** A service names `dep`, in a list or in a map. */
  ghost predicate Declares(service: Service, dep: string) {
    || (service.dependsOn.ListForm? && Some(dep) in service.dependsOn.items)
    || (service.dependsOn.MapForm? && dep in service.dependsOn.names)
  }

  /** From service to service, each naming the next, back to the first. */
  ghost predicate IsDeclaredCycle(services: map<string, Service>, p: seq<string>) {
    && |p| >= 2 && p[0] == p[|p| - 1]
    && forall i :: 0 <= i < |p| - 1 ==> p[i] in services && Declares(services[p[i]], p[i + 1])
  }

  ghost predicate StandsBefore(order: seq<string>, a: string, b: string) {
    exists i, j :: 0 <= i < j < |order| && order[i] == a && order[j] == b
  }

  lemma RequiredIsDeclared(service: Service, dep: string)
    ensures dep in Required(service.dependsOn) <==> Declares(service, dep)
  {
  }

  /** A list and a map with the same names ask for the same. */
  lemma FormsAgree(items: seq<Option<string>>, names: set<string>)
    ensures Required(ListForm(items)) == Required(MapForm(names)) <==> forall d :: Some(d) in items <==> d in names
  {
    forall d ensures d in Required(ListForm(items)) <==> Some(d) in items {
      RequiredIsDeclared(Service("", ListForm(items), None, None), d);
    }
    forall d ensures d in Required(MapForm(names)) <==> d in names {
      RequiredIsDeclared(Service("", MapForm(names), None, None), d);
    }
  }

  lemma CyclesAreDeclared(services: map<string, Service>)
    ensures Cyclic(Requirements(services)) <==> exists p :: IsDeclaredCycle(services, p)
  {
    var g := Requirements(services);
    if Cyclic(g) {
      var node :| OnCycle(g, node);
      var p := DeclaredCycleAt(services, node);
    }
    forall p | IsDeclaredCycle(services, p) ensures Cyclic(g) {
      forall i | 0 <= i < |p| - 1 ensures p[i + 1] in Deps(g, p[i]) {
        RequiredIsDeclared(services[p[i]], p[i + 1]);
      }
      assert PathBetween(g, p[0], p[0], p);
      assert OnCycle(g, p[0]);
    }
  }

  lemma DeclaredCycleAt(services: map<string, Service>, node: string) returns (p: seq<string>)
    requires OnCycle(Requirements(services), node)
    ensures IsDeclaredCycle(services, p) && p[0] == node
  {
    var g := Requirements(services);
    p :| PathBetween(g, node, node, p) && |p| >= 2;
    forall i | 0 <= i < |p| - 1 ensures p[i] in services && Declares(services[p[i]], p[i + 1]) {
      assert p[i + 1] in Deps(g, p[i]);
      RequiredIsDeclared(services[p[i]], p[i + 1]);
    }
  }

  lemma DeclaredStandBefore(services: map<string, Service>, order: seq<string>, name: string, dep: string)
    requires Elements(order) == Nodes(Requirements(services)) && DependencyOrder(Requirements(services), order)
    requires name in services && Declares(services[name], dep)
    ensures StandsBefore(order, dep, name)
  {
    RequiredIsDeclared(services[name], dep);
    assert name in Elements(order);
    var j :| 0 <= j < |order| && order[j] == name;
    assert dep in Deps(Requirements(services), order[j]);
    var i :| 0 <= i < j && order[i] == dep;
  }

  /** The start order of a compose file. */
  method ResolveStartOrder(services: map<string, Service>) returns (r: Result<seq<string>, string>)
    ensures r.Failure? <==> exists p :: IsDeclaredCycle(services, p)
    ensures r.Failure? ==> exists p :: IsDeclaredCycle(services, p) && p[0] == r.error
    ensures r.Success? ==> forall name, dep :: name in services && Declares(services[name], dep) ==>
      StandsBefore(r.value, dep, name)
    ensures r.Success? ==> NoDup(r.value) && forall name :: name in services ==> name in r.value
    ensures r.Failure? <==> Cyclic(Requirements(services))
    ensures r.Failure? ==> OnCycle(Requirements(services), r.error)
    ensures r.Success? ==> Elements(r.value) == Nodes(Requirements(services))
    ensures r.Success? ==> DependencyOrder(Requirements(services), r.value)
  {
    var deps: map<string, seq<string>> := map[];
    var todo := services.Keys;
    while todo != {}
      invariant todo <= services.Keys && deps.Keys == services.Keys - todo
      invariant forall name :: name in deps ==> Elements(deps[name]) == Required(services[name].dependsOn)
      decreases todo
    {
      var name :| name in todo;
      var names := ParseDependsOn(services[name].dependsOn);
      deps := deps[name := names];
      todo := todo - {name};
    }
    assert Relation(deps) == Requirements(services);
    r := TopologicalSort(deps);
    CyclesAreDeclared(services);
    if r.Failure? {
      var p := DeclaredCycleAt(services, r.error);
    } else {
      forall name, dep | name in services && Declares(services[name], dep) ensures StandsBefore(r.value, dep, name) {
        DeclaredStandBefore(services, r.value, name, dep);
      }
      forall name | name in services ensures name in r.value {
        assert name in Nodes(Requirements(services));
      }
    }
  }
}

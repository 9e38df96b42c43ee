/**
 A client that works on the stacks of one disk, call after call, some of which fail: what it reads is what
 a map says that follows its calls.
 */
module StackClient {
  import opened Common
  import opened Paths
  import opened StackStore

  // ----- What a call does to the map -----

  /** The map with one stack as given; `shadows` tells whether it hides a legacy file. */
  function StoreWith(store: Store, name: string, content: StackContent, shadows: bool): Store {
    Store(store.stacks[name := content], if shadows then store.shadowed + {name} else store.shadowed - {name},
          store.globalEnv)
  }

  function EnvOf(store: Store, name: string): string {
    if name in store.stacks then store.stacks[name].env else ""
  }

  /** What a failed call can leave: the map as it was, or this one subject half way. */
  ghost predicate IsLeft(store: Store, op: Op, next: Store) {
    || next == store
    || match op
       case Save(name, compose, env, isAdd) =>
         || (isAdd && next == StoreWith(store, name, StackContent("", ""), false))
         || next == StoreWith(store, name, StackContent(compose, EnvOf(store, name)), true)
         || next == StoreStep(store, op)
       case Delete(name) => name in store.stacks && IsPartOf(store, name, next)
       case SetGlobal(_) => next == StoreStep(store, op)
       case WriteLegacy(project, _) =>
         || (project !in store.stacks && next == StoreWith(store, project, StackContent("", ""), false))
         || (exists text :: next == StoreStep(store, WriteLegacy(project, text)))
  }

  /** Some of a stack's files are gone. */
  ghost predicate IsPartOf(store: Store, name: string, next: Store) {
    exists compose, env, shadows ::
      next == StoreWith(store, name, StackContent(compose, env), shadows)
      && env in {EnvOf(store, name), ""} && (shadows ==> name in store.shadowed)
  }

  /** Which texts pass as compose files and as environment files. */
  datatype Rules = Rules(composeOk: string -> bool, envOk: string -> bool)

  /** Whether a call is rejected, told by the map. */
  predicate IsRejected(basePath: string, rules: Rules, store: Store, op: Op) {
    match op
    case Save(name, compose, env, isAdd) =>
      || StackDir(basePath, name).Failure? || !rules.composeOk(compose) || !rules.envOk(env)
      || (isAdd <==> name in store.stacks)
    case Delete(name) => StackDir(basePath, name).Failure?
    case SetGlobal(content) => !rules.envOk(content)
    case WriteLegacy(_, _) => false
  }

  ghost predicate Becomes(store: Store, op: Op, r: SaveResult, next: Store) {
    match r
    case Rejected => next == store
    case Saved => next == StoreStep(store, op)
    case IOFailed => IsLeft(store, op, next)
  }

  // ----- What a call does to the disk -----

  ghost predicate IsDone(base: string, before: Tree, op: Op, after: Tree) {
    Possible(base, before, op) && after == TreeStep(base, before, op)
  }

  ghost predicate IsOnDisk(base: string, before: Tree, op: Op, r: SaveResult, after: Tree) {
    match r
    case Rejected => after == before
    case Saved => IsDone(base, before, op, after)
    case IOFailed =>
      match op
      case Save(name, _, _, isAdd) =>
        && ValidStackName(name) && (isAdd <==> DirOf(base, name) !in before)
        && after in SaveStages(base, before, op)
      case Delete(name) => ValidStackName(name) && PartlyRemoved(before, after, DirOf(base, name))
      case SetGlobal(_) => after in {before, WithDir(before, base), TreeStep(base, before, op)}
      case WriteLegacy(project, _) =>
        || after in LegacyStages(base, DirOf(base, project), before)
        || exists text :: IsDone(base, before, WriteLegacy(project, text), after)
  }

  lemma PartlyRemovedIsVisible(before: Tree, after: Tree, dir: string)
    requires PartlyRemoved(before, after, dir)
    ensures PartlyRemoved(Visible(before), Visible(after), dir)
  {
    forall d | d in before && d != dir ensures d in after && after[d] == before[d] {
      assert d in before - {dir} && (before - {dir})[d] == (after - {dir})[d];
    }
    assert forall d :: d in after && d != dir ==> d in after - {dir};
    if dir in before {
      forall item | item in Visible(after)[dir].Items ensures item in Visible(before)[dir].Items {
        assert item in after[dir].Items;
      }
    }
  }

  /** One call; a legacy file is written where a stack could be. */
  method Perform(fs: FileSystem, basePath: string, rules: Rules, op: Op, ghost store: Store) returns (r: SaveResult)
    requires Refines(Clean(basePath), Visible(fs.tree), store)
    requires op.WriteLegacy? ==> ValidProjectName(op.project) && Clean(basePath) !in {"/", "."}
    modifies fs
    ensures IsOnDisk(Clean(basePath), Visible(old(fs.tree)), op, r, Visible(fs.tree))
    ensures r.Rejected? <==> IsRejected(basePath, rules, store, op)
  {
    hide Clean, View, PartlyRemoved, Refines;
    fs.Begin();
    match op {
      case Save(name, compose, env, isAdd) =>
        StackDirExact(basePath, name);
        if ValidStackName(name) {
          RefinesOne(Clean(basePath), Visible(fs.tree), store, name);
        }
        r := SaveStack(fs, basePath, rules.composeOk, rules.envOk, name, compose, env, isAdd);
      case Delete(name) => r := DeleteStack(fs, basePath, name);
      case SetGlobal(content) => r := SetGlobalEnv(fs, basePath, rules.envOk, content);
      case WriteLegacy(project, compose) => r := WriteLegacyFile(fs, basePath, project, compose);
    }
  }

  method DeleteStack(fs: FileSystem, basePath: string, name: string) returns (r: SaveResult)
    requires fs.Recorded()
    modifies fs
    ensures IsOnDisk(Clean(basePath), Visible(old(fs.tree)), Delete(name), r, Visible(fs.tree))
    ensures r.Rejected? <==> StackDir(basePath, name).Failure?
  {
    if StackDir(basePath, name).Failure? {
      return Rejected;
    }
    StackDirExact(basePath, name);
    ghost var before := fs.tree;
    var ok := RemoveStackDir(fs, basePath, name);
    if !ok {
      PartlyRemovedIsVisible(before, fs.tree, DirOf(Clean(basePath), name));
    }
    r := if ok then Saved else IOFailed;
  }

  method WriteLegacyFile(fs: FileSystem, basePath: string, project: string, compose: string) returns (r: SaveResult)
    requires fs.Recorded() && ValidProjectName(project) && Clean(basePath) !in {"/", "."}
    modifies fs
    ensures IsOnDisk(Clean(basePath), Visible(old(fs.tree)), WriteLegacy(project, compose), r, Visible(fs.tree))
    ensures !r.Rejected?
  {
    hide Clean, Visible, View;
    LegacyDirIsStackDir(basePath, project);
    ghost var base, before := Clean(basePath), Visible(fs.tree);
    var ok;
    ghost var left;
    ok, left := WriteComposeFile(fs, basePath, project, compose);
    if !ok && left.Some? {
      assert IsDone(base, before, WriteLegacy(project, left.value), Visible(fs.tree));
    }
    r := if ok then Saved else IOFailed;
  }

  // ----- The disk and the map -----

  /** Besides the directory `dir`, and perhaps an empty base directory, nothing is different. */
  ghost predicate SameElsewhere(base: string, before: Tree, after: Tree, dir: string) {
    && (forall d :: d != dir && d != base ==> (d in before <==> d in after))
    && (forall d :: d != dir && d != base && d in before && d in after ==> before[d] == after[d])
    && FilesIn(after, base) == FilesIn(before, base)
  }

  /** A change in one stack's directory changes that stack in the map. */
  lemma OneStackChanged(base: string, before: Tree, after: Tree, store: Store, name: string)
    requires Refines(base, before, store) && ValidStackName(name)
    requires DirOf(base, name) in after && SameElsewhere(base, before, after, DirOf(base, name))
    ensures var files := after[DirOf(base, name)];
      Refines(base, after, StoreWith(store, name, View(files), HidesLegacy(files)))
  {
    hide View, HidesLegacy;
    var files := after[DirOf(base, name)];
    var next := StoreWith(store, name, View(files), HidesLegacy(files));
    forall other | ValidStackName(other) ensures RefinesAt(base, after, next, other) {
      DirsDiffer(base, other, name);
      assert RefinesAt(base, before, store, other);
    }
  }

  /** A change elsewhere does not show in the map. */
  lemma NoStackChanged(base: string, before: Tree, after: Tree, store: Store, name: string)
    requires Refines(base, before, store) && SameElsewhere(base, before, after, DirOf(base, name))
    requires ValidStackName(name) ==> DirOf(base, name) !in before && DirOf(base, name) !in after
    ensures Refines(base, after, store)
  {
    hide View, HidesLegacy;
    forall other | ValidStackName(other) ensures RefinesAt(base, after, store, other) {
      DirsDiffer(base, other, name);
      assert RefinesAt(base, before, store, other);
    }
  }

  /** The files that a save can leave in the stack's directory. */
  ghost predicate AreSaveFiles(was: map<string, Entry>, op: Op, files: map<string, Entry>)
    requires op.Save?
  {
    || files == was
    || files == was["compose.yaml" := File(op.compose)]
    || files == was["compose.yaml" := File(op.compose)][".env" := File(op.env)]
  }

  lemma PreparedIsElsewhere(base: string, before: Tree, name: string, isAdd: bool)
    ensures SameElsewhere(base, before, before, DirOf(base, name))
    ensures SameElsewhere(base, before, WithDir(before, base), DirOf(base, name))
    ensures SameElsewhere(base, before, Prepared(base, before, name, isAdd), DirOf(base, name))
  {
    DirsDiffer(base, name, name);
  }

  lemma PutIsElsewhere(base: string, before: Tree, tree: Tree, dir: string, file: string, content: string)
    requires SameElsewhere(base, before, tree, dir) && dir != base
    ensures SameElsewhere(base, before, Put(tree, dir, file, content), dir)
  {
  }

  lemma SaveIsElsewhere(base: string, before: Tree, op: Op, after: Tree)
    requires op.Save? && after in SaveStages(base, before, op)
    ensures SameElsewhere(base, before, after, DirOf(base, op.name))
  {
    hide SameElsewhere, Prepared, WithDir, Put, DirOf;
    DirsDiffer(base, op.name, op.name);
    PreparedIsElsewhere(base, before, op.name, op.isAdd);
    var dir := DirOf(base, op.name);
    PutIsElsewhere(base, before, Prepared(base, before, op.name, op.isAdd), dir, "compose.yaml", op.compose);
    PutIsElsewhere(base, before, ComposeWritten(base, before, op), dir, ".env", op.env);
  }

  lemma SaveFiles(base: string, before: Tree, op: Op, after: Tree)
    requires op.Save? && (op.isAdd <==> DirOf(base, op.name) !in before) && after in SaveStages(base, before, op)
    ensures var dir := DirOf(base, op.name);
      && (dir in after ==> AreSaveFiles(FilesIn(before, dir), op, after[dir]))
      && (dir !in after ==> dir !in before)
  {
    DirsDiffer(base, op.name, op.name);
  }

  lemma SaveFilesShow(was: map<string, Entry>, op: Op, files: map<string, Entry>)
    requires op.Save? && AreSaveFiles(was, op, files)
    ensures
      || files == was
      || (HidesLegacy(files) && View(files) == StackContent(op.compose, View(was).env))
      || (HidesLegacy(files) && View(files) == StackContent(op.compose, op.env))
  {
    FirstFileOf(files);
  }

  /** A stack whose files are as they were is as it was. */
  lemma SameStack(base: string, tree: Tree, store: Store, name: string)
    requires RefinesAt(base, tree, store, name) && DirOf(base, name) in tree
    ensures var files := tree[DirOf(base, name)]; StoreWith(store, name, View(files), HidesLegacy(files)) == store
  {
  }

  lemma NoFilesShow()
    ensures View(map[]) == StackContent("", "") && !HidesLegacy(map[])
  {
    FirstFileOf(map[]);
  }

  /** A failed save. */
  lemma SaveLeaves(base: string, before: Tree, store: Store, op: Op, after: Tree) returns (next: Store)
    requires Refines(base, before, store) && op.Save? && IsOnDisk(base, before, op, IOFailed, after)
    ensures Refines(base, after, next) && IsLeft(store, op, next)
  {
    hide View, HidesLegacy, Refines, SaveStages, SameElsewhere, AreSaveFiles;
    var dir := DirOf(base, op.name);
    SaveIsElsewhere(base, before, op, after);
    SaveFiles(base, before, op, after);
    RefinesOne(base, before, store, op.name);
    if dir !in after {
      NoStackChanged(base, before, after, store, op.name);
      next := store;
    } else {
      OneStackChanged(base, before, after, store, op.name);
      next := StoreWith(store, op.name, View(after[dir]), HidesLegacy(after[dir]));
      SaveFilesShow(FilesIn(before, dir), op, after[dir]);
      NoFilesShow();
      if dir in before {
        SameStack(base, before, store, op.name);
      }
    }
  }

  lemma RefinesOne(base: string, tree: Tree, store: Store, name: string)
    requires Refines(base, tree, store) && ValidStackName(name)
    ensures RefinesAt(base, tree, store, name)
  {
  }

  /** A failed deletion. */
  lemma DeletionLeaves(base: string, before: Tree, store: Store, op: Op, after: Tree) returns (next: Store)
    requires Refines(base, before, store) && op.Delete? && IsOnDisk(base, before, op, IOFailed, after)
    ensures Refines(base, after, next) && IsLeft(store, op, next)
  {
    var dir := DirOf(base, op.name);
    DirsDiffer(base, op.name, op.name);
    assert RefinesAt(base, before, store, op.name);
    RemovalIsElsewhere(base, before, after, dir);
    if dir in after {
      OneStackChanged(base, before, after, store, op.name);
      var files := after[dir];
      next := StoreWith(store, op.name, View(files), HidesLegacy(files));
      FewerFiles(before[dir], files);
      assert next == StoreWith(store, op.name, StackContent(View(files).compose, View(files).env), HidesLegacy(files));
      assert IsPartOf(store, op.name, next);
    } else {
      NoStackChanged(base, before, after, store, op.name);
      next := store;
    }
  }

  lemma RemovalIsElsewhere(base: string, before: Tree, after: Tree, dir: string)
    requires PartlyRemoved(before, after, dir) && dir != base
    ensures SameElsewhere(base, before, after, dir)
  {
    forall d | d != dir ensures d in before <==> d in after {
      assert d in before <==> d in before - {dir};
      assert d in after <==> d in after - {dir};
    }
    forall d | d != dir && d in before && d in after ensures before[d] == after[d] {
      assert (before - {dir})[d] == (after - {dir})[d];
    }
  }

  lemma FewerFiles(before: map<string, Entry>, after: map<string, Entry>)
    requires after.Items <= before.Items
    ensures View(after).env in {View(before).env, ""} && (HidesLegacy(after) ==> HidesLegacy(before))
  {
    forall name | name in after ensures name in before && before[name] == after[name] {
      assert (name, after[name]) in before.Items;
    }
  }

  lemma LegacyFiles(base: string, before: Tree, project: string, after: Tree)
    requires after in LegacyStages(base, DirOf(base, project), before)
    ensures var dir := DirOf(base, project);
      && SameElsewhere(base, before, after, dir)
      && (dir in after ==> after[dir] == FilesIn(before, dir)) && (dir !in after ==> dir !in before)
  {
    DirsDiffer(base, project, project);
  }

  /** A failed write of a legacy file. */
  lemma LegacyLeaves(base: string, before: Tree, store: Store, op: Op, after: Tree) returns (next: Store)
    requires Refines(base, before, store) && op.WriteLegacy? && IsOnDisk(base, before, op, IOFailed, after)
    ensures Refines(base, after, next) && IsLeft(store, op, next)
  {
    hide View, HidesLegacy, Refines, LegacyStages, SameElsewhere, IsDone;
    var dir := DirOf(base, op.project);
    if after !in LegacyStages(base, dir, before) {
      var text :| IsDone(base, before, WriteLegacy(op.project, text), after);
      DoneRefines(base, before, store, WriteLegacy(op.project, text), after);
      next := StoreStep(store, WriteLegacy(op.project, text));
      return;
    }
    LegacyFiles(base, before, op.project, after);
    if !ValidStackName(op.project) || dir !in after {
      NoStackChanged(base, before, after, store, op.project);
      next := store;
      return;
    }
    RefinesOne(base, before, store, op.project);
    OneStackChanged(base, before, after, store, op.project);
    next := StoreWith(store, op.project, View(after[dir]), HidesLegacy(after[dir]));
    NoFilesShow();
    if dir in before {
      SameStack(base, before, store, op.project);
    }
  }

  lemma DoneRefines(base: string, before: Tree, store: Store, op: Op, after: Tree)
    requires Refines(base, before, store) && IsDone(base, before, op, after)
    ensures Refines(base, after, StoreStep(store, op))
  {
    StepRefines(base, before, store, op);
  }

  /** Whatever a call does to the disk, it does one of the allowed things to the map. */
  lemma CallRefines(base: string, before: Tree, store: Store, op: Op, r: SaveResult, after: Tree) returns (next: Store)
    requires Refines(base, before, store) && IsOnDisk(base, before, op, r, after)
    ensures Refines(base, after, next) && Becomes(store, op, r, next)
  {
    hide SaveStages, PartlyRemoved, LegacyStages, IsPartOf, View, HidesLegacy, RefinesAt;
    if r.Rejected? {
      next := store;
    } else if r.Saved? {
      DoneRefines(base, before, store, op, after);
      next := StoreStep(store, op);
    } else {
      match op {
        case Save(_, _, _, _) => next := SaveLeaves(base, before, store, op, after);
        case Delete(_) => next := DeletionLeaves(base, before, store, op, after);
        case WriteLegacy(_, _) => next := LegacyLeaves(base, before, store, op, after);
        case SetGlobal(_) => next := SettingLeaves(base, before, store, op, after);
      }
    }
  }

  lemma SettingLeaves(base: string, before: Tree, store: Store, op: Op, after: Tree) returns (next: Store)
    requires Refines(base, before, store) && op.SetGlobal? && IsOnDisk(base, before, op, IOFailed, after)
    ensures Refines(base, after, next) && IsLeft(store, op, next)
  {
    hide View, HidesLegacy;
    next := if after in {before, WithDir(before, base)} then store else StoreStep(store, op);
    forall name | ValidStackName(name) ensures RefinesAt(base, after, next, name) {
      DirsDiffer(base, name, name);
      assert RefinesAt(base, before, store, name);
    }
  }

  // ----- Any number of calls -----

  ghost predicate Follows(stores: seq<Store>, ops: seq<Op>, results: seq<SaveResult>) {
    && |stores| == |results| + 1 && |results| <= |ops|
    && forall i :: 0 <= i < |results| ==> Becomes(stores[i], ops[i], results[i], stores[i + 1])
  }

  /**
   Calls one after the other on one disk, each followed by reading one stack and the global environment.
   Whatever fails in between, the reads are what the map says after that call.
   */
  method RunCalls(fs: FileSystem, basePath: string, rules: Rules, ops: seq<Op>, name: string, ghost store: Store)
    returns (results: seq<SaveResult>, found: seq<Option<StackContent>>, envs: seq<Result<string, string>>,
             ghost stores: seq<Store>)
    requires Refines(Clean(basePath), Visible(fs.tree), store) && StackDir(basePath, name).Success?
    requires forall op :: op in ops && op.WriteLegacy? ==>
      ValidProjectName(op.project) && Clean(basePath) !in {"/", "."}
    modifies fs
    ensures |results| == |found| == |envs| == |ops|
    ensures Follows(stores, ops, results) && stores[0] == store
    ensures forall i :: 0 <= i < |ops| ==> (results[i].Rejected? <==> IsRejected(basePath, rules, stores[i], ops[i]))
    ensures forall i :: 0 <= i < |ops| ==>
      found[i] == if name in stores[i + 1].stacks then Some(stores[i + 1].stacks[name]) else None
    ensures forall i :: 0 <= i < |ops| && envs[i].Success? ==> envs[i].value == stores[i + 1].globalEnv
    ensures Refines(Clean(basePath), Visible(fs.tree), stores[|ops|])
  {
    hide Clean, Visible, View, HidesLegacy, Becomes, IsOnDisk, IsRejected, Refines, StackDir;
    results, found, envs, stores := [], [], [], [store];
    for k := 0 to |ops|
      invariant |results| == |found| == |envs| == k
      invariant Follows(stores, ops, results) && stores[0] == store
      invariant forall i :: 0 <= i < k ==> (results[i].Rejected? <==> IsRejected(basePath, rules, stores[i], ops[i]))
      invariant forall i :: 0 <= i < k ==>
        found[i] == if name in stores[i + 1].stacks then Some(stores[i + 1].stacks[name]) else None
      invariant forall i :: 0 <= i < k && envs[i].Success? ==> envs[i].value == stores[i + 1].globalEnv
      invariant Refines(Clean(basePath), Visible(fs.tree), stores[k])
    {
      ghost var before := Visible(fs.tree);
      var r := Perform(fs, basePath, rules, ops[k], stores[k]);
      ghost var next := CallRefines(Clean(basePath), before, stores[k], ops[k], r, Visible(fs.tree));
      var read, env := ReadBack(fs, basePath, name, next);
      results, found, envs, stores := results + [r], found + [read], envs + [env], stores + [next];
    }
  }

  /** What is read is what the map says. */
  method ReadBack(fs: FileSystem, basePath: string, name: string, ghost store: Store)
    returns (read: Option<StackContent>, env: Result<string, string>)
    requires Refines(Clean(basePath), Visible(fs.tree), store) && StackDir(basePath, name).Success?
    ensures read == if name in store.stacks then Some(store.stacks[name]) else None
    ensures env.Success? ==> env.value == store.globalEnv
    ensures env.Failure? <==> IsFolder(FilesIn(Visible(fs.tree), Clean(basePath)), "global.env")
  {
    StackDirExact(basePath, name);
    assert RefinesAt(Clean(basePath), Visible(fs.tree), store, name);
    var found := GetStack(fs, basePath, name);
    read := found.value;
    env := GetGlobalEnv(fs, basePath);
  }
}

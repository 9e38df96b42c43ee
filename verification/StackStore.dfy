/**
 The stack store: compose files and environment files on disk, written so that they behave like a
 map from stack names to contents, also across a crash.
 */
module StackStore {
  import opened Common
  import opened Paths

  // ----- Stack names and directories -----

  predicate ValidStackName(name: string) {
    name != "" && forall i :: 0 <= i < |name| ==> 'a' <= name[i] <= 'z' || '0' <= name[i] <= '9' || name[i] in "_-"
  }

  /** The directory of a stack, or an error for a bad name or a base that cannot hold it. */
  function StackDir(basePath: string, name: string): Result<string, string> {
    if !ValidStackName(name) then Failure("stack name must be lowercase [a-z0-9_-]")
    else if (exists i :: 0 <= i < |name| && ".." <= name[i..]) || '/' in name || '\\' in name then
      Failure("invalid project name")
    else
      var base := Clean(basePath);
      var dir := Clean(Clean(base + "/" + name));
      if dir == base || !(base + "/" <= dir) then Failure("invalid project path") else Success(dir)
  }

  lemma NamesHaveNoDots(name: string)
    requires ValidStackName(name)
    ensures !exists i :: 0 <= i < |name| && ".." <= name[i..]
    ensures SlashFree(name) && '\\' !in name && name !in {"", ".", ".."}
  {
    forall i | 0 <= i < |name| ensures !(".." <= name[i..]) {
      assert name[i..][0] != '.';
    }
    assert name[0] != '.';
  }

  /** Every nonempty name of these characters is a stack name, and no other. */
  lemma StackNamesExactly(name: string)
    ensures ValidStackName(name) <==>
      name != "" && forall i :: 0 <= i < |name| ==> name[i] in "abcdefghijklmnopqrstuvwxyz0123456789_-"
  {
    forall c: char ensures 'a' <= c <= 'z' || '0' <= c <= '9' || c in "_-" <==>
      c in "abcdefghijklmnopqrstuvwxyz0123456789_-"
    {
      Letters(c);
      Digits(c);
    }
  }

  lemma Letters(c: char)
    ensures 'a' <= c <= 'z' <==> c in "abcdefghijklmnopqrstuvwxyz"
  {
    var letters := "abcdefghijklmnopqrstuvwxyz";
    if 'a' <= c <= 'z' {
      assert letters[c as int - 'a' as int] == c;
    }
  }

  lemma Digits(c: char)
    ensures '0' <= c <= '9' <==> c in "0123456789"
  {
    var digits := "0123456789";
    if '0' <= c <= '9' {
      assert digits[c as int - '0' as int] == c;
    }
  }

  /** Exactly when a stack has a directory, and which. */
  lemma StackDirExact(basePath: string, name: string)
    ensures StackDir(basePath, name).Success? <==> ValidStackName(name) && Clean(basePath) !in {"/", "."}
    ensures StackDir(basePath, name).Success? ==> StackDir(basePath, name).value == Clean(basePath) + "/" + name
  {
    if ValidStackName(name) {
      var base := Clean(basePath);
      NamesHaveNoDots(name);
      CleanIsIdempotent(basePath);
      CleanIsIdempotent(base + "/" + name);
      CleanChild(base, name);
      assert ("/" + name)[1] == name[0];
    }
  }

  /** Different stacks have different directories, none is the base and none lies inside another. */
  lemma StackDirsAreDisjoint(basePath: string, a: string, b: string)
    requires StackDir(basePath, a).Success? && StackDir(basePath, b).Success? && a != b
    ensures var da, db := StackDir(basePath, a).value, StackDir(basePath, b).value;
      da != db && da != Clean(basePath) && !(da + "/" <= db)
  {
    StackDirExact(basePath, a);
    StackDirExact(basePath, b);
    var base := Clean(basePath);
    var da, db := base + "/" + a, base + "/" + b;
    assert da[|base| + 1..] == a && db[|base| + 1..] == b;
    if |a| < |b| {
      assert db[|da|] == b[|a|] != '/';
      assert (da + "/")[|da|] == '/';
    }
  }

  // ----- Directory trees -----

  datatype Entry = File(content: string) | Folder

  /** Directory path to the entries directly in it. */
  type Tree = map<string, map<string, Entry>>

  const ACCEPTED_NAMES := ["compose.yaml", "docker-compose.yaml", "docker-compose.yml", "compose.yml"]

  predicate IsFile(files: map<string, Entry>, name: string) {
    name in files && files[name].File?
  }

  predicate IsFolder(files: map<string, Entry>, name: string) {
    name in files && files[name].Folder?
  }

  /** A file is there, with this content. */
  predicate HasFile(files: map<string, Entry>, name: string, content: string) {
    name in files && files[name] == File(content)
  }

  function ContentOf(files: map<string, Entry>, name: string): string {
    if IsFile(files, name) then files[name].content else ""
  }

  predicate IsTemp(name: string) {
    ".tmp-" <= name
  }

  function FilesIn(tree: Tree, dir: string): map<string, Entry> {
    if dir in tree then tree[dir] else map[]
  }

  function Put(tree: Tree, dir: string, name: string, content: string): Tree {
    tree[dir := FilesIn(tree, dir)[name := File(content)]]
  }

  function WithDir(tree: Tree, dir: string): Tree {
    if dir in tree then tree else tree[dir := map[]]
  }

  /** What is left when temporary files are disregarded. */
  function Visible(tree: Tree): Tree {
    map dir | dir in tree :: map name | name in tree[dir] && !IsTemp(name) :: tree[dir][name]
  }

  /** The first of `names` that is a file. */
  function FirstFile(files: map<string, Entry>, names: seq<string>): Option<string> {
    if names == [] then None
    else if IsFile(files, names[0]) then Some(names[0])
    else FirstFile(files, names[1..])
  }

  datatype StackContent = StackContent(compose: string, env: string)

  function View(files: map<string, Entry>): StackContent {
    var found := FirstFile(files, ACCEPTED_NAMES);
    StackContent(if found.Some? then ContentOf(files, found.value) else "", ContentOf(files, ".env"))
  }

  lemma FirstFileOf(files: map<string, Entry>)
    ensures FirstFile(files, ACCEPTED_NAMES) ==
      if IsFile(files, "compose.yaml") then Some("compose.yaml")
      else if IsFile(files, "docker-compose.yaml") then Some("docker-compose.yaml")
      else if IsFile(files, "docker-compose.yml") then Some("docker-compose.yml")
      else if IsFile(files, "compose.yml") then Some("compose.yml")
      else None
  {
    assert ACCEPTED_NAMES[1..] == ["docker-compose.yaml", "docker-compose.yml", "compose.yml"];
    assert ACCEPTED_NAMES[1..][1..] == ["docker-compose.yml", "compose.yml"];
    assert ACCEPTED_NAMES[1..][1..][1..] == ["compose.yml"];
    assert ACCEPTED_NAMES[1..][1..][1..][1..] == [];
    assert FirstFile(files, ACCEPTED_NAMES[1..][1..][1..][1..]) == None;
    assert FirstFile(files, ACCEPTED_NAMES[1..][1..]) ==
      if IsFile(files, "docker-compose.yml") then Some("docker-compose.yml")
      else FirstFile(files, ACCEPTED_NAMES[1..][1..][1..]);
  }

  // ----- Temporary files are invisible -----

  lemma PutTempIsInvisible(tree: Tree, dir: string, name: string, content: string)
    requires dir in tree && IsTemp(name)
    ensures Visible(Put(tree, dir, name, content)) == Visible(tree)
  {
    assert Visible(Put(tree, dir, name, content))[dir] == Visible(tree)[dir];
  }

  lemma PutIsVisible(tree: Tree, dir: string, name: string, content: string)
    requires dir in tree && !IsTemp(name)
    ensures Visible(Put(tree, dir, name, content)) == Put(Visible(tree), dir, name, content)
  {
    assert Visible(Put(tree, dir, name, content))[dir] == Put(Visible(tree), dir, name, content)[dir];
  }

  lemma RemoveTempIsInvisible(tree: Tree, dir: string, name: string)
    requires dir in tree && IsTemp(name)
    ensures Visible(tree[dir := tree[dir] - {name}]) == Visible(tree)
  {
    assert Visible(tree[dir := tree[dir] - {name}])[dir] == Visible(tree)[dir];
  }

  lemma RenameTempIsPut(tree: Tree, dir: string, temp: string, target: string, content: string)
    requires dir in tree && IsTemp(temp) && !IsTemp(target)
    requires temp in tree[dir] && tree[dir][temp] == File(content)
    ensures Visible(tree[dir := (tree[dir] - {temp})[target := File(content)]]) ==
            Put(Visible(tree), dir, target, content)
  {
    var after := tree[dir := (tree[dir] - {temp})[target := File(content)]];
    assert Visible(after)[dir] == Put(Visible(tree), dir, target, content)[dir];
  }

  lemma WithDirIsVisible(tree: Tree, dir: string)
    ensures Visible(WithDir(tree, dir)) == WithDir(Visible(tree), dir)
  {
    if dir !in tree {
      assert Visible(WithDir(tree, dir))[dir] == map[];
    }
  }

  // ----- The file system, one system call at a time -----

  class FileSystem {
    var tree: Tree
    /** What a crash can have left since the operation began, temporary files aside. */
    ghost var exposed: set<Tree>

    ghost predicate Recorded()
      reads this
    {
      Visible(tree) in exposed
    }

    /** An operation begins here. */
    ghost method Begin()
      modifies this`exposed
      ensures exposed == {Visible(tree)}
    {
      exposed := {Visible(tree)};
    }

    method Mkdir(dir: string) returns (ok: bool)
      requires Recorded()
      modifies this
      ensures exposed == old(exposed) + {Visible(tree)}
      ensures tree == if ok then WithDir(old(tree), dir) else old(tree)
      ensures Visible(tree) == if ok then WithDir(Visible(old(tree)), dir) else Visible(old(tree))
    {
      ok := *;
      if ok {
        WithDirIsVisible(tree, dir);
        tree := WithDir(tree, dir);
        exposed := exposed + {Visible(tree)};
      }
    }

    /** Overwrites a file in place; unlike a rename, a failure can leave it cut off. */
    method WriteInPlace(dir: string, name: string, content: string) returns (ok: bool, ghost left: Option<string>)
      requires Recorded() && dir in tree && !IsTemp(name)
      modifies this
      ensures Recorded()
      ensures ok ==> left == Some(content)
      ensures left.Some? ==> !IsFolder(old(tree)[dir], name)
      ensures Visible(tree) ==
        if left.Some? then Put(Visible(old(tree)), dir, name, left.value) else Visible(old(tree))
    {
      var canOpen: bool := *;
      if IsFolder(tree[dir], name) || !canOpen {
        return false, None;
      }
      ok := *;
      var written: string := *;
      if ok {
        written := content;
      }
      PutIsVisible(tree, dir, name, written);
      tree := Put(tree, dir, name, written);
      exposed := exposed + {Visible(tree)};
      left := Some(written);
    }

    /** Removes a directory with everything in it; a failure can leave any part of it. */
    method RemoveAll(dir: string) returns (ok: bool)
      requires Recorded()
      modifies this
      ensures Recorded()
      ensures ok ==> tree == old(tree) - {dir} && Visible(tree) == Visible(old(tree)) - {dir}
      ensures !ok ==> tree - {dir} == old(tree) - {dir}
      ensures !ok && dir in old(tree) ==> dir in tree && tree[dir].Items <= old(tree)[dir].Items
      ensures !ok && dir !in old(tree) ==> tree == old(tree)
    {
      ok := *;
      if ok {
        tree := tree - {dir};
      } else if dir in tree {
        var gone: set<string> := *;
        tree := tree[dir := tree[dir] - gone];
      }
      exposed := exposed + {Visible(tree)};
    }

    /** A fresh empty file with a temporary name. */
    method CreateTemp(dir: string) returns (r: Option<string>)
      requires Recorded()
      modifies this
      ensures exposed == old(exposed) + {Visible(tree)}
      ensures r.Some? ==> dir in old(tree) && IsTemp(r.value) && r.value !in old(tree)[dir]
      ensures tree == if r.Some? then Put(old(tree), dir, r.value, "") else old(tree)
      ensures Visible(tree) == Visible(old(tree))
    {
      r := *;
      if r.Some? && dir in tree && IsTemp(r.value) && r.value !in tree[dir] {
        PutTempIsInvisible(tree, dir, r.value, "");
        tree := Put(tree, dir, r.value, "");
        exposed := exposed + {Visible(tree)};
      } else {
        r := None;
      }
    }

    /** Writes a temporary file; a failed write may leave any part of the content behind. */
    method WriteString(dir: string, temp: string, content: string) returns (ok: bool, ghost left: string)
      requires Recorded() && dir in tree && IsTemp(temp)
      modifies this
      ensures exposed == old(exposed) + {Visible(tree)}
      ensures tree == Put(old(tree), dir, temp, left) && (ok ==> left == content)
      ensures Visible(tree) == Visible(old(tree))
    {
      ok := *;
      var written: string := *;
      if ok {
        written := content;
      }
      left := written;
      PutTempIsInvisible(tree, dir, temp, written);
      tree := Put(tree, dir, temp, written);
      exposed := exposed + {Visible(tree)};
    }

    /** Puts a temporary file in the place of `target`; atomic, and a file cannot replace a folder. */
    method Rename(dir: string, temp: string, target: string) returns (ok: bool)
      requires Recorded() && dir in tree && IsTemp(temp) && IsFile(tree[dir], temp) && !IsTemp(target)
      modifies this
      ensures exposed == old(exposed) + {Visible(tree)} && dir in tree
      ensures ok ==> !IsFolder(old(tree)[dir], target)
      ensures Visible(tree) ==
        if ok then Put(Visible(old(tree)), dir, target, old(tree)[dir][temp].content) else Visible(old(tree))
    {
      ok := *;
      ok := ok && !IsFolder(tree[dir], target);
      if ok {
        RenameTempIsPut(tree, dir, temp, target, tree[dir][temp].content);
        tree := tree[dir := (tree[dir] - {temp})[target := tree[dir][temp]]];
        exposed := exposed + {Visible(tree)};
      }
    }

    /** Removes a temporary file if it is still there; the caller ignores whether that worked. */
    method RemoveTemp(dir: string, temp: string)
      requires Recorded() && dir in tree && IsTemp(temp)
      modifies this
      ensures exposed == old(exposed) + {Visible(tree)}
      ensures Visible(tree) == Visible(old(tree))
    {
      var ok: bool := *;
      if ok {
        RemoveTempIsInvisible(tree, dir, temp);
        tree := tree[dir := tree[dir] - {temp}];
        exposed := exposed + {Visible(tree)};
      }
    }
  }

  lemma NotTemp(name: string)
    requires name in ACCEPTED_NAMES + [".env", "global.env"]
    ensures !IsTemp(name)
  {
    assert "compose.yaml"[0] != '.' && "compose.yml"[0] != '.';
    assert "docker-compose.yaml"[0] != '.' && "docker-compose.yml"[0] != '.';
    assert ".env"[1] != 't' && "global.env"[0] != '.';
    assert ".tmp-"[0] == '.' && ".tmp-"[1] == 't';
  }

  /** Temporary files do not change what a stack shows. */
  lemma ViewIgnoresTemps(tree: Tree, dir: string)
    requires dir in tree
    ensures View(Visible(tree)[dir]) == View(tree[dir])
  {
    var files, visible := tree[dir], Visible(tree)[dir];
    forall name | name in ACCEPTED_NAMES + [".env"] ensures !IsTemp(name) {
      NotTemp(name);
    }
    assert forall name :: name in ACCEPTED_NAMES ==> name in ACCEPTED_NAMES + [".env"];
    FirstFileOf(files);
    FirstFileOf(visible);
  }

  // ----- Writing one file atomically -----

  /**
   At every moment the target holds all of the old or all of the new content; an error leaves it old.
   */
  method WriteFileAtomic(fs: FileSystem, dir: string, name: string, content: string) returns (ok: bool)
    requires fs.Recorded() && !IsTemp(name)
    modifies fs
    ensures ok ==> !IsFolder(FilesIn(Visible(old(fs.tree)), dir), name) && dir in Visible(fs.tree)
    ensures Visible(fs.tree) == if ok then Put(Visible(old(fs.tree)), dir, name, content) else Visible(old(fs.tree))
    ensures fs.Recorded()
    ensures fs.exposed <= old(fs.exposed) + {Put(Visible(old(fs.tree)), dir, name, content)}
  {
    var temp := fs.CreateTemp(dir);
    if temp.None? {
      return false;
    }
    ghost var left;
    ok, left := fs.WriteString(dir, temp.value, content);
    if ok {
      // Setting the permissions and closing.
      ok := *;
    }
    if ok {
      ok := fs.Rename(dir, temp.value, name);
    }
    fs.RemoveTemp(dir, temp.value);
  }

  // ----- What each operation does to the tree when it succeeds -----

  predicate IsLetterOrDigit(c: char) {
    'a' <= c <= 'z' || 'A' <= c <= 'Z' || '0' <= c <= '9'
  }

  predicate ValidProjectName(name: string) {
    && 1 <= |name| <= 64
    && IsLetterOrDigit(name[0])
    && forall i :: 1 <= i < |name| ==> IsLetterOrDigit(name[i]) || name[i] in "_-"
  }

  predicate IsInAlphabet(c: char) {
    c in "abcdefghijklmnopqrstuvwxyz" || c in "0123456789" || c in "ABCDEFGHIJKLMNOPQRSTUVWXYZ"
  }

  /** Project names, by their characters and their length. */
  lemma ProjectNamesExactly(name: string)
    ensures ValidProjectName(name) <==>
      && 1 <= |name| <= 64 && IsInAlphabet(name[0])
      && forall i :: 0 <= i < |name| ==> IsInAlphabet(name[i]) || name[i] in "_-"
  {
    hide IsLetterOrDigit, IsInAlphabet;
    forall i | 0 <= i < |name| ensures IsLetterOrDigit(name[i]) <==> IsInAlphabet(name[i]) {
      AlphabetsAgree(name[i]);
    }
  }

  lemma AlphabetsAgree(c: char)
    ensures IsLetterOrDigit(c) <==> IsInAlphabet(c)
  {
    Letters(c);
    Digits(c);
    Capitals(c);
  }

  lemma Capitals(c: char)
    ensures 'A' <= c <= 'Z' <==> c in "ABCDEFGHIJKLMNOPQRSTUVWXYZ"
  {
    var letters := "ABCDEFGHIJKLMNOPQRSTUVWXYZ";
    if 'A' <= c <= 'Z' {
      assert letters[c as int - 'A' as int] == c;
    }
  }

  datatype Op =
    | Save(name: string, compose: string, env: string, isAdd: bool)
    | Delete(name: string)
    | SetGlobal(content: string)
    | WriteLegacy(project: string, compose: string)

  function DirOf(base: string, name: string): string {
    base + "/" + name
  }

  /** The tree before the first write: an added stack gets its directory. */
  function Prepared(base: string, tree: Tree, name: string, isAdd: bool): Tree {
    if isAdd then WithDir(WithDir(tree, base), DirOf(base, name)) else tree
  }

  function ComposeWritten(base: string, tree: Tree, op: Op): Tree
    requires op.Save?
  {
    Put(Prepared(base, tree, op.name, op.isAdd), DirOf(base, op.name), "compose.yaml", op.compose)
  }

  predicate Possible(base: string, tree: Tree, op: Op) {
    match op
    case Save(name, _, _, isAdd) =>
      && ValidStackName(name) && (isAdd <==> DirOf(base, name) !in tree)
      && !IsFolder(FilesIn(tree, DirOf(base, name)), "compose.yaml")
      && !IsFolder(FilesIn(tree, DirOf(base, name)), ".env")
    case Delete(name) => ValidStackName(name)
    case SetGlobal(_) => !IsFolder(FilesIn(tree, base), "global.env")
    case WriteLegacy(project, _) =>
      ValidProjectName(project) && !IsFolder(FilesIn(tree, DirOf(base, project)), "docker-compose.yml")
  }

  function TreeStep(base: string, tree: Tree, op: Op): Tree {
    match op
    case Save(name, _, env, _) => Put(ComposeWritten(base, tree, op), DirOf(base, name), ".env", env)
    case Delete(name) => tree - {DirOf(base, name)}
    case SetGlobal(content) => Put(WithDir(tree, base), base, "global.env", content)
    case WriteLegacy(project, compose) =>
      Put(WithDir(WithDir(tree, base), DirOf(base, project)), DirOf(base, project), "docker-compose.yml", compose)
  }

  /** The files that a successful operation has written, by name. */
  lemma WrittenFiles(base: string, tree: Tree, op: Op)
    ensures var after := TreeStep(base, tree, op);
      match op
      case Save(name, compose, env, _) =>
        && base + "/" + name in after && HasFile(after[base + "/" + name], "compose.yaml", compose)
        && HasFile(after[base + "/" + name], ".env", env)
      case Delete(name) => base + "/" + name !in after
      case SetGlobal(content) => base in after && HasFile(after[base], "global.env", content)
      case WriteLegacy(project, compose) =>
        base + "/" + project in after && HasFile(after[base + "/" + project], "docker-compose.yml", compose)
  {
    if op.Save? {
      assert "compose.yaml"[0] != ".env"[0];
    }
  }

  /** What a stack shows of its files: "compose.yaml" before the other names, and ".env". */
  lemma ViewReads(files: map<string, Entry>, text: string)
    ensures HasFile(files, ".env", text) ==> View(files).env == text
    ensures HasFile(files, "compose.yaml", text) ==> View(files).compose == text
    ensures ".env" !in files ==> View(files).env == ""
  {
    FirstFileOf(files);
  }

  // ----- The operations -----

  datatype SaveResult = Saved | Rejected | IOFailed

  /** What makes a save acceptable, before anything is written. */
  ghost predicate Acceptable(basePath: string, tree: Tree, composeOk: string -> bool, envOk: string -> bool, op: Op)
    requires op.Save?
  {
    && StackDir(basePath, op.name).Success?
    && composeOk(op.compose) && envOk(op.env)
    && (op.isAdd <==> DirOf(Clean(basePath), op.name) !in tree)
  }

  /** Every state a save can show: untouched, prepared, compose file written, both written. */
  ghost function SaveStages(base: string, tree: Tree, op: Op): set<Tree>
    requires op.Save?
  {
    {tree, Prepared(base, tree, op.name, op.isAdd), ComposeWritten(base, tree, op), TreeStep(base, tree, op)}
    + if op.isAdd then {WithDir(tree, base)} else {}
  }

  /**
   Validates and stores a stack.  A rejected save touches nothing; whatever happens, also a crash,
   the disk shows one of the four stages and nothing else.
   */
  method SaveStack(fs: FileSystem, basePath: string, composeOk: string -> bool, envOk: string -> bool,
                   name: string, compose: string, env: string, isAdd: bool)
    returns (r: SaveResult)
    requires fs.exposed == {Visible(fs.tree)}
    modifies fs
    ensures var base, before, op := Clean(basePath), Visible(old(fs.tree)), Save(name, compose, env, isAdd);
      && (r.Rejected? <==> !Acceptable(basePath, old(fs.tree), composeOk, envOk, op))
      && (r.Rejected? ==> fs.tree == old(fs.tree) && fs.exposed == old(fs.exposed))
      && (r.Saved? ==> Possible(base, before, op) && Visible(fs.tree) == TreeStep(base, before, op))
      && fs.exposed <= SaveStages(base, before, op)
      && Visible(fs.tree) in fs.exposed
  {
    if !ValidStackName(name) || !composeOk(compose) || !envOk(env) {
      return Rejected;
    }
    var found := StackDir(basePath, name);
    StackDirExact(basePath, name);
    if found.Failure? {
      return Rejected;
    }
    var base, dir := Clean(basePath), found.value;
    if isAdd == (dir in fs.tree) {
      return Rejected;
    }
    var ok := WriteStack(fs, base, name, compose, env, isAdd);
    r := if ok then Saved else IOFailed;
  }

  /** The directory of an added stack, and the base directory if it is missing. */
  method MakeStackDir(fs: FileSystem, base: string, name: string) returns (ok: bool)
    requires fs.exposed == {Visible(fs.tree)} && DirOf(base, name) !in fs.tree
    modifies fs
    ensures var before := Visible(old(fs.tree));
      && (ok ==> Visible(fs.tree) == Prepared(base, before, name, true) && DirOf(base, name) in fs.tree)
      && fs.exposed <= {before, WithDir(before, base), Prepared(base, before, name, true)}
      && Visible(fs.tree) in fs.exposed
  {
    ok := fs.Mkdir(base);
    if ok {
      ok := fs.Mkdir(DirOf(base, name));
    }
  }

  /** The writing part of a save. */
  method WriteStack(fs: FileSystem, base: string, name: string, compose: string, env: string, isAdd: bool)
    returns (ok: bool)
    requires fs.exposed == {Visible(fs.tree)}
    requires ValidStackName(name) && (isAdd <==> DirOf(base, name) !in fs.tree)
    modifies fs
    ensures var before, op := Visible(old(fs.tree)), Save(name, compose, env, isAdd);
      && (ok ==> Possible(base, before, op) && Visible(fs.tree) == TreeStep(base, before, op))
      && fs.exposed <= SaveStages(base, before, op)
      && Visible(fs.tree) in fs.exposed
  {
    NotTemp("compose.yaml");
    NotTemp(".env");
    var dir := DirOf(base, name);
    if isAdd {
      ok := MakeStackDir(fs, base, name);
      if !ok {
        return;
      }
    }
    ok := WriteFileAtomic(fs, dir, "compose.yaml", compose);
    assert fs.exposed <= SaveStages(base, Visible(old(fs.tree)), Save(name, compose, env, isAdd));
    if !ok {
      return;
    }
    ok := WriteFileAtomic(fs, dir, ".env", env);
  }

  method ComposeFilePathIn(fs: FileSystem, dir: string) returns (found: Option<string>)
    requires dir in fs.tree
    ensures found == FirstFile(fs.tree[dir], ACCEPTED_NAMES)
  {
    for i := 0 to |ACCEPTED_NAMES|
      invariant FirstFile(fs.tree[dir], ACCEPTED_NAMES) == FirstFile(fs.tree[dir], ACCEPTED_NAMES[i..])
    {
      if IsFile(fs.tree[dir], ACCEPTED_NAMES[i]) {
        return Some(ACCEPTED_NAMES[i]);
      }
    }
    return None;
  }

  /** The stored content of a stack, or nothing when there is no directory for it. */
  method GetStack(fs: FileSystem, basePath: string, name: string) returns (r: Result<Option<StackContent>, string>)
    ensures r.Failure? <==> StackDir(basePath, name).Failure?
    ensures r.Success? ==>
      var dir := DirOf(Clean(basePath), name);
      r.value == if dir in Visible(fs.tree) then Some(View(Visible(fs.tree)[dir])) else None
  {
    var found := StackDir(basePath, name);
    if found.Failure? {
      return Failure(found.error);
    }
    StackDirExact(basePath, name);
    var dir := found.value;
    if dir !in fs.tree {
      return Success(None);
    }
    ViewIgnoresTemps(fs.tree, dir);
    var composePath := ComposeFilePathIn(fs, dir);
    var compose := "";
    if composePath.Some? {
      compose := ContentOf(fs.tree[dir], composePath.value);
    }
    return Success(Some(StackContent(compose, ContentOf(fs.tree[dir], ".env"))));
  }

  /** Fails only when a folder has taken the file's place. */
  method GetGlobalEnv(fs: FileSystem, basePath: string) returns (r: Result<string, string>)
    ensures var files := FilesIn(Visible(fs.tree), Clean(basePath));
      r.Failure? <==> IsFolder(files, "global.env")
    ensures r.Success? ==> r.value == ContentOf(FilesIn(Visible(fs.tree), Clean(basePath)), "global.env")
  {
    var files := FilesIn(fs.tree, Clean(basePath));
    NotTemp("global.env");
    if "global.env" !in files {
      return Success("");
    }
    if files["global.env"].Folder? {
      return Failure("is a directory");
    }
    return Success(files["global.env"].content);
  }

  method SetGlobalEnv(fs: FileSystem, basePath: string, envOk: string -> bool, content: string) returns (r: SaveResult)
    requires fs.exposed == {Visible(fs.tree)}
    modifies fs
    ensures var base, before := Clean(basePath), Visible(old(fs.tree));
      && (r.Rejected? <==> !envOk(content))
      && (r.Rejected? ==> fs.tree == old(fs.tree) && fs.exposed == old(fs.exposed))
      && (r.Saved? ==> Possible(base, before, SetGlobal(content))
                       && Visible(fs.tree) == TreeStep(base, before, SetGlobal(content)))
      && fs.exposed <= {before, WithDir(before, base), TreeStep(base, before, SetGlobal(content))}
      && Visible(fs.tree) in fs.exposed
  {
    if !envOk(content) {
      return Rejected;
    }
    NotTemp("global.env");
    var ok := fs.Mkdir(Clean(basePath));
    if ok {
      ok := WriteFileAtomic(fs, Clean(basePath), "global.env", content);
    }
    r := if ok then Saved else IOFailed;
  }

  /** After a failed removal: any part of the directory is gone, and nothing else. */
  ghost predicate PartlyRemoved(before: Tree, after: Tree, dir: string) {
    && after - {dir} == before - {dir}
    && (dir in before <==> dir in after)
    && (dir in before ==> after[dir].Items <= before[dir].Items)
  }

  /** The file part of deleting a stack. */
  method RemoveStackDir(fs: FileSystem, basePath: string, name: string) returns (ok: bool)
    requires fs.Recorded() && StackDir(basePath, name).Success?
    modifies fs
    ensures ok ==> Possible(Clean(basePath), Visible(old(fs.tree)), Delete(name))
    ensures ok ==> Visible(fs.tree) == TreeStep(Clean(basePath), Visible(old(fs.tree)), Delete(name))
    ensures fs.tree - {DirOf(Clean(basePath), name)} == old(fs.tree) - {DirOf(Clean(basePath), name)}
    ensures !ok ==> PartlyRemoved(old(fs.tree), fs.tree, DirOf(Clean(basePath), name))
  {
    StackDirExact(basePath, name);
    ok := fs.RemoveAll(StackDir(basePath, name).value);
  }

  function LegacyDir(basePath: string, project: string): string {
    Clean(Clean(basePath) + "/" + project)
  }

  lemma LegacyDirIsStackDir(basePath: string, project: string)
    requires ValidProjectName(project) && Clean(basePath) !in {"/", "."}
    ensures LegacyDir(basePath, project) == DirOf(Clean(basePath), project)
  {
    hide Clean;
    CleanIsIdempotent(basePath);
    ProjectNamesAreOrdinary(project);
    CleanChild(Clean(basePath), project);
  }

  lemma ProjectNamesAreOrdinary(project: string)
    requires ValidProjectName(project)
    ensures SlashFree(project) && project !in {"", ".", ".."}
  {
    assert project[0] != '.' && forall i :: 0 <= i < |project| ==> project[i] != '/';
  }

  /** What is there when the writing begins, or when it does not get that far. */
  function LegacyStages(base: string, dir: string, tree: Tree): seq<Tree> {
    [tree, WithDir(tree, base), WithDir(WithDir(tree, base), dir)]
  }

  /**
   The compose file that direct deployments leave next to a stack's own, written in place: a failure can
   leave any part of it.  `left` is what the file holds if the writing began.
   */
  method WriteComposeFile(fs: FileSystem, basePath: string, project: string, compose: string)
    returns (ok: bool, ghost left: Option<string>)
    requires fs.Recorded() && ValidProjectName(project)
    modifies fs
    ensures var dir := LegacyDir(basePath, project);
      var stages := LegacyStages(Clean(basePath), dir, Visible(old(fs.tree)));
      && (ok ==> left == Some(compose))
      && (left.Some? ==>
            && !IsFolder(FilesIn(Visible(old(fs.tree)), dir), "docker-compose.yml")
            && Visible(fs.tree) == Put(stages[2], dir, "docker-compose.yml", left.value))
      && (left.None? ==> Visible(fs.tree) in stages)
    ensures ok && Clean(basePath) !in {"/", "."} ==>
      var base, op := Clean(basePath), WriteLegacy(project, compose);
      && Possible(base, Visible(old(fs.tree)), op)
      && Visible(fs.tree) == TreeStep(base, Visible(old(fs.tree)), op)
  {
    hide Clean, View, FirstFile;
    left := None;
    var base, dir := Clean(basePath), LegacyDir(basePath, project);
    if base !in {"/", "."} {
      LegacyDirIsStackDir(basePath, project);
    }
    NotTemp("docker-compose.yml");
    ok := fs.Mkdir(base);
    if !ok {
      return;
    }
    ok := fs.Mkdir(dir);
    if !ok {
      return;
    }
    ok, left := fs.WriteInPlace(dir, "docker-compose.yml", compose);
  }

  // ----- The store as a map -----

  /**
   What the program's users see.  `shadowed` are the stacks whose content comes from a file that is
   preferred over docker-compose.yml.
   */
  datatype Store = Store(stacks: map<string, StackContent>, shadowed: set<string>, globalEnv: string)

  function StoreStep(store: Store, op: Op): Store {
    match op
    case Save(name, compose, env, _) =>
      store.(stacks := store.stacks[name := StackContent(compose, env)], shadowed := store.shadowed + {name})
    case Delete(name) =>
      store.(stacks := store.stacks - {name}, shadowed := store.shadowed - {name})
    case SetGlobal(content) =>
      store.(globalEnv := content)
    case WriteLegacy(project, compose) =>
      if !ValidStackName(project) || project in store.shadowed then store
      else
        var env := if project in store.stacks then store.stacks[project].env else "";
        store.(stacks := store.stacks[project := StackContent(compose, env)])
  }

  predicate HidesLegacy(files: map<string, Entry>) {
    IsFile(files, "compose.yaml") || IsFile(files, "docker-compose.yaml")
  }

  ghost predicate RefinesAt(base: string, tree: Tree, store: Store, name: string) {
    var dir := DirOf(base, name);
    && (name in store.stacks <==> dir in tree)
    && (name in store.stacks ==> store.stacks[name] == View(tree[dir]))
    && (name in store.shadowed <==> dir in tree && HidesLegacy(tree[dir]))
  }

  ghost predicate Refines(base: string, tree: Tree, store: Store) {
    && (forall name :: name in store.stacks || name in store.shadowed ==> ValidStackName(name))
    && (forall name :: ValidStackName(name) ==> RefinesAt(base, tree, store, name))
    && store.globalEnv == ContentOf(FilesIn(tree, base), "global.env")
  }

  lemma DirsDiffer(base: string, a: string, b: string)
    ensures DirOf(base, a) == DirOf(base, b) <==> a == b
    ensures DirOf(base, a) != base
  {
    assert DirOf(base, a)[|base| + 1..] == a && DirOf(base, b)[|base| + 1..] == b;
  }

  /** The name an operation is about; none for the global environment. */
  function Subject(op: Op): Option<string> {
    match op
    case Save(name, _, _, _) => Some(name)
    case Delete(name) => Some(name)
    case SetGlobal(_) => None
    case WriteLegacy(project, _) => Some(project)
  }

  lemma StepRefinesElsewhere(base: string, tree: Tree, store: Store, op: Op, name: string)
    requires RefinesAt(base, tree, store, name) && Subject(op) != Some(name)
    ensures RefinesAt(base, TreeStep(base, tree, op), StoreStep(store, op), name)
  {
    DirsDiffer(base, name, if Subject(op).Some? then Subject(op).value else name);
  }

  lemma StepRefinesHere(base: string, tree: Tree, store: Store, op: Op, name: string)
    requires RefinesAt(base, tree, store, name) && Subject(op) == Some(name)
    requires ValidStackName(name) && Possible(base, tree, op)
    ensures RefinesAt(base, TreeStep(base, tree, op), StoreStep(store, op), name)
  {
    var dir := DirOf(base, name);
    DirsDiffer(base, name, name);
    if !op.Delete? {
      FirstFileOf(TreeStep(base, tree, op)[dir]);
      FirstFileOf(FilesIn(tree, dir));
    }
  }

  /** One operation on the tree is the same operation on the map. */
  lemma StepRefines(base: string, tree: Tree, store: Store, op: Op)
    requires Refines(base, tree, store) && Possible(base, tree, op)
    ensures Refines(base, TreeStep(base, tree, op), StoreStep(store, op))
  {
    var after := TreeStep(base, tree, op);
    forall name | ValidStackName(name) ensures RefinesAt(base, after, StoreStep(store, op), name) {
      if Subject(op) == Some(name) {
        StepRefinesHere(base, tree, store, op, name);
      } else {
        StepRefinesElsewhere(base, tree, store, op, name);
      }
    }
    DirsDiffer(base, if Subject(op).Some? then Subject(op).value else "", "");
  }

  /**
   Whatever moment of a save of an existing stack a crash strikes, the stack shows (old, old),
   (new, old) or (new, new), and everything else is as it was.
   */
  lemma CrashShowsOldOrNew(base: string, tree: Tree, op: Op, shown: Tree)
    requires op.Save? && !op.isAdd && DirOf(base, op.name) in tree
    requires shown in SaveStages(base, tree, op)
    ensures var dir := DirOf(base, op.name);
      && shown - {dir} == tree - {dir} && dir in shown
      && var was, now := View(tree[dir]), View(shown[dir]);
         now in {was, StackContent(op.compose, was.env), StackContent(op.compose, op.env)}
  {
    var dir := DirOf(base, op.name);
    FirstFileOf(tree[dir]);
    FirstFileOf(shown[dir]);
    assert ComposeWritten(base, tree, op) - {dir} == tree - {dir};
    assert TreeStep(base, tree, op) - {dir} == tree - {dir};
  }

  function RunTree(base: string, tree: Tree, ops: seq<Op>): Option<Tree>
    decreases |ops|
  {
    if ops == [] then Some(tree)
    else if Possible(base, tree, ops[0]) then RunTree(base, TreeStep(base, tree, ops[0]), ops[1..])
    else None
  }

  function RunStore(store: Store, ops: seq<Op>): Store
    decreases |ops|
  {
    if ops == [] then store else RunStore(StoreStep(store, ops[0]), ops[1..])
  }

  /** Any sequence of successful operations on disk agrees with the same sequence on the map. */
  lemma {:induction false} RunsRefine(base: string, tree: Tree, store: Store, ops: seq<Op>)
    requires Refines(base, tree, store) && RunTree(base, tree, ops).Some?
    ensures Refines(base, RunTree(base, tree, ops).value, RunStore(store, ops))
    decreases |ops|
  {
    if ops != [] {
      StepRefines(base, tree, store, ops[0]);
      RunsRefine(base, TreeStep(base, tree, ops[0]), StoreStep(store, ops[0]), ops[1..]);
    }
  }

  const EMPTY_STORE := Store(map[], {}, "")

  /** From an empty disk on, what GetStack and GetGlobalEnv read is what the map says. */
  lemma ReadsAgreeWithStore(base: string, ops: seq<Op>, name: string)
    requires RunTree(base, map[], ops).Some? && ValidStackName(name)
    ensures var tree, store := RunTree(base, map[], ops).value, RunStore(EMPTY_STORE, ops);
      && (DirOf(base, name) in tree <==> name in store.stacks)
      && (name in store.stacks ==> View(tree[DirOf(base, name)]) == store.stacks[name])
      && ContentOf(FilesIn(tree, base), "global.env") == store.globalEnv
  {
    RunsRefine(base, map[], EMPTY_STORE, ops);
    assert RefinesAt(base, RunTree(base, map[], ops).value, RunStore(EMPTY_STORE, ops), name);
  }
}

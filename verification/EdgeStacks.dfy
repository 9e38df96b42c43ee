/**
 Stack requests in the edge mode: each branch of the dispatcher runs its operation on the stacks of this
 host and turns the outcome into one plain reply; a deployment may go on to stream.
 */
module EdgeStacks {
  import opened Common
  import opened EdgeFrames
  import opened EdgeRoutes
  import opened StackStore
  import EdgeDeploy
  import StackLock
  import Paths

  /** The decoded request body, fields that were not sent being empty. */
  datatype Body = Body(name: string, compose: string, env: string, content: string, isAdd: bool)

  datatype StackRequest = StackRequest(verb: string, path: string, body: Option<Body>)

  datatype Shown = Error | Message | Listing | Env(text: string) | Stack(content: StackContent)

  datatype Answer = Answer(status: nat, shown: Shown)

  /** What is decided outside of this model. */
  datatype World = World(
    composeOk: string -> bool,   // does the text pass as a compose file
    envOk: string -> bool,       // does the text pass as an environment file
    listed: bool,                // did listing stacks or networks work
    failure: nat                 // the status that the text of an operation's error leads to
  )

  predicate IsErrorStatus(status: nat) {
    status == 400 || status == 404 || status == 409
  }

  // ----- Operations on stored content -----

  lemma SavedShows(base: string, before: Tree, op: Op)
    requires op.Save?
    ensures var after := TreeStep(base, before, op);
      DirOf(base, op.name) in after && View(after[DirOf(base, op.name)]) == StackContent(op.compose, op.env)
  {
    FirstFileOf(TreeStep(base, before, op)[DirOf(base, op.name)]);
  }

  /** The reply after a save; a stack without a directory has no content. */
  function Reread(found: Result<Option<StackContent>, string>, status: nat): Answer {
    match found
    case Failure(_) => Answer(500, Error)
    case Success(None) => Answer(status, Stack(StackContent("", "")))
    case Success(Some(content)) => Answer(status, Stack(content))
  }

  /** Creates or replaces a stack; a reply below 300 shows exactly what was sent, and that is what is stored. */
  method SaveAndShow(fs: FileSystem, basePath: string, world: World, name: string, body: Option<Body>, isAdd: bool)
    returns (answer: Answer)
    requires IsErrorStatus(world.failure)
    modifies fs
    ensures answer.status == (if isAdd then 201 else 200) || IsErrorStatus(answer.status)
    ensures body.None? ==> answer.status == 400 && fs.tree == old(fs.tree)
    ensures body.Some? ==>
      var op := Save(name, body.value.compose, body.value.env, isAdd);
      && (!Acceptable(basePath, old(fs.tree), world.composeOk, world.envOk, op) ==>
            answer.status >= 400 && fs.tree == old(fs.tree))
      && Visible(fs.tree) in SaveStages(Paths.Clean(basePath), Visible(old(fs.tree)), op)
      && (answer.status < 300 ==>
            && StackDir(basePath, name).Success?
            && Possible(Paths.Clean(basePath), Visible(old(fs.tree)), op)
            && Visible(fs.tree) == TreeStep(Paths.Clean(basePath), Visible(old(fs.tree)), op)
            && answer.shown == Stack(StackContent(body.value.compose, body.value.env)))
  {
    if body.None? {
      return Answer(400, Error);
    }
    var base := Paths.Clean(basePath);
    ghost var before := Visible(fs.tree);
    fs.Begin();
    var r := SaveStack(fs, basePath, world.composeOk, world.envOk, name, body.value.compose, body.value.env, isAdd);
    if !r.Saved? {
      return Answer(world.failure, Error);
    }
    SavedShows(base, before, Save(name, body.value.compose, body.value.env, isAdd));
    var found := GetStack(fs, basePath, name);
    return Reread(found, if isAdd then 201 else 200);
  }

  /** 400 for a bad name, 404 without a directory, and otherwise what is stored. */
  ghost function Shows(basePath: string, tree: Tree, name: string): Answer {
    var dir := DirOf(Paths.Clean(basePath), name);
    if StackDir(basePath, name).Failure? then Answer(400, Error)
    else if dir !in tree then Answer(404, Error)
    else Answer(200, Stack(View(tree[dir])))
  }

  method ShowStack(fs: FileSystem, basePath: string, name: string) returns (answer: Answer)
    ensures answer == Shows(basePath, Visible(fs.tree), name)
    ensures StackDir(basePath, name).Failure? <==> answer.status == 400
    ensures StackDir(basePath, name).Success? ==>
      answer.status == if StackDir(basePath, name).value in fs.tree then 200 else 404
  {
    StackDirExact(basePath, name);
    var found := GetStack(fs, basePath, name);
    return if found.Failure? then Answer(400, Error)
           else if found.value.None? then Answer(404, Error)
           else Answer(200, Stack(found.value.value));
  }

  /** After an action that worked the reply is 200, with the stack if it can be shown. */
  method SendStackFull(fs: FileSystem, basePath: string, name: string) returns (answer: Answer)
    ensures answer.status == 200
    ensures answer.shown.Stack? <==>
      StackDir(basePath, name).Success? && DirOf(Paths.Clean(basePath), name) in Visible(fs.tree)
    ensures answer.shown.Stack? ==>
      answer.shown.content == View(Visible(fs.tree)[DirOf(Paths.Clean(basePath), name)])
  {
    var shown := ShowStack(fs, basePath, name);
    return if shown.status == 200 then shown else Answer(200, Message);
  }

  method ShowGlobalEnv(fs: FileSystem, basePath: string) returns (answer: Answer)
    ensures var files := FilesIn(Visible(fs.tree), Paths.Clean(basePath));
      answer == if IsFolder(files, "global.env") then Answer(500, Error)
                else Answer(200, Env(ContentOf(files, "global.env")))
  {
    var content := GetGlobalEnv(fs, basePath);
    return if content.Failure? then Answer(500, Error) else Answer(200, Env(content.value));
  }

  method ReplaceGlobalEnv(fs: FileSystem, basePath: string, world: World, body: Option<Body>)
    returns (answer: Answer)
    requires IsErrorStatus(world.failure)
    modifies fs
    ensures answer.status == 200 || IsErrorStatus(answer.status)
    ensures body.None? || !world.envOk(body.value.content) ==> answer.status >= 400 && fs.tree == old(fs.tree)
    ensures body.Some? ==>
      var base, before, op := Paths.Clean(basePath), Visible(old(fs.tree)), SetGlobal(body.value.content);
      && Visible(fs.tree) in {before, WithDir(before, base), TreeStep(base, before, op)}
      && (answer.status < 300 ==> Possible(base, before, op) && Visible(fs.tree) == TreeStep(base, before, op))
  {
    if body.None? {
      return Answer(400, Error);
    }
    fs.Begin();
    var r := SetGlobalEnv(fs, basePath, world.envOk, body.value.content);
    return if r.Saved? then Answer(200, Message) else Answer(world.failure, Error);
  }

  // ----- Operations under the lock -----

  /** The operation of each action known here. */
  function ActionOf(action: string): Option<StackLock.Operation> {
    match action
    case "up" => Some(StackLock.Run(StackLock.UP))
    case "start" => Some(StackLock.Run(StackLock.UP))
    case "stop" => Some(StackLock.Run(["stop"]))
    case "restart" => Some(StackLock.Run(["restart"]))
    case "down" => Some(StackLock.Run(["down"]))
    case "update" => Some(StackLock.Update)
    case _ => None
  }

  function ServiceActionOf(service: string, action: string): Option<StackLock.Operation> {
    match action
    case "up" => Some(StackLock.Run(["up", "-d", service]))
    case "stop" => Some(StackLock.Run(["stop", service]))
    case "restart" => Some(StackLock.Run(["restart", service]))
    case _ => None
  }

  /** The operation a request asks for, if its action and its service are known ones. */
  function OperationOf(target: Target): Option<StackLock.Operation> {
    match target
    case Act(_, action) => ActionOf(action)
    case ActOnService(_, service, action) => if ValidService(service) then ServiceActionOf(service, action) else None
    case Remove(_) => Some(StackLock.Delete)
    case _ => None
  }

  /** The switch refuses exactly the actions and services without an operation. */
  lemma RefusedExactlyWithoutOperation(verb: string, sub: seq<string>)
    ensures var target := EdgeTarget(verb, sub);
      IsLifecycle(target) ==> (target.Refused? <==> OperationOf(target).None?)
  {
  }

  // ----- What a call that gets the lock does, word by word -----

  function OneCommand(words: seq<string>, ok: bool): seq<StackLock.Action> {
    [StackLock.Acquire, StackLock.Start(words), StackLock.Finish(words, ok), StackLock.Release]
  }

  /** The pull, a look at the listing if it worked, and "up" if the stack is shown to run. */
  ghost predicate PullsAndRestarts(done: seq<StackLock.Action>, ok: bool) {
    || (!ok && done == OneCommand(["pull"], false))
    || (exists runs, shown :: (shown ==> runs) && (shown || ok) &&
          done == [StackLock.Acquire, StackLock.Start(["pull"]), StackLock.Finish(["pull"], true),
                   StackLock.Check(runs, shown)]
                  + (if shown then [StackLock.Start(["up", "-d", "--remove-orphans"]),
                                    StackLock.Finish(["up", "-d", "--remove-orphans"], ok)] else [])
                  + [StackLock.Release])
  }

  /** "down" if the directory is there, whether or not that works, and the removal. */
  ghost predicate TakesDownAndRemoves(done: seq<StackLock.Action>, ok: bool) {
    || done == [StackLock.Acquire, StackLock.Stat(false), StackLock.RemoveDir(ok), StackLock.Release]
    || (exists ignored ::
          done == [StackLock.Acquire, StackLock.Stat(true), StackLock.Start(["down", "--remove-orphans"]),
                   StackLock.Finish(["down", "--remove-orphans"], ignored), StackLock.RemoveDir(ok),
                   StackLock.Release])
  }

  ghost predicate DoesAsAsked(target: Target, done: seq<StackLock.Action>, ok: bool) {
    match target
    case Act(_, action) =>
      && (action == "up" || action == "start" ==> done == OneCommand(["up", "-d", "--remove-orphans"], ok))
      && (action == "stop" ==> done == OneCommand(["stop"], ok))
      && (action == "restart" ==> done == OneCommand(["restart"], ok))
      && (action == "down" ==> done == OneCommand(["down"], ok))
      && (action == "update" ==> PullsAndRestarts(done, ok))
    case ActOnService(_, service, action) =>
      && (action == "up" ==> done == OneCommand(["up", "-d", service], ok))
      && (action == "stop" ==> done == OneCommand(["stop", service], ok))
      && (action == "restart" ==> done == OneCommand(["restart", service], ok))
    case Remove(_) => TakesDownAndRemoves(done, ok)
    case _ => false
  }

  lemma UpdatesPullAndRestart(done: seq<StackLock.Action>, ok: bool)
    requires StackLock.IsWholeOperation(StackLock.Update, done, ok)
    ensures PullsAndRestarts(done, ok)
  {
    var body: seq<StackLock.Action> :| StackLock.IsBody(StackLock.Update, body, ok) && done == StackLock.Whole(body);
    if body != StackLock.Command(["pull"], false) {
      assert body == body[..3] + body[3..];
      var check := body[2];
      assert done == [StackLock.Acquire, StackLock.Start(["pull"]), StackLock.Finish(["pull"], true),
                      StackLock.Check(check.runs, check.shown)] + body[3..] + [StackLock.Release];
    }
  }

  /** An operation that ran did what was asked for. */
  lemma AskedIsDone(target: Target, done: seq<StackLock.Action>, ok: bool)
    requires OperationOf(target).Some? && StackLock.IsWholeOperation(OperationOf(target).value, done, ok)
    ensures DoesAsAsked(target, done, ok)
  {
    match OperationOf(target).value {
      case Update => UpdatesPullAndRestart(done, ok);
      case _ =>
    }
  }

  /** A refused name is 400, a busy stack 409, and a failed command what its text leads to. */
  function StatusOf(reply: StackLock.Reply, failure: nat): nat {
    match reply
    case Invalid => 400
    case Busy => 409
    case Completed => 200
    case Failed => failure
  }

  /** Only a deletion touches what is stored. */
  ghost predicate Leaves(host: StackLock.Host, op: StackLock.Operation, name: string, before: Tree, after: Tree,
                         reply: StackLock.Reply) {
    if op.Delete? then StackLock.Removed(host.basePath, name, before, after, reply) else after == before
  }

  method Perform(host: StackLock.Host, op: StackLock.Operation, name: string) returns (reply: StackLock.Reply)
    modifies host, host.fs
    ensures host.Obeys(op, name, old(host.locks), old(host.log), reply)
    ensures Leaves(host, op, name, old(host.fs.tree), host.fs.tree, reply)
  {
    match op {
      case Run(args) => reply := host.StackRun(name, args);
      case Update => reply := host.StackUpdate(name);
      case Delete => reply := host.StackDelete(name);
    }
  }

  /** Unknown actions and services are refused without touching the stack. */
  method PerformAndShow(host: StackLock.Host, world: World, target: Target)
    returns (answer: Answer, reply: Option<StackLock.Reply>)
    requires IsErrorStatus(world.failure) && IsLifecycle(target)
    modifies host, host.fs
    ensures reply.None? <==> OperationOf(target).None?
    ensures reply.None? ==>
      answer == Answer(400, Error) && host.log == old(host.log) && host.locks == old(host.locks)
      && host.fs.tree == old(host.fs.tree)
    ensures reply.Some? ==>
      && host.Obeys(OperationOf(target).value, target.name, old(host.locks), old(host.log), reply.value)
      && Leaves(host, OperationOf(target).value, target.name, old(host.fs.tree), host.fs.tree, reply.value)
      && (reply.value.Completed? || reply.value.Failed? ==>
            && old(host.log) <= host.log
            && DoesAsAsked(target, host.log[|old(host.log)|..], reply.value.Completed?))
      && answer.status == StatusOf(reply.value, world.failure)
    ensures reply == Some(StackLock.Completed) ==> answer.status == 200
    ensures reply == Some(StackLock.Busy) ==> answer.status == 409
    ensures reply == Some(StackLock.Invalid) ==> answer.status == 400
    ensures reply == Some(StackLock.Failed) ==> IsErrorStatus(answer.status)
  {
    var op := OperationOf(target);
    if op.None? {
      return Answer(400, Error), None;
    }
    var done := Perform(host, op.value, target.name);
    reply := Some(done);
    if done.Completed? || done.Failed? {
      AskedIsDone(target, host.log[|old(host.log)|..], done.Completed?);
    }
    if !done.Completed? {
      answer := Answer(StatusOf(done, world.failure), Error);
    } else if target.Remove? {
      answer := Answer(200, Message);
    } else {
      answer := SendStackFull(host.fs, host.basePath, target.name);
    }
  }

  // ----- Deployments -----

  /** Saves the stack if a compose text was sent, and otherwise only checks its name; then streams. */
  method HandleEdgeStackDeploy(out: Outbox, fs: FileSystem, basePath: string, world: World, name: string,
                               body: Option<Body>, i: EdgeDeploy.Interleaving)
    returns (returned: bool)
    requires out.frames == [] && IsErrorStatus(world.failure) && EdgeDeploy.IsPossible(i)
    modifies out, fs
    ensures out.frames != [] && out.frames[0].Reply?
    ensures out.frames[0].status == 200 || (IsErrorStatus(out.frames[0].status) && |out.frames| == 1 && returned)
    ensures out.frames[0].status == 200 ==>
      out.frames == EdgeDeploy.StateAfter(i).frames && (returned <==> EdgeDeploy.SeeContext in i.steps)
    ensures !SendsCompose(body) ==>
      && fs.tree == old(fs.tree)
      && (out.frames[0].status == 200 <==> StackDir(basePath, name).Success?)
    ensures SendsCompose(body) ==>
      var base, before := Paths.Clean(basePath), Visible(old(fs.tree));
      var op := Save(name, body.value.compose, body.value.env, body.value.isAdd);
      && (!Acceptable(basePath, old(fs.tree), world.composeOk, world.envOk, op) ==>
            out.frames[0].status >= 400 && fs.tree == old(fs.tree))
      && (out.frames[0].status == 200 ==>
            Possible(base, before, op) && Visible(fs.tree) == TreeStep(base, before, op))
    ensures IsPartOfAnswer(out.frames) && (returned ==> IsAnswer(out.frames))
  {
    hide IsAnswer, IsPartOfAnswer, TreeStep, Possible, Acceptable, Visible;
    var failed := false;
    var status := 400;
    if SendsCompose(body) {
      fs.Begin();
      var r := SaveStack(fs, basePath, world.composeOk, world.envOk, name,
                         body.value.compose, body.value.env, body.value.isAdd);
      failed, status := !r.Saved?, world.failure;
    } else {
      var found := GetStack(fs, basePath, name);
      failed := found.Failure?;
    }
    if failed {
      out.SendResponse(Reply(status));
      OneReply(status);
      assert out.frames == [Reply(status)];
      return true;
    }
    out.SendResponse(Reply(200));
    returned := EdgeDeploy.StreamSession(out, i);
  }

  predicate SendsCompose(body: Option<Body>) {
    body.Some? && body.value.compose != ""
  }

  // ----- The dispatcher -----

  /** What a reply below 300 stands for, on the stored content. */
  ghost predicate Achieved(basePath: string, before: Tree, after: Tree, target: Target, body: Option<Body>,
                           answer: Answer)
  {
    var base := Paths.Clean(basePath);
    match target
    case Create =>
      && body.Some? && StackDir(basePath, body.value.name).Success?
      && answer == Answer(201, Stack(StackContent(body.value.compose, body.value.env)))
      && Achieves(base, before, after, Save(body.value.name, body.value.compose, body.value.env, true))
    case Replace(name) =>
      && body.Some? && StackDir(basePath, name).Success?
      && answer == Answer(200, Stack(StackContent(body.value.compose, body.value.env)))
      && Achieves(base, before, after, Save(name, body.value.compose, body.value.env, false))
    case WriteEnv => body.Some? && Achieves(base, before, after, SetGlobal(body.value.content))
    case ReadEnv =>
      && after == before && !IsFolder(FilesIn(before, base), "global.env")
      && answer == Answer(200, Env(ContentOf(FilesIn(before, base), "global.env")))
    case Show(name) =>
      && after == before && StackDir(basePath, name).Success? && DirOf(base, name) in before
      && answer == Answer(200, Stack(View(before[DirOf(base, name)])))
    case Remove(name) => Achieves(base, before, after, Delete(name))
    case Refused => false
    case Nowhere => false
    case _ => after == before
  }

  ghost predicate Achieves(base: string, before: Tree, after: Tree, op: Op) {
    Possible(base, before, op) && after == TreeStep(base, before, op)
  }

  predicate Writes(target: Target) {
    target.Create? || target.Replace? || target.WriteEnv? || target.Remove?
  }

  predicate IsLifecycle(target: Target) {
    target.Act? || target.ActOnService? || target.Remove? || target.Refused?
  }

  /** One plain reply for every request that is no deployment. */
  method AnswerStackRequest(host: StackLock.Host, world: World, target: Target, body: Option<Body>)
    returns (answer: Answer, reply: Option<StackLock.Reply>)
    requires IsErrorStatus(world.failure) && !target.Deploy?
    modifies host, host.fs
    ensures answer.status < 300 ==>
      Achieved(host.basePath, Visible(old(host.fs.tree)), Visible(host.fs.tree), target, body, answer)
    ensures target.ReadEnv? ==>
      (answer.status < 300 <==>
        !IsFolder(FilesIn(Visible(old(host.fs.tree)), Paths.Clean(host.basePath)), "global.env"))
    ensures target.Show? ==> answer == Shows(host.basePath, Visible(old(host.fs.tree)), target.name)
    ensures target.Nowhere? || target.Follow? ==> answer.status == 404
    ensures !Writes(target) ==> host.fs.tree == old(host.fs.tree)
    ensures !IsLifecycle(target) || OperationOf(target).None? ==>
      host.log == old(host.log) && host.locks == old(host.locks)
    ensures IsLifecycle(target) ==>
      && (reply.None? <==> OperationOf(target).None?)
      && (reply.None? ==> answer.status == 400)
      && (reply.Some? ==>
            && host.Obeys(OperationOf(target).value, target.name, old(host.locks), old(host.log), reply.value)
            && Leaves(host, OperationOf(target).value, target.name, old(host.fs.tree), host.fs.tree, reply.value)
            && (reply.value.Completed? || reply.value.Failed? ==>
                  && old(host.log) <= host.log
                  && DoesAsAsked(target, host.log[|old(host.log)|..], reply.value.Completed?))
            && answer.status == StatusOf(reply.value, world.failure))
  {
    hide TreeStep, Possible, Acceptable, Visible, View, SaveStages, StackDir, Paths.Clean, PartlyRemoved;
    reply := None;
    if target.List? || target.Networks? {
      answer := if world.listed then Answer(200, Listing) else Answer(500, Error);
    } else if target.ReadEnv? {
      answer := ShowGlobalEnv(host.fs, host.basePath);
    } else if target.WriteEnv? {
      answer := ReplaceGlobalEnv(host.fs, host.basePath, world, body);
    } else if target.Create? {
      answer := SaveAndShow(host.fs, host.basePath, world, if body.Some? then body.value.name else "", body, true);
    } else if target.Replace? {
      answer := SaveAndShow(host.fs, host.basePath, world, target.name, body, false);
    } else if target.Show? {
      answer := ShowStack(host.fs, host.basePath, target.name);
    } else if IsLifecycle(target) {
      answer, reply := PerformAndShow(host, world, target);
    } else {
      answer := Answer(404, Error);
    }
  }

  /** Every branch sends exactly one plain reply; only an accepted deployment goes on to stream. */
  method HandleStackRequest(out: Outbox, host: StackLock.Host, world: World, request: StackRequest,
                            i: EdgeDeploy.Interleaving)
    returns (returned: bool, answer: Answer)
    requires out.frames == [] && IsErrorStatus(world.failure) && EdgeDeploy.IsPossible(i)
    modifies out, host, host.fs
    ensures out.frames != [] && out.frames[0] == Reply(answer.status)
    ensures !TargetOf(request).Deploy? || answer.status >= 400 ==> returned && |out.frames| == 1
    ensures !TargetOf(request).Deploy? && answer.status < 300 ==>
      Achieved(host.basePath, Visible(old(host.fs.tree)), Visible(host.fs.tree), TargetOf(request), request.body,
               answer)
    ensures TargetOf(request).Nowhere? ==>
      answer.status == 404 && host.fs.tree == old(host.fs.tree) && host.log == old(host.log)
    ensures IsPartOfAnswer(out.frames) && (returned ==> IsAnswer(out.frames))
  {
    hide IsAnswer, IsPartOfAnswer, Achieved, EdgeTarget, OperationOf;
    var target := TargetOf(request);
    if target.Deploy? {
      returned := HandleEdgeStackDeploy(out, host.fs, host.basePath, world, target.name, request.body, i);
      answer := Answer(out.frames[0].status, Message);
    } else {
      var reply;
      answer, reply := AnswerStackRequest(host, world, target, request.body);
      out.SendResponse(Reply(answer.status));
      OneReply(answer.status);
      assert out.frames == [Reply(answer.status)];
      returned := true;
    }
  }

  function TargetOf(request: StackRequest): Target {
    EdgeTarget(request.verb, Sub(request.path))
  }

  /** A stack that was created or replaced is shown by the next request just as it was sent. */
  method SaveThenShow(host: StackLock.Host, world: World, name: string, body: Body, isAdd: bool)
    returns (saved: Answer, shown: Answer)
    requires IsErrorStatus(world.failure) && body.name == name
    modifies host, host.fs
    ensures saved.status < 300 ==> shown == Answer(200, Stack(StackContent(body.compose, body.env)))
  {
    hide TreeStep, Possible, Visible, View;
    var reply;
    SavedShows(Paths.Clean(host.basePath), Visible(host.fs.tree), Save(name, body.compose, body.env, isAdd));
    saved, reply := AnswerStackRequest(host, world, if isAdd then Create else Replace(name), Some(body));
    shown, reply := AnswerStackRequest(host, world, Show(name), None);
  }

  /** A stack that was deleted is not found by the next request. */
  method RemoveThenShow(host: StackLock.Host, world: World, name: string) returns (removed: Answer, shown: Answer)
    requires IsErrorStatus(world.failure)
    modifies host, host.fs
    ensures removed.status < 300 ==> shown == Answer(404, Error)
  {
    hide Visible, View;
    var reply;
    removed, reply := AnswerStackRequest(host, world, Remove(name), None);
    shown, reply := AnswerStackRequest(host, world, Show(name), None);
  }

  // ----- All requests -----

  /** What a request leads to: one plain reply computed by its branch, or one of the other handlers. */
  datatype Request =
    | Plain(status: nat)
    | Stacks(stackRequest: StackRequest, deployment: EdgeDeploy.Interleaving)
    | Logs(opens: bool, logReads: seq<Read>)
    | Stats(first: bool, samples: seq<Sample>)
    | DeployStream(bodyOk: bool, deployment: EdgeDeploy.Interleaving)

  predicate CanHappen(request: Request) {
    request.Stacks? || request.DeployStream? ==> EdgeDeploy.IsPossible(request.deployment)
  }

  /** Whatever a request leads to, its frames keep to the language, and form a whole answer at return. */
  method HandleRequest(out: Outbox, host: StackLock.Host, world: World, request: Request)
    returns (returned: bool)
    requires out.frames == [] && IsErrorStatus(world.failure) && CanHappen(request)
    modifies out, host, host.fs
    ensures IsPartOfAnswer(out.frames) && (returned ==> IsAnswer(out.frames))
    ensures request.Plain? ==> returned && out.frames == [Reply(request.status)]
  {
    hide IsAnswer, IsPartOfAnswer;
    var used;
    match request {
      case Plain(status) =>
        out.SendResponse(Reply(status));
        OneReply(status);
        assert out.frames == [Reply(status)];
        returned := true;
      case Stacks(stackRequest, deployment) =>
        var answer;
        returned, answer := HandleStackRequest(out, host, world, stackRequest, deployment);
      case Logs(opens, logReads) => returned, used := HandleContainerLogs(out, opens, logReads);
      case Stats(first, samples) => returned, used := HandleStatsStream(out, first, samples);
      case DeployStream(bodyOk, deployment) => returned := EdgeDeploy.HandleDeployStream(out, bodyOk, deployment);
    }
  }
}

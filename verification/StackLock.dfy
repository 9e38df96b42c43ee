/**
 Per-stack operation locks.  The sequential part says what one lifecycle call does when it runs; the
 concurrent part interleaves any number of such calls and shows that they do not overlap on a stack.
 */
module StackLock {
  import opened Common
  import Paths
  import StackStore

  /** What a call does while it holds the lock, the acquisition and the release included. */
  datatype Action =
    | Acquire
    | Start(args: seq<string>)
    | Finish(args: seq<string>, ok: bool)
    | Check(runs: bool, shown: bool)  // whether the stack runs, and whether the listing shows it
    | Stat(present: bool)             // whether the stack's directory exists
    | RemoveDir(ok: bool)
    | Release

  datatype Operation =
    | Run(args: seq<string>)
    | Update
    | Delete

  const UP := ["up", "-d", "--remove-orphans"]
  const PULL := ["pull"]
  const DOWN := ["down", "--remove-orphans"]

  function Command(args: seq<string>, ok: bool): seq<Action> {
    [Start(args), Finish(args, ok)]
  }

  /** A pull, and if it works a look whether the stack runs; it is brought up exactly if it is shown to run. */
  predicate IsUpdate(body: seq<Action>, ok: bool) {
    || (!ok && body == Command(PULL, false))
    || (&& |body| >= 3 && body[2].Check? && (body[2].shown ==> body[2].runs)
        && body[..3] == Command(PULL, true) + [body[2]]
        && if body[2].shown then body[3..] == Command(UP, ok) else ok && body[3..] == [])
  }

  /** Taken down exactly if the directory exists, whether or not that works; the removal decides. */
  ghost predicate IsDelete(body: seq<Action>, ok: bool) {
    || body == [Stat(false), RemoveDir(ok)]
    || exists ignored :: body == [Stat(true)] + Command(DOWN, ignored) + [RemoveDir(ok)]
  }

  /** What one whole operation does, for every way it can go, and whether it succeeds. */
  ghost predicate IsBody(op: Operation, body: seq<Action>, ok: bool) {
    match op
    case Run(args) => body == Command(args, ok)
    case Update => IsUpdate(body, ok)
    case Delete => IsDelete(body, ok)
  }

  function Whole(body: seq<Action>): seq<Action> {
    [Acquire] + body + [Release]
  }

  ghost predicate IsWholeOperation(op: Operation, word: seq<Action>, ok: bool) {
    exists body :: IsBody(op, body, ok) && word == Whole(body)
  }

  // ----- The lock table -----

  /** Stack name to whether its lock is held; an entry appears at the first attempt and stays. */
  type LockTable = map<string, bool>

  function IsHeld(locks: LockTable, stack: string): bool {
    stack in locks && locks[stack]
  }

  function Loaded(locks: LockTable, stack: string): LockTable {
    if stack in locks then locks else locks[stack := false]
  }

  function Unlocked(locks: LockTable, stack: string): LockTable {
    if stack in locks then locks[stack := false] else locks
  }

  // ----- One call -----

  datatype Reply = Invalid | Busy | Completed | Failed

  /** The host as one lifecycle call sees it. */
  class Host {
    const basePath: string
    const fs: StackStore.FileSystem
    var locks: LockTable
    var running: set<string>
    /** What the calls have done so far. */
    ghost var log: seq<Action>

    constructor (basePath: string, fs: StackStore.FileSystem)
      ensures this.basePath == basePath && this.fs == fs
      ensures locks == map[] && running == {} && log == []
    {
      this.basePath, this.fs, locks, running, log := basePath, fs, map[], {}, [];
    }

    method TryLock(stack: string) returns (ok: bool)
      modifies this`locks, this`log
      ensures ok == !IsHeld(old(locks), stack)
      ensures locks == if ok then Loaded(old(locks), stack)[stack := true] else old(locks)
      ensures log == if ok then old(log) + [Acquire] else old(log)
    {
      locks := Loaded(locks, stack);
      if locks[stack] {
        return false;
      }
      locks := locks[stack := true];
      log := log + [Acquire];
      return true;
    }

    method Unlock(stack: string)
      modifies this`locks, this`log
      ensures locks == Unlocked(old(locks), stack) && log == old(log) + [Release]
    {
      if stack in locks {
        locks := locks[stack := false];
      }
      log := log + [Release];
    }

    /** A `docker compose` run; it may change which stacks run. */
    method RunCommand(args: seq<string>) returns (ok: bool)
      modifies this`log, this`running
      ensures log == old(log) + Command(args, ok)
    {
      ok := *;
      running := *;
      log := log + Command(args, ok);
    }

    /** Looks the stack up in the listing of running projects, which can fail. */
    method CheckRunning(stack: string) returns (shown: bool)
      modifies this`log
      ensures shown ==> stack in running
      ensures log == old(log) + [Check(stack in running, shown)]
    {
      var listed: bool := *;
      shown := listed && stack in running;
      log := log + [Check(stack in running, shown)];
    }

    method StatDir(dir: string) returns (found: bool)
      modifies this`log
      ensures found == (dir in fs.tree)
      ensures log == old(log) + [Stat(found)]
    {
      found := dir in fs.tree;
      log := log + [Stat(found)];
    }

    method RemoveStackDir(stack: string) returns (ok: bool)
      requires StackStore.StackDir(basePath, stack).Success?
      modifies this`log, fs
      ensures log == old(log) + [RemoveDir(ok)]
      ensures Removed(basePath, stack, old(fs.tree), fs.tree, if ok then Completed else Failed)
    {
      fs.Begin();
      ok := StackStore.RemoveStackDir(fs, basePath, stack);
      log := log + [RemoveDir(ok)];
    }

    /** What a call promises: refused without a trace, or one whole operation with the lock given back. */
    ghost predicate Obeys(op: Operation, stack: string, locksBefore: LockTable, logBefore: seq<Action>, r: Reply)
      reads this
    {
      && (r.Invalid? <==> StackStore.StackDir(basePath, stack).Failure?)
      && (r.Busy? <==> !r.Invalid? && IsHeld(locksBefore, stack))
      && (r.Invalid? || r.Busy? ==> log == logBefore && locks == locksBefore)
      && (r.Completed? || r.Failed? ==>
            && logBefore <= log && IsWholeOperation(op, log[|logBefore|..], r.Completed?)
            && locks == Loaded(locksBefore, stack))
    }

    /** Start, stop, restart, recreate and take down a stack, or one service of it. */
    method StackRun(stack: string, args: seq<string>) returns (r: Reply)
      modifies this`locks, this`log, this`running
      ensures Obeys(Run(args), stack, old(locks), old(log), r)
    {
      hide IsBody, StackStore.StackDir;
      if StackStore.StackDir(basePath, stack).Failure? {
        return Invalid;
      }
      var acquired := TryLock(stack);
      if !acquired {
        return Busy;
      }
      var ok := RunCommand(args);
      Unlock(stack);
      WholeSuffix(Run(args), old(log), Command(args, ok), ok);
      return if ok then Completed else Failed;
    }

    /** Pulls, and brings the stack up again if it runs. */
    method StackUpdate(stack: string) returns (r: Reply)
      modifies this`locks, this`log, this`running
      ensures Obeys(Update, stack, old(locks), old(log), r)
    {
      hide IsBody, StackStore.StackDir;
      if StackStore.StackDir(basePath, stack).Failure? {
        return Invalid;
      }
      var acquired := TryLock(stack);
      if !acquired {
        return Busy;
      }
      ghost var body;
      r, body := PullAndRestart(stack);
      Unlock(stack);
      WholeSuffix(Update, old(log), body, r.Completed?);
    }

    method PullAndRestart(stack: string) returns (r: Reply, ghost body: seq<Action>)
      modifies this`log, this`running
      ensures IsBody(Update, body, r.Completed?) && log == old(log) + body
      ensures r.Completed? || r.Failed?
    {
      var ok := RunCommand(PULL);
      body := Command(PULL, ok);
      if !ok {
        return Failed, body;
      }
      ghost var runs := stack in running;
      var shown := CheckRunning(stack);
      body := body + [Check(runs, shown)];
      if shown {
        ok := RunCommand(UP);
        body := body + Command(UP, ok);
      }
      r := if ok then Completed else Failed;
    }

    /** Takes the stack down, whether or not that works, and removes its directory. */
    method StackDelete(stack: string) returns (r: Reply)
      modifies this`locks, this`log, this`running, fs
      ensures Obeys(Delete, stack, old(locks), old(log), r)
      ensures Removed(basePath, stack, old(fs.tree), fs.tree, r)
      ensures r.Completed? || r.Failed? ==>
        |old(log)| + 1 < |log|
        && log[|old(log)| + 1] == Stat(StackStore.StackDir(basePath, stack).value in old(fs.tree))
    {
      hide StackStore.StackDir, StackStore.TreeStep;
      var found := StackStore.StackDir(basePath, stack);
      if found.Failure? {
        return Invalid;
      }
      var acquired := TryLock(stack);
      if !acquired {
        return Busy;
      }
      ghost var body;
      r, body := DownAndRemove(stack, found.value);
      Unlock(stack);
      WholeSuffix(Delete, old(log), body, r.Completed?);
    }

    method DownAndRemove(stack: string, dir: string) returns (r: Reply, ghost body: seq<Action>)
      requires StackStore.StackDir(basePath, stack).Success?
      modifies this`log, this`running, fs
      ensures IsBody(Delete, body, r.Completed?) && log == old(log) + body
      ensures body[0] == Stat(dir in old(fs.tree))
      ensures r.Completed? || r.Failed?
      ensures Removed(basePath, stack, old(fs.tree), fs.tree, r)
    {
      hide StackStore.StackDir, Removed;
      var found := StatDir(dir);
      body := [Stat(found)];
      if found {
        var ignored := RunCommand(DOWN);
        body := body + Command(DOWN, ignored);
      }
      var removed := RemoveStackDir(stack);
      body := body + [RemoveDir(removed)];
      r := if removed then Completed else Failed;
    }
  }

  /** What a deletion leaves on disk: everything if it was refused, and else all but the stack's directory. */
  ghost predicate Removed(basePath: string, stack: string, before: StackStore.Tree, after: StackStore.Tree, r: Reply) {
    var base := Paths.Clean(basePath);
    match r
    case Invalid => after == before
    case Busy => after == before
    case Completed =>
      && StackStore.Possible(base, StackStore.Visible(before), StackStore.Delete(stack))
      && StackStore.Visible(after) == StackStore.TreeStep(base, StackStore.Visible(before), StackStore.Delete(stack))
    case Failed => StackStore.PartlyRemoved(before, after, StackStore.DirOf(base, stack))
  }

  lemma WholeSuffix(op: Operation, before: seq<Action>, body: seq<Action>, ok: bool)
    requires IsBody(op, body, ok)
    ensures var after := before + [Acquire] + body + [Release];
      before <= after && after[|before|..] == Whole(body) && IsWholeOperation(op, Whole(body), ok)
  {
  }

  // ----- Any number of calls, interleaved -----

  /** A call and the whole operation it performs if it gets the lock. */
  datatype Call = Call(stack: string, op: Operation, word: seq<Action>, ok: bool)

  datatype Phase = Entering | Knocking | Inside(at: nat) | Refused | Finished

  datatype Entry = Entry(id: nat, stack: string, action: Action)

  datatype State = State(
    locks: LockTable,
    phases: map<nat, Phase>,
    trace: seq<Entry>,       // everything done under a lock, oldest first
    holders: map<string, nat>,
    finished: seq<nat>       // calls in the order in which they released
  )

  /** The atomic steps of TryLock are the load of the lock object and the test-and-set under its mutex. */
  datatype Step = LoadLock(id: nat) | TestAndSet(id: nat) | Act(id: nat)

  ghost predicate WellFormed(calls: map<nat, Call>) {
    forall id :: id in calls ==> IsWholeOperation(calls[id].op, calls[id].word, calls[id].ok)
  }

  /** An operation acquires first, releases last, and does neither in between. */
  ghost predicate Bracketed(word: seq<Action>) {
    && |word| >= 2 && word[0] == Acquire
    && forall i :: 0 <= i < |word| ==> (word[i].Release? <==> i == |word| - 1)
  }

  ghost predicate AllBracketed(calls: map<nat, Call>) {
    forall id :: id in calls ==> Bracketed(calls[id].word)
  }

  lemma BodiesHaveNoRelease(op: Operation, body: seq<Action>, ok: bool)
    requires IsBody(op, body, ok)
    ensures Release !in body
  {
    if op.Update? && body != Command(PULL, false) {
      assert body == body[..3] + body[3..];
    }
  }

  lemma WholeOperationsAreBracketed(calls: map<nat, Call>)
    requires WellFormed(calls)
    ensures AllBracketed(calls)
  {
    hide IsBody;
    forall id | id in calls ensures Bracketed(calls[id].word) {
      var body: seq<Action> :| IsBody(calls[id].op, body, calls[id].ok) && calls[id].word == Whole(body);
      BodiesHaveNoRelease(calls[id].op, body, calls[id].ok);
    }
  }

  function Init(calls: map<nat, Call>): State {
    State(map[], map id | id in calls :: Entering, [], map[], [])
  }

  predicate Enabled(calls: map<nat, Call>, s: State, step: Step) {
    step.id in calls && step.id in s.phases &&
    match step
    case LoadLock(id) => s.phases[id] == Entering
    case TestAndSet(id) => s.phases[id] == Knocking && calls[id].word != []
    case Act(id) => s.phases[id].Inside? && s.phases[id].at < |calls[id].word|
  }

  function Apply(calls: map<nat, Call>, s: State, step: Step): State
    requires Enabled(calls, s, step)
  {
    var id := step.id;
    var call := calls[id];
    match step
    case LoadLock(_) =>
      s.(locks := Loaded(s.locks, call.stack), phases := s.phases[id := Knocking])
    case TestAndSet(_) =>
      if IsHeld(s.locks, call.stack) then s.(phases := s.phases[id := Refused])
      else s.(locks := s.locks[call.stack := true],
              phases := s.phases[id := Inside(1)],
              trace := s.trace + [Entry(id, call.stack, call.word[0])],
              holders := s.holders[call.stack := id])
    case Act(_) =>
      var at := s.phases[id].at;
      var done := s.(trace := s.trace + [Entry(id, call.stack, call.word[at])],
                     phases := s.phases[id := if at + 1 == |call.word| then Finished else Inside(at + 1)]);
      if call.word[at].Release? then
        done.(locks := Unlocked(s.locks, call.stack), holders := s.holders - {call.stack},
              finished := s.finished + [id])
      else done
  }

  function RunSteps(calls: map<nat, Call>, s: State, steps: seq<Step>): Option<State>
    decreases |steps|
  {
    if steps == [] then Some(s)
    else if Enabled(calls, s, steps[0]) then RunSteps(calls, Apply(calls, s, steps[0]), steps[1..])
    else None
  }

  // ----- Reading a trace -----

  function OnStack(trace: seq<Entry>, stack: string): seq<Entry> {
    if trace == [] then []
    else
      var last := trace[|trace| - 1];
      OnStack(trace[..|trace| - 1], stack) + if last.stack == stack then [last] else []
  }

  function OfCall(trace: seq<Entry>, id: nat): seq<Action> {
    if trace == [] then []
    else
      var last := trace[|trace| - 1];
      OfCall(trace[..|trace| - 1], id) + if last.id == id then [last.action] else []
  }

  /** The first `n` actions of a call, as they appear in a trace. */
  function Performed(calls: map<nat, Call>, id: nat, n: nat): seq<Entry>
    requires id in calls && n <= |calls[id].word|
  {
    seq(n, i requires 0 <= i < n => Entry(id, calls[id].stack, calls[id].word[i]))
  }

  /** The whole operations of the calls in `ids` that are on `stack`, one after the other. */
  function WholeOperations(calls: map<nat, Call>, ids: seq<nat>, stack: string): seq<Entry> {
    if ids == [] then []
    else
      var last := ids[|ids| - 1];
      WholeOperations(calls, ids[..|ids| - 1], stack) +
      if last in calls && calls[last].stack == stack then Performed(calls, last, |calls[last].word|) else []
  }

  lemma TraceAppend(trace: seq<Entry>, entry: Entry, stack: string, id: nat)
    ensures OnStack(trace + [entry], stack) == OnStack(trace, stack) + if entry.stack == stack then [entry] else []
    ensures OfCall(trace + [entry], id) == OfCall(trace, id) + if entry.id == id then [entry.action] else []
  {
    assert (trace + [entry])[..|trace|] == trace;
  }

  lemma WholeOperationsAppend(calls: map<nat, Call>, ids: seq<nat>, id: nat, stack: string)
    requires id in calls
    ensures WholeOperations(calls, ids + [id], stack) ==
      WholeOperations(calls, ids, stack) +
      if calls[id].stack == stack then Performed(calls, id, |calls[id].word|) else []
  {
    assert (ids + [id])[..|ids|] == ids;
  }

  lemma PerformedStep(calls: map<nat, Call>, id: nat, at: nat)
    requires id in calls && at < |calls[id].word|
    ensures Performed(calls, id, at + 1) == Performed(calls, id, at) + [Entry(id, calls[id].stack, calls[id].word[at])]
  {
  }

  // ----- The invariant of every interleaving -----

  /** Each call has done what its phase says, and is inside its stack only as the holder of the lock. */
  ghost predicate PhaseOk(call: Call, s: State, id: nat)
    requires id in s.phases
  {
    match s.phases[id]
    case Inside(at) =>
      && 1 <= at < |call.word| && call.stack in s.holders && s.holders[call.stack] == id
      && OfCall(s.trace, id) == call.word[..at] && id !in s.finished
    case Finished => OfCall(s.trace, id) == call.word && id in s.finished
    case _ => OfCall(s.trace, id) == [] && id !in s.finished
  }

  /** A stack's lock is held exactly when it has a holder, whose operation is the unfinished one. */
  ghost predicate StackOk(calls: map<nat, Call>, s: State, stack: string) {
    && (stack in s.holders <==> IsHeld(s.locks, stack))
    && var past := WholeOperations(calls, s.finished, stack);
       if stack in s.holders then
         var id := s.holders[stack];
         && id in calls && id in s.phases && calls[id].stack == stack
         && s.phases[id].Inside? && s.phases[id].at <= |calls[id].word|
         && OnStack(s.trace, stack) == past + Performed(calls, id, s.phases[id].at)
       else OnStack(s.trace, stack) == past
  }

  ghost predicate Inv(calls: map<nat, Call>, s: State) {
    && s.phases.Keys == calls.Keys
    && NoDup(s.finished)
    && (forall id :: id in calls ==> PhaseOk(calls[id], s, id))
    && (forall stack :: StackOk(calls, s, stack))
  }

  /** A step of one call does not change what another one has done. */
  lemma PhaseOkOther(calls: map<nat, Call>, s: State, step: Step, id: nat)
    requires s.phases.Keys == calls.Keys && Enabled(calls, s, step) && id in calls && id != step.id
    requires PhaseOk(calls[id], s, id) && PhaseOk(calls[step.id], s, step.id)
    requires StackOk(calls, s, calls[step.id].stack)
    ensures PhaseOk(calls[id], Apply(calls, s, step), id)
  {
    hide OnStack, WholeOperations, OfCall;
    var call := calls[step.id];
    if !step.LoadLock? {
      var at := if step.Act? then s.phases[step.id].at else 0;
      TraceAppend(s.trace, Entry(step.id, call.stack, call.word[at]), call.stack, id);
    }
  }

  lemma PhaseOkOwn(calls: map<nat, Call>, s: State, step: Step)
    requires s.phases.Keys == calls.Keys && Enabled(calls, s, step)
    requires Bracketed(calls[step.id].word) && PhaseOk(calls[step.id], s, step.id)
    ensures PhaseOk(calls[step.id], Apply(calls, s, step), step.id)
  {
    var id, call := step.id, calls[step.id];
    if !step.LoadLock? {
      var at := if step.Act? then s.phases[id].at else 0;
      TraceAppend(s.trace, Entry(id, call.stack, call.word[at]), call.stack, id);
      assert call.word[..at + 1] == call.word[..at] + [call.word[at]];
      assert call.word[..|call.word|] == call.word;
    }
  }

  lemma StackOkTest(calls: map<nat, Call>, s: State, id: nat, stack: string)
    requires s.phases.Keys == calls.Keys && Enabled(calls, s, TestAndSet(id))
    requires StackOk(calls, s, stack)
    ensures StackOk(calls, Apply(calls, s, TestAndSet(id)), stack)
  {
    hide OnStack, WholeOperations, OfCall;
    var call := calls[id];
    if IsHeld(s.locks, call.stack) {
      return;
    }
    TraceAppend(s.trace, Entry(id, call.stack, call.word[0]), stack, id);
    PerformedStep(calls, id, 0);
    assert Performed(calls, id, 0) == [];
  }

  lemma StackOkAct(calls: map<nat, Call>, s: State, id: nat, stack: string)
    requires s.phases.Keys == calls.Keys && Enabled(calls, s, Act(id))
    requires Bracketed(calls[id].word) && PhaseOk(calls[id], s, id)
    requires StackOk(calls, s, stack)
    ensures StackOk(calls, Apply(calls, s, Act(id)), stack)
  {
    hide OnStack, WholeOperations, OfCall;
    var call := calls[id];
    var at := s.phases[id].at;
    TraceAppend(s.trace, Entry(id, call.stack, call.word[at]), stack, id);
    if call.word[at].Release? {
      WholeOperationsAppend(calls, s.finished, id, stack);
    }
    if call.stack == stack {
      PerformedStep(calls, id, at);
    }
  }

  lemma PhasesStep(calls: map<nat, Call>, s: State, step: Step, id: nat)
    requires AllBracketed(calls) && Inv(calls, s) && Enabled(calls, s, step) && id in calls
    ensures PhaseOk(calls[id], Apply(calls, s, step), id)
  {
    hide OnStack, OfCall, WholeOperations;
    assert PhaseOk(calls[step.id], s, step.id) && PhaseOk(calls[id], s, id);
    assert StackOk(calls, s, calls[step.id].stack);
    if id == step.id {
      PhaseOkOwn(calls, s, step);
    } else {
      PhaseOkOther(calls, s, step, id);
    }
  }

  lemma StacksStep(calls: map<nat, Call>, s: State, step: Step, stack: string)
    requires AllBracketed(calls) && Inv(calls, s) && Enabled(calls, s, step)
    ensures StackOk(calls, Apply(calls, s, step), stack)
  {
    hide OnStack, OfCall, WholeOperations;
    assert StackOk(calls, s, stack) && PhaseOk(calls[step.id], s, step.id);
    match step {
      case LoadLock(_) =>
      case TestAndSet(id) => StackOkTest(calls, s, id, stack);
      case Act(id) => StackOkAct(calls, s, id, stack);
    }
  }

  lemma FinishedStep(calls: map<nat, Call>, s: State, step: Step)
    requires AllBracketed(calls) && Inv(calls, s) && Enabled(calls, s, step)
    ensures NoDup(Apply(calls, s, step).finished)
  {
    hide OnStack, OfCall, WholeOperations, StackOk;
    assert PhaseOk(calls[step.id], s, step.id);
  }

  lemma InvStep(calls: map<nat, Call>, s: State, step: Step)
    requires AllBracketed(calls) && Inv(calls, s) && Enabled(calls, s, step)
    ensures Inv(calls, Apply(calls, s, step))
  {
    hide PhaseOk, StackOk, Bracketed;
    var next := Apply(calls, s, step);
    FinishedStep(calls, s, step);
    forall id | id in calls ensures PhaseOk(calls[id], next, id) {
      PhasesStep(calls, s, step, id);
    }
    forall stack ensures StackOk(calls, next, stack) {
      StacksStep(calls, s, step, stack);
    }
  }

  lemma {:induction false} InvRun(calls: map<nat, Call>, s: State, steps: seq<Step>)
    requires AllBracketed(calls) && Inv(calls, s) && RunSteps(calls, s, steps).Some?
    ensures Inv(calls, RunSteps(calls, s, steps).value)
    decreases |steps|
  {
    if steps != [] {
      InvStep(calls, s, steps[0]);
      InvRun(calls, Apply(calls, s, steps[0]), steps[1..]);
    }
  }

  lemma EveryRunIsOk(calls: map<nat, Call>, steps: seq<Step>)
    requires WellFormed(calls) && RunSteps(calls, Init(calls), steps).Some?
    ensures Inv(calls, RunSteps(calls, Init(calls), steps).value)
  {
    WholeOperationsAreBracketed(calls);
    assert Inv(calls, Init(calls));
    InvRun(calls, Init(calls), steps);
  }

  // ----- Main results -----

  ghost predicate InsideStack(calls: map<nat, Call>, s: State, id: nat, stack: string) {
    id in calls && id in s.phases && calls[id].stack == stack && s.phases[id].Inside?
  }

  /** At most one call per stack is between acquire and release, and the lock is held exactly then. */
  lemma AtMostOneInside(calls: map<nat, Call>, steps: seq<Step>, stack: string)
    requires WellFormed(calls) && RunSteps(calls, Init(calls), steps).Some?
    ensures var s := RunSteps(calls, Init(calls), steps).value;
      && (forall a, b :: InsideStack(calls, s, a, stack) && InsideStack(calls, s, b, stack) ==> a == b)
      && (IsHeld(s.locks, stack) <==> exists a :: InsideStack(calls, s, a, stack))
  {
    EveryRunIsOk(calls, steps);
    var s := RunSteps(calls, Init(calls), steps).value;
    assert StackOk(calls, s, stack);
    forall a | InsideStack(calls, s, a, stack) ensures stack in s.holders && s.holders[stack] == a {
      assert PhaseOk(calls[a], s, a);
    }
    if stack in s.holders {
      assert InsideStack(calls, s, s.holders[stack], stack);
    }
  }

  /** `rest` is the beginning of the operation of a call that is inside the stack, or nothing. */
  ghost predicate IsUnfinishedOperation(calls: map<nat, Call>, s: State, stack: string, rest: seq<Entry>) {
    || rest == []
    || exists id :: InsideStack(calls, s, id, stack) && s.phases[id].at < |calls[id].word|
                    && rest == Performed(calls, id, s.phases[id].at)
  }

  /**
   Each stack's trace is a concatenation of whole operations, by calls that have returned, followed
   by the beginning of at most one more.
   */
  lemma StackTraceIsSerial(calls: map<nat, Call>, steps: seq<Step>, stack: string)
    requires WellFormed(calls) && RunSteps(calls, Init(calls), steps).Some?
    ensures var s := RunSteps(calls, Init(calls), steps).value;
      var past := WholeOperations(calls, s.finished, stack);
      && NoDup(s.finished)
      && (forall id :: id in s.finished && id in calls ==> id in s.phases && s.phases[id].Finished?)
      && past <= OnStack(s.trace, stack)
      && IsUnfinishedOperation(calls, s, stack, OnStack(s.trace, stack)[|past|..])
  {
    EveryRunIsOk(calls, steps);
    var s := RunSteps(calls, Init(calls), steps).value;
    assert StackOk(calls, s, stack);
    forall id | id in s.finished && id in calls ensures s.phases[id].Finished? {
      assert PhaseOk(calls[id], s, id);
    }
    if stack in s.holders {
      var id := s.holders[stack];
      assert PhaseOk(calls[id], s, id);
      assert InsideStack(calls, s, id, stack);
    }
  }

  /**
   A refused call has done nothing, a call that returned after getting the lock has done exactly its
   whole operation, and any other call is somewhere in the middle of it.
   */
  lemma EveryReturnIsClean(calls: map<nat, Call>, steps: seq<Step>, id: nat)
    requires WellFormed(calls) && RunSteps(calls, Init(calls), steps).Some? && id in calls
    ensures var s := RunSteps(calls, Init(calls), steps).value;
      && id in s.phases
      && (s.phases[id].Refused? ==> OfCall(s.trace, id) == [])
      && (s.phases[id].Finished? ==> OfCall(s.trace, id) == calls[id].word)
      && (s.phases[id].Inside? ==> OfCall(s.trace, id) < calls[id].word)
  {
    EveryRunIsOk(calls, steps);
    assert PhaseOk(calls[id], RunSteps(calls, Init(calls), steps).value, id);
  }

  /** A call is refused exactly when another one is inside the same stack at that moment. */
  lemma RefusedExactlyWhenBusy(calls: map<nat, Call>, steps: seq<Step>, id: nat)
    requires WellFormed(calls) && RunSteps(calls, Init(calls), steps).Some?
    requires Enabled(calls, RunSteps(calls, Init(calls), steps).value, TestAndSet(id))
    ensures var s := RunSteps(calls, Init(calls), steps).value;
      Apply(calls, s, TestAndSet(id)).phases[id].Refused? <==>
      exists other :: other != id && InsideStack(calls, s, other, calls[id].stack)
  {
    AtMostOneInside(calls, steps, calls[id].stack);
  }
}

/** Bringing a stack up for a deploy session: another client of the stack's lock. */
module StackDeploy {
  import opened Common
  import StackLock
  import StackStore
  import DeploySession

  /** Unicode white space. */
  predicate IsSpace(c: char) {
    || c in " \t\n\r\U{000B}\U{000C}\U{0085}\U{00A0}\U{1680}\U{2028}\U{2029}\U{202F}\U{205F}\U{3000}"
    || '\U{2000}' <= c <= '\U{200A}'
  }

  /** The code points that Unicode calls white space. */
  lemma SpacesExactly(c: char)
    ensures IsSpace(c) <==> c as int in {
      0x9, 0xA, 0xB, 0xC, 0xD, 0x20, 0x85, 0xA0, 0x1680, 0x2000, 0x2001, 0x2002, 0x2003, 0x2004, 0x2005, 0x2006,
      0x2007, 0x2008, 0x2009, 0x200A, 0x2028, 0x2029, 0x202F, 0x205F, 0x3000}
  {
  }

  predicate IsBlank(line: string) {
    forall i :: 0 <= i < |line| ==> IsSpace(line[i])
  }

  function Progress(message: string, status: string): DeploySession.Action {
    DeploySession.Action.Emit(DeploySession.Event("up", message, status))
  }

  /** One event per output line that is not blank. */
  function LineEvents(lines: seq<string>): seq<DeploySession.Action> {
    if lines == [] then []
    else
      var last := lines[|lines| - 1];
      LineEvents(lines[..|lines| - 1]) +
      if IsBlank(last) then [] else [DeploySession.Action.Emit(DeploySession.Event("compose", last, "running"))]
  }

  /** Lines are told one after the other; a line becomes one event unless there is only white space in it. */
  lemma {:induction false} LineEventsExactly(a: seq<string>, b: seq<string>, line: string)
    ensures LineEvents(a + b) == LineEvents(a) + LineEvents(b)
    ensures LineEvents([line]) ==
      if forall i :: 0 <= i < |line| ==> IsSpace(line[i]) then []
      else [DeploySession.Action.Emit(DeploySession.Event("compose", line, "running"))]
    decreases |b|
  {
    assert [line][..0] == [];
    if b == [] {
      assert a + b == a;
    } else {
      assert (a + b)[..|a + b| - 1] == a + b[..|b| - 1];
      LineEventsExactly(a, b[..|b| - 1], line);
    }
  }

  /** What a stack deployment that got the lock reports. */
  function UpEvents(lines: seq<string>, ok: bool): seq<DeploySession.Action> {
    [Progress("docker compose up -d --remove-orphans", "running")] + LineEvents(lines)
    + [if ok then Progress("Stack is up", "done") else Progress("failed", "error")]
  }

  /** Passes on every output line that is not blank. */
  method StreamLines(session: DeploySession.Session, lines: seq<string>)
    modifies session
    ensures session.script == old(session.script) + LineEvents(lines)
    ensures DeploySession.Closes(session.script) == DeploySession.Closes(old(session.script))
  {
    for i := 0 to |lines|
      invariant session.script == old(session.script) + LineEvents(lines[..i])
      invariant DeploySession.Closes(session.script) == DeploySession.Closes(old(session.script))
    {
      assert lines[..i + 1][..i] == lines[..i];
      if !IsBlank(lines[i]) {
        session.Emit("compose", lines[i], "running");
      }
    }
    assert lines[..|lines|] == lines;
  }

  /** The part under the lock; `lines` is the output of the command. */
  method UpWithEvents(host: StackLock.Host, session: DeploySession.Session, lines: seq<string>) returns (ok: bool)
    modifies host`log, host`running, session
    ensures host.log == old(host.log) + StackLock.Command(StackLock.UP, ok)
    ensures session.script == old(session.script) + UpEvents(lines, ok)
    ensures DeploySession.Closes(session.script) == DeploySession.Closes(old(session.script))
  {
    hide LineEvents, DeploySession.Closes, DeploySession.Errors;
    session.Emit("up", "docker compose up -d --remove-orphans", "running");
    ok := host.RunCommand(StackLock.UP);
    StreamLines(session, lines);
    if ok {
      session.Emit("up", "Stack is up", "done");
    } else {
      session.Emit("up", "failed", "error");
    }
  }

  /** Keeps the lock discipline of every other operation, and never closes the session. */
  method StackUpStreamed(host: StackLock.Host, session: DeploySession.Session, stack: string, lines: seq<string>)
    returns (r: StackLock.Reply)
    modifies host`locks, host`log, host`running, session
    ensures host.Obeys(StackLock.Run(StackLock.UP), stack, old(host.locks), old(host.log), r)
    ensures session.script ==
      if r.Invalid? || r.Busy? then old(session.script) else old(session.script) + UpEvents(lines, r.Completed?)
    ensures r.Completed? || r.Failed? ==>
      && session.script[|old(session.script)|] ==
           DeploySession.Action.Emit(DeploySession.Event("up", "docker compose up -d --remove-orphans", "running"))
      && session.script[|session.script| - 1].Emit?
      && session.script[|session.script| - 1].event.step == "up"
      && session.script[|session.script| - 1].event.status == if r.Completed? then "done" else "error"
    ensures DeploySession.Closes(session.script) == DeploySession.Closes(old(session.script))
  {
    hide StackStore.StackDir;
    if StackStore.StackDir(host.basePath, stack).Failure? {
      return StackLock.Invalid;
    }
    var acquired := host.TryLock(stack);
    if !acquired {
      return StackLock.Busy;
    }
    var ok := UpWithEvents(host, session, lines);
    host.Unlock(stack);
    StackLock.WholeSuffix(StackLock.Run(StackLock.UP), old(host.log), StackLock.Command(StackLock.UP, ok), ok);
    return if ok then StackLock.Completed else StackLock.Failed;
  }

  lemma {:induction false} NoClosesMeansNoClose(script: seq<DeploySession.Action>)
    requires DeploySession.Closes(script) == 0
    ensures DeploySession.CloseDone !in script
  {
    if script != [] {
      NoClosesMeansNoClose(script[..|script| - 1]);
    }
  }

  /** Since Done stays open, the reader of a stack deployment never leaves through the drain. */
  lemma StackDeploymentsAreNeverDrained(script: seq<DeploySession.Action>, steps: seq<DeploySession.Step>)
    requires DeploySession.Closes(script) == 0
    requires DeploySession.Run(DeploySession.Init(script), steps).Some?
    ensures !DeploySession.Run(DeploySession.Init(script), steps).value.phase.LeftAfterDrain?
  {
    NoClosesMeansNoClose(script);
    DeploySession.UnclosedSessionNeverDrains(script, steps);
  }
}

/**
 The edge reader of a deploy session, interleaved with the producer one channel operation at a time: a
 select on Events, Done and the context, and after Done a range over Events.
 */
module EdgeDeploy {
  import opened Common
  import opened EdgeFrames
  import DeploySession
  import StackDeploy

  datatype Phase = Selecting | Ranging | Returned

  datatype State = State(
    pending: seq<DeploySession.Action>,  // what the producer will still do
    buffer: seq<DeploySession.Event>,
    done: bool,
    closed: bool,                        // Events is closed
    cancelled: bool,                     // the context is done
    phase: Phase,
    chunk: nat,
    taken: seq<DeploySession.Event>,     // received, oldest first; chunk number k carries taken[k]
    frames: seq<Frame>,                  // handed over so far
    seen: seq<Observation>,              // what the select loop met, oldest first
    drained: nat                         // events that the range took
  )

  datatype Step = Produce | Cancel | TakeEvent | SeeClosed | SeeDone | SeeContext

  /** The handler has sent its plain reply, and starts to stream. */
  function Init(script: seq<DeploySession.Action>): State {
    State(script, [], false, false, false, Selecting, 0, [], [Reply(200)], [], 0)
  }

  /** The range looks at Events only. */
  predicate Enabled(s: State, step: Step) {
    match step
    case Produce => s.pending != []
    case Cancel => !s.cancelled
    case TakeEvent => s.phase != Returned && s.buffer != []
    case SeeClosed => s.phase != Returned && s.buffer == [] && s.closed
    case SeeDone => s.phase == Selecting && s.done
    case SeeContext => s.phase == Selecting && s.cancelled
  }

  /** The select loop notes what it meets. */
  function Noted(s: State, observation: Observation): seq<Observation> {
    if s.phase == Selecting then s.seen + [observation] else s.seen
  }

  function Apply(s: State, step: Step): State
    requires Enabled(s, step)
  {
    match step
    case Produce =>
      var rest := s.(pending := s.pending[1..]);
      (match s.pending[0]
       case Emit(event) => rest.(buffer := DeploySession.Offer(s.buffer, event))
       case CloseDone => rest.(done := true))
    case Cancel => s.(cancelled := true)
    case TakeEvent =>
      s.(buffer := s.buffer[1..], frames := s.frames + [Chunk(s.chunk)], chunk := s.chunk + 1,
         taken := s.taken + [s.buffer[0]],
         seen := Noted(s, TookEvent), drained := if s.phase == Ranging then s.drained + 1 else s.drained)
    case SeeClosed =>
      s.(frames := s.frames + [End(200)], phase := Returned, seen := Noted(s, EventsClosed))
    case SeeDone => s.(phase := Ranging, seen := Noted(s, DoneClosed))
    case SeeContext =>
      s.(frames := s.frames + [End(200)], phase := Returned, seen := Noted(s, ContextDone))
  }

  function Run(s: State, steps: seq<Step>): Option<State>
    decreases |steps|
  {
    if steps == [] then Some(s)
    else if Enabled(s, steps[0]) then Run(Apply(s, steps[0]), steps[1..])
    else None
  }

  // ----- The invariant of every interleaving -----

  /** The phase is what the last observation made it. */
  ghost predicate InPhase(s: State) {
    match s.phase
    case Selecting => s.drained == 0 && !Stopped(s.seen, |s.seen|, StopsEvents)
    case Ranging => Stopped(s.seen, |s.seen|, StopsEvents) && s.seen[|s.seen| - 1] == DoneClosed
    case Returned => s.drained == 0 && Stopped(s.seen, |s.seen|, StopsEvents) && s.seen[|s.seen| - 1] == ContextDone
  }

  ghost predicate Inv(s: State) {
    && !s.closed
    && UsedUpTo(s.seen, |s.seen|, StopsEvents) && InPhase(s)
    && s.chunk == EventChunks(s.seen, |s.seen|, s.drained)
    && s.frames == DeployFrames(s.seen, |s.seen|, s.drained, s.phase == Returned)
  }

  /** One more observation, or in the range one more event. */
  lemma ChunksStep(s: State, step: Step)
    requires Inv(s) && Enabled(s, step)
    ensures var next := Apply(s, step);
      next.chunk == EventChunks(next.seen, |next.seen|, next.drained) && !next.closed
  {
    hide Chunks, DeployFrames;
  }

  lemma PhaseStep(s: State, step: Step)
    requires Inv(s) && Enabled(s, step)
    ensures var next := Apply(s, step); UsedUpTo(next.seen, |next.seen|, StopsEvents) && InPhase(next)
  {
    hide Chunks, DeployFrames, EventChunks;
  }

  lemma InvStep(s: State, step: Step)
    requires Inv(s) && Enabled(s, step)
    ensures Inv(Apply(s, step))
  {
    hide EventChunks, InPhase, UsedUpTo;
    ChunksStep(s, step);
    PhaseStep(s, step);
    ChunksGrow(s.chunk);
    assert Stream(s.chunk, 200) == Chunks(s.chunk) + [End(200)];
  }

  lemma {:induction false} InvRun(s: State, steps: seq<Step>)
    requires Inv(s) && Run(s, steps).Some?
    ensures Inv(Run(s, steps).value)
    ensures Run(s, steps).value.phase == Returned <==> s.phase == Returned || SeeContext in steps
    ensures Run(s, steps).value.phase == Ranging <==> s.phase == Ranging || SeeDone in steps
    decreases |steps|
  {
    if steps != [] {
      InvStep(s, steps[0]);
      InvRun(Apply(s, steps[0]), steps[1..]);
      assert forall step :: step in steps <==> step == steps[0] || step in steps[1..];
    }
  }

  lemma InvInit(script: seq<DeploySession.Action>)
    ensures Inv(Init(script))
  {
    assert [Reply(200)] + Chunks(0) == [Reply(200)];
  }

  // ----- Main results -----

  /**
   In every interleaving the handler has returned if and only if it noticed the context while it was still
   selecting; its frames are then a whole answer.
   */
  lemma ReturnsExactlyOnContext(script: seq<DeploySession.Action>, steps: seq<Step>)
    requires Run(Init(script), steps).Some?
    ensures var s := Run(Init(script), steps).value;
      && (s.phase == Returned <==> SeeContext in steps)
      && (s.phase == Returned ==> IsAnswer(s.frames))
      && IsPartOfAnswer(s.frames)
  {
    InvInit(script);
    InvRun(Init(script), steps);
    var s := Run(Init(script), steps).value;
    PartOfRepliedStream(200, s.chunk, 200);
  }

  /** Once it has noticed Done it never returns, and sends chunks and nothing else. */
  lemma AfterDoneOnlyChunks(script: seq<DeploySession.Action>, steps: seq<Step>)
    requires Run(Init(script), steps).Some? && SeeDone in steps
    ensures var s := Run(Init(script), steps).value;
      s.phase == Ranging && s.frames == [Reply(200)] + Chunks(s.chunk)
  {
    InvInit(script);
    InvRun(Init(script), steps);
  }

  /** There it waits for ever: with nothing buffered and the producer through, the reader has no step left. */
  lemma TheRangeBlocks(script: seq<DeploySession.Action>, steps: seq<Step>, step: Step)
    requires Run(Init(script), steps).Some? && SeeDone in steps
    requires var s := Run(Init(script), steps).value; s.buffer == [] && s.pending == []
    ensures Enabled(Run(Init(script), steps).value, step) ==> step == Cancel
  {
    InvInit(script);
    InvRun(Init(script), steps);
  }

  /** Every interleaving is a run of the handler's loop in which Events is never closed. */
  lemma RunsAreStreams(script: seq<DeploySession.Action>, steps: seq<Step>)
    requires Run(Init(script), steps).Some?
    ensures var s := Run(Init(script), steps).value;
      && UsedUpTo(s.seen, |s.seen|, StopsEvents) && EventsClosed !in s.seen && !s.closed
      && s.frames == DeployFrames(s.seen, |s.seen|, s.drained, s.phase == Returned)
      && (s.phase == Returned <==> Stopped(s.seen, |s.seen|, StopsEvents) && !s.seen[|s.seen| - 1].DoneClosed?)
  {
    InvInit(script);
    InvRun(Init(script), steps);
    var s := Run(Init(script), steps).value;
    forall i | 0 <= i < |s.seen| ensures s.seen[i] != EventsClosed {
      if i < |s.seen| - 1 {
        assert !StopsEvents(s.seen[i]);
      }
    }
  }

  lemma {:induction false} OpenStaysOpen(s: State, steps: seq<Step>)
    requires !s.done && DeploySession.CloseDone !in s.pending && Run(s, steps).Some?
    ensures SeeDone !in steps
    decreases |steps|
  {
    if steps != [] {
      assert steps[0].Produce? ==> s.pending[0] in s.pending;
      OpenStaysOpen(Apply(s, steps[0]), steps[1..]);
      assert forall step :: step in steps <==> step == steps[0] || step in steps[1..];
    }
  }

  /** A stack deployment never closes Done, so its reader selects until it notices the context. */
  lemma StackReadersNeverRange(script: seq<DeploySession.Action>, steps: seq<Step>)
    requires DeploySession.Closes(script) == 0 && Run(Init(script), steps).Some?
    ensures Run(Init(script), steps).value.phase == if SeeContext in steps then Returned else Selecting
  {
    StackDeploy.NoClosesMeansNoClose(script);
    OpenStaysOpen(Init(script), steps);
    InvInit(script);
    InvRun(Init(script), steps);
  }

  // ----- The same producer and channel as with the direct reader -----

  /** The direct reader that takes what this one takes, and never notices Done. */
  function Mirrored(step: Step): seq<DeploySession.Step> {
    match step
    case Produce => [DeploySession.Produce]
    case TakeEvent => [DeploySession.Take(true)]
    case _ => []
  }

  predicate Mirrors(s: State, d: DeploySession.State) {
    && d.pending == s.pending && d.buffer == s.buffer && d.done == s.done && d.taken == s.taken
    && d.phase == DeploySession.Selecting && s.chunk == |s.taken|
  }

  lemma {:induction false} MirrorRun(s: State, d: DeploySession.State, steps: seq<Step>)
    returns (mirrored: seq<DeploySession.Step>)
    requires Mirrors(s, d) && Run(s, steps).Some?
    ensures DeploySession.Run(d, mirrored).Some?
    ensures Mirrors(Run(s, steps).value, DeploySession.Run(d, mirrored).value)
    decreases |steps|
  {
    if steps == [] {
      mirrored := [];
    } else {
      var first := Mirrored(steps[0]);
      var next := if first == [] then d else DeploySession.Apply(d, first[0]);
      var rest := MirrorRun(Apply(s, steps[0]), next, steps[1..]);
      mirrored := first + rest;
      assert first != [] ==> mirrored[0] == first[0] && mirrored[1..] == rest;
      assert first == [] ==> mirrored == rest;
    }
  }

  /**
   In every interleaving the chunks carry emissions, in order.  With no more emissions than the channel
   holds none is lost: those that were taken and those that wait are the first ones, and all once the
   producer is through.
   */
  lemma ChunksCarryTheEmissions(script: seq<DeploySession.Action>, steps: seq<Step>)
    requires Run(Init(script), steps).Some?
    ensures var s := Run(Init(script), steps).value;
      && s.chunk == |s.taken| && Subsequence(s.taken, DeploySession.Emissions(script))
      && (|DeploySession.Emissions(script)| <= DeploySession.CAPACITY ==>
            && s.taken + s.buffer <= DeploySession.Emissions(script)
            && (s.pending == [] ==> s.taken + s.buffer == DeploySession.Emissions(script)))
  {
    var mirrored := MirrorRun(Init(script), DeploySession.Init(script), steps);
    DeploySession.EveryRunConserves(script, mirrored);
    var d := DeploySession.Run(DeploySession.Init(script), mirrored).value;
    SubsequenceExtend(d.taken, DeploySession.Emitted(d.fates), DeploySession.Emissions(script));
    if |DeploySession.Emissions(script)| <= DeploySession.CAPACITY {
      DeploySession.SmallRunsKeepAll(script, mirrored);
    }
  }

  // ----- The handler, run on an interleaving -----

  /** One way in which the producer's actions and the reader's steps can alternate. */
  datatype Interleaving = Interleaving(script: seq<DeploySession.Action>, steps: seq<Step>)

  predicate IsPossible(i: Interleaving) {
    Run(Init(i.script), i.steps).Some?
  }

  function StateAfter(i: Interleaving): State
    requires IsPossible(i)
  {
    Run(Init(i.script), i.steps).value
  }

  /** The loop hands over what the machine does, and returns exactly when it noticed the context. */
  method StreamSession(out: Outbox, i: Interleaving) returns (returned: bool)
    requires out.frames == [Reply(200)] && IsPossible(i)
    modifies out
    ensures out.frames == StateAfter(i).frames && (returned <==> SeeContext in i.steps)
    ensures out.frames != [] && out.frames[0] == Reply(200)
    ensures IsPartOfAnswer(out.frames) && (returned ==> IsAnswer(out.frames))
  {
    hide IsAnswer, IsPartOfAnswer, Run, Init;
    RunsAreStreams(i.script, i.steps);
    ReturnsExactlyOnContext(i.script, i.steps);
    var s := StateAfter(i);
    var used;
    returned, used := StreamEvents(out, s.seen, s.drained, false);
    assert used == |s.seen|;
  }

  /** A compose deployment: a bad body gets a plain reply, anything else the stream. */
  method HandleDeployStream(out: Outbox, bodyOk: bool, i: Interleaving) returns (returned: bool)
    requires out.frames == [] && IsPossible(i)
    modifies out
    ensures !bodyOk ==> returned && out.frames == [Reply(400)]
    ensures bodyOk ==> out.frames == StateAfter(i).frames && (returned <==> SeeContext in i.steps)
    ensures IsPartOfAnswer(out.frames) && (returned ==> IsAnswer(out.frames))
  {
    hide IsAnswer, IsPartOfAnswer;
    if !bodyOk {
      out.SendResponse(Reply(400));
      OneReply(400);
      return true;
    }
    out.SendResponse(Reply(200));
    returned := StreamSession(out, i);
  }
}

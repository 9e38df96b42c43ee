/**
 Deploy sessions: a bounded event queue with a producer that never blocks, and the direct-mode
 reader that drains it.

 The producer is a script of actions, because the deploy code decides on its own what it emits; the
 reader and the producer then run interleaved, one channel operation at a time.
 */
module DeploySession {
  import opened Common

  const CAPACITY := 50

  /** One progress event; the wall-clock stamp is not modelled. */
  datatype Event = Event(step: string, message: string, status: string)

  datatype Action = Emit(event: Event) | CloseDone

  /** A non-blocking send: the event is lost when the channel is full. */
  function Offer(buffer: seq<Event>, event: Event): seq<Event> {
    if |buffer| < CAPACITY then buffer + [event] else buffer
  }

  function Closes(script: seq<Action>): nat {
    if script == [] then 0
    else Closes(script[..|script| - 1]) + if script[|script| - 1].CloseDone? then 1 else 0
  }

  lemma ClosesAppend(script: seq<Action>, action: Action)
    ensures Closes(script + [action]) == Closes(script) + if action.CloseDone? then 1 else 0
  {
    assert (script + [action])[..|script|] == script;
  }

  /** How many of the emitted events report an error. */
  function Errors(script: seq<Action>): nat {
    if script == [] then 0
    else Errors(script[..|script| - 1]) + if IsError(script[|script| - 1]) then 1 else 0
  }

  predicate IsError(action: Action) {
    action.Emit? && action.event.status == "error"
  }

  lemma ErrorsAppend(script: seq<Action>, action: Action)
    ensures Errors(script + [action]) == Errors(script) + if IsError(action) then 1 else 0
  {
    assert (script + [action])[..|script|] == script;
  }

  /** The step and the status of every emitted event, in order. */
  function Marks(script: seq<Action>): seq<(string, string)> {
    if script == [] then []
    else
      var last := script[|script| - 1];
      Marks(script[..|script| - 1]) + if last.Emit? then [(last.event.step, last.event.status)] else []
  }

  lemma MarksAppend(script: seq<Action>, action: Action)
    ensures Marks(script + [action]) ==
      Marks(script) + if action.Emit? then [(action.event.step, action.event.status)] else []
  {
    assert (script + [action])[..|script|] == script;
  }

  /** The session as its producer sees it; `script` records what the producer did. */
  class Session {
    var events: seq<Event>
    var done: bool
    ghost var script: seq<Action>

    constructor ()
      ensures events == [] && !done && script == []
    {
      events, done, script := [], false, [];
    }

    method Emit(step: string, message: string, status: string)
      modifies this
      ensures events == Offer(old(events), Event(step, message, status)) && done == old(done)
      ensures script == old(script) + [Action.Emit(Event(step, message, status))]
      ensures Closes(script) == Closes(old(script))
      ensures Errors(script) == Errors(old(script)) + if status == "error" then 1 else 0
      ensures Marks(script) == Marks(old(script)) + [(step, status)]
    {
      hide Closes, Errors, Marks;
      MarksAppend(script, Action.Emit(Event(step, message, status)));
      ClosesAppend(script, Action.Emit(Event(step, message, status)));
      ErrorsAppend(script, Action.Emit(Event(step, message, status)));
      var event := Event(step, message, status);
      if |events| < CAPACITY {
        events := events + [event];
      }
      script := script + [Action.Emit(event)];
    }

    method Close()
      modifies this
      ensures done && events == old(events) && script == old(script) + [CloseDone]
    {
      done := true;
      script := script + [CloseDone];
    }
  }

  // ----- Producer and reader, interleaved -----

  /** Where the reader is: in its select loop, in the drain after Done, or gone. */
  datatype Phase = Selecting | Draining | LeftOnWriteError | LeftAfterDrain

  /** What happened to an emitted event when it was offered to the channel. */
  datatype Fate = Fate(event: Event, kept: bool)

  datatype State = State(
    pending: seq<Action>,  // what the producer will still do
    buffer: seq<Event>,
    done: bool,
    phase: Phase,
    taken: seq<Event>,     // received by the reader, oldest first
    fates: seq<Fate>       // one per emission so far
  )

  datatype Step =
    | Produce
    | Take(writeOk: bool)
    | NoticeDone
    | FindEmpty

  function Init(script: seq<Action>): State {
    State(script, [], false, Selecting, [], [])
  }

  /** The select may take an event even after Done is closed, and may notice Done while events wait. */
  predicate Enabled(s: State, step: Step) {
    match step
    case Produce => s.pending != []
    case Take(_) => s.phase in {Selecting, Draining} && s.buffer != []
    case NoticeDone => s.phase == Selecting && s.done
    case FindEmpty => s.phase == Draining && s.buffer == []
  }

  function Apply(s: State, step: Step): State
    requires Enabled(s, step)
  {
    match step
    case Produce =>
      var rest := s.(pending := s.pending[1..]);
      (match s.pending[0]
       case Emit(event) =>
         rest.(buffer := Offer(s.buffer, event), fates := s.fates + [Fate(event, |s.buffer| < CAPACITY)])
       case CloseDone =>
         rest.(done := true))
    case Take(writeOk) =>
      var next := s.(buffer := s.buffer[1..], taken := s.taken + [s.buffer[0]]);
      // A failed write ends the select loop; the drain loop ignores write errors.
      if s.phase == Selecting && !writeOk then next.(phase := LeftOnWriteError) else next
    case NoticeDone => s.(phase := Draining)
    case FindEmpty => s.(phase := LeftAfterDrain)
  }

  /** The state after `steps`, or None when some step is not possible where it stands. */
  function Run(s: State, steps: seq<Step>): Option<State>
    decreases |steps|
  {
    if steps == [] then Some(s)
    else if Enabled(s, steps[0]) then Run(Apply(s, steps[0]), steps[1..])
    else None
  }

  // ----- Reading a history -----

  function Emissions(script: seq<Action>): seq<Event> {
    if script == [] then []
    else (match script[0] case Emit(event) => [event] case CloseDone => []) + Emissions(script[1..])
  }

  function Emitted(fates: seq<Fate>): seq<Event> {
    seq(|fates|, i requires 0 <= i < |fates| => fates[i].event)
  }

  function Kept(fates: seq<Fate>): seq<Event> {
    if fates == [] then []
    else
      var last := fates[|fates| - 1];
      Kept(fates[..|fates| - 1]) + if last.kept then [last.event] else []
  }

  function Dropped(fates: seq<Fate>): seq<Event> {
    if fates == [] then []
    else
      var last := fates[|fates| - 1];
      Dropped(fates[..|fates| - 1]) + if last.kept then [] else [last.event]
  }

  /** `Done` is closed exactly once, and nothing is done after that. */
  ghost predicate ClosesLast(script: seq<Action>) {
    script != [] && forall i :: 0 <= i < |script| ==> (script[i].CloseDone? <==> i == |script| - 1)
  }

  // ----- The invariant of every interleaving -----

  /** Nothing is lost silently and nothing is reordered. */
  ghost predicate Conserved(script: seq<Action>, s: State) {
    && |s.buffer| <= CAPACITY
    && Kept(s.fates) == s.taken + s.buffer
    && Emissions(script) == Emitted(s.fates) + Emissions(s.pending)
  }

  function Executed(script: seq<Action>, s: State): seq<Action> {
    if |s.pending| <= |script| then script[..|script| - |s.pending|] else []
  }

  ghost predicate InPhase(script: seq<Action>, s: State) {
    && script == Executed(script, s) + s.pending
    && (s.done <==> exists i :: 0 <= i < |Executed(script, s)| && Executed(script, s)[i].CloseDone?)
    && (s.phase == Draining || s.phase == LeftAfterDrain ==> s.done)
    && (ClosesLast(script) && s.phase == LeftAfterDrain ==> s.buffer == [])
  }

  lemma FateAppend(fates: seq<Fate>, fate: Fate)
    ensures Kept(fates + [fate]) == Kept(fates) + if fate.kept then [fate.event] else []
    ensures Dropped(fates + [fate]) == Dropped(fates) + if fate.kept then [] else [fate.event]
    ensures Emitted(fates + [fate]) == Emitted(fates) + [fate.event]
  {
    assert (fates + [fate])[..|fates|] == fates;
  }

  lemma ConservedEmission(script: seq<Action>, s: State)
    requires Conserved(script, s) && s.pending != [] && s.pending[0].Emit?
    ensures Conserved(script, Apply(s, Produce))
  {
    FateAppend(s.fates, Fate(s.pending[0].event, |s.buffer| < CAPACITY));
  }

  lemma ConservedStep(script: seq<Action>, s: State, step: Step)
    requires Conserved(script, s) && Enabled(s, step)
    ensures Conserved(script, Apply(s, step))
  {
    if step.Take? {
      assert s.taken + s.buffer == Apply(s, step).taken + Apply(s, step).buffer;
    } else if step.Produce? {
      if s.pending[0].Emit? {
        ConservedEmission(script, s);
      }
    }
  }

  /** Once a script that closes last has closed, it is over. */
  lemma ClosedMeansFinished(script: seq<Action>, s: State)
    requires ClosesLast(script) && InPhase(script, s) && s.done
    ensures s.pending == []
  {
    var i :| 0 <= i < |Executed(script, s)| && Executed(script, s)[i].CloseDone?;
    assert script[i].CloseDone?;
  }

  lemma InPhaseStep(script: seq<Action>, s: State, step: Step)
    requires InPhase(script, s) && Enabled(s, step)
    ensures InPhase(script, Apply(s, step))
  {
    var next := Apply(s, step);
    if step.Produce? {
      var ran := Executed(script, s);
      assert script == (ran + [s.pending[0]]) + next.pending;
      assert Executed(script, next) == ran + [s.pending[0]];
      assert (ran + [s.pending[0]])[|ran|] == s.pending[0];
      assert forall i :: 0 <= i < |ran| ==> (ran + [s.pending[0]])[i] == ran[i];
      if ClosesLast(script) && s.done {
        ClosedMeansFinished(script, s);
      }
    }
  }

  lemma {:induction false} RunPreserves(script: seq<Action>, s: State, steps: seq<Step>)
    requires Conserved(script, s) && InPhase(script, s) && Run(s, steps).Some?
    ensures Conserved(script, Run(s, steps).value) && InPhase(script, Run(s, steps).value)
    decreases |steps|
  {
    if steps != [] {
      ConservedStep(script, s, steps[0]);
      InPhaseStep(script, s, steps[0]);
      RunPreserves(script, Apply(s, steps[0]), steps[1..]);
    }
  }

  lemma FateSplit(fates: seq<Fate>) returns (before: seq<Fate>, last: Fate)
    requires fates != []
    ensures fates == before + [last] && |before| == |fates| - 1
    ensures Kept(fates) == Kept(before) + if last.kept then [last.event] else []
    ensures Dropped(fates) == Dropped(before) + if last.kept then [] else [last.event]
    ensures Emitted(fates) == Emitted(before) + [last.event]
  {
    before, last := fates[..|fates| - 1], fates[|fates| - 1];
    FateAppend(before, last);
    assert fates == before + [last];
  }

  lemma {:induction false} KeptIsSubsequence(fates: seq<Fate>)
    ensures Subsequence(Kept(fates), Emitted(fates))
    decreases |fates|
  {
    if fates != [] {
      var before, last := FateSplit(fates);
      KeptIsSubsequence(before);
      assert Emitted(fates)[..|fates| - 1] == Emitted(before);
      if last.kept {
        assert Kept(fates)[..|Kept(fates)| - 1] == Kept(before);
      } else {
        assert Kept(fates) == Kept(before);
      }
    }
  }

  lemma {:induction false} KeptAndDropped(fates: seq<Fate>)
    ensures |Kept(fates)| + |Dropped(fates)| == |fates|
    ensures multiset(Kept(fates)) + multiset(Dropped(fates)) == multiset(Emitted(fates))
    decreases |fates|
  {
    if fates != [] {
      var before, last := FateSplit(fates);
      KeptAndDropped(before);
    }
  }

  // ----- Main results -----

  /**
   In every interleaving, the reader sees an in-order subsequence of what was emitted, the channel
   never holds more than its capacity, and every emission is taken, waiting, or dropped.
   */
  lemma EveryRunConserves(script: seq<Action>, steps: seq<Step>)
    requires Run(Init(script), steps).Some?
    ensures var s := Run(Init(script), steps).value;
      && |s.buffer| <= 50
      && Subsequence(s.taken, Emitted(s.fates))
      && Emitted(s.fates) <= Emissions(script)
      && |s.fates| == |s.taken| + |s.buffer| + |Dropped(s.fates)|
      && multiset(Emitted(s.fates)) == multiset(s.taken) + multiset(s.buffer) + multiset(Dropped(s.fates))
  {
    var s := Run(Init(script), steps).value;
    assert Emitted([]) == [];
    RunPreserves(script, Init(script), steps);
    KeptAndDropped(s.fates);
    KeptIsSubsequence(s.fates);
    SubsequencePrefix(s.taken, s.buffer, Emitted(s.fates));
  }

  lemma DropOfOneStep(s: State, step: Step)
    requires Enabled(s, step)
    ensures (Dropped(Apply(s, step).fates) != Dropped(s.fates)) <==>
            (step.Produce? && s.pending[0].Emit? && |s.buffer| >= CAPACITY)
  {
    if step.Produce? && s.pending[0].Emit? {
      FateAppend(s.fates, Fate(s.pending[0].event, |s.buffer| < CAPACITY));
    }
  }

  /** An event is dropped only by an emission that finds the channel full. */
  lemma DropsOnlyWhenFull(script: seq<Action>, steps: seq<Step>, step: Step)
    requires Run(Init(script), steps).Some? && Enabled(Run(Init(script), steps).value, step)
    ensures var s := Run(Init(script), steps).value;
      (Dropped(Apply(s, step).fates) != Dropped(s.fates)) <==>
      (step.Produce? && s.pending[0].Emit? && |s.buffer| == 50)
  {
    hide Run, Dropped, Emitted, Emissions, Apply;
    EveryRunConserves(script, steps);
    DropOfOneStep(Run(Init(script), steps).value, step);
  }

  /**
   When the producer closes Done after its last emission and the reader leaves through the drain,
   the channel is empty and every emission was taken or dropped.
   */
  lemma DrainIsComplete(script: seq<Action>, steps: seq<Step>)
    requires ClosesLast(script) && Run(Init(script), steps).Some?
    requires Run(Init(script), steps).value.phase == LeftAfterDrain
    ensures var s := Run(Init(script), steps).value;
      && s.pending == [] && s.buffer == []
      && Emitted(s.fates) == Emissions(script)
      && Kept(s.fates) == s.taken
      && |Emissions(script)| == |s.taken| + |Dropped(s.fates)|
  {
    var s := Run(Init(script), steps).value;
    assert Emitted([]) == [];
    RunPreserves(script, Init(script), steps);
    ClosedMeansFinished(script, s);
    KeptAndDropped(s.fates);
  }

  lemma {:induction false} FewEmissionsStep(script: seq<Action>, s: State, steps: seq<Step>)
    requires Conserved(script, s) && Dropped(s.fates) == [] && Run(s, steps).Some?
    requires |Emissions(script)| <= CAPACITY
    ensures Dropped(Run(s, steps).value.fates) == []
    decreases |steps|
  {
    if steps != [] {
      ConservedStep(script, s, steps[0]);
      KeptAndDropped(s.fates);
      if steps[0].Produce? && s.pending[0].Emit? {
        FateAppend(s.fates, Fate(s.pending[0].event, |s.buffer| < CAPACITY));
      }
      FewEmissionsStep(script, Apply(s, steps[0]), steps[1..]);
    }
  }

  /** With no more emissions than the channel holds, what was taken and what waits is what was emitted so far. */
  lemma SmallRunsKeepAll(script: seq<Action>, steps: seq<Step>)
    requires |Emissions(script)| <= CAPACITY && Run(Init(script), steps).Some?
    ensures var s := Run(Init(script), steps).value;
      && s.taken + s.buffer <= Emissions(script)
      && (s.pending == [] ==> s.taken + s.buffer == Emissions(script))
  {
    assert Emitted([]) == [];
    RunPreserves(script, Init(script), steps);
    FewEmissionsStep(script, Init(script), steps);
    NothingDroppedMeansAllKept(Run(Init(script), steps).value.fates);
  }

  /** With no more emissions than the channel holds, the drained reader has seen every one, in order. */
  lemma SmallDeploysLoseNothing(script: seq<Action>, steps: seq<Step>)
    requires ClosesLast(script) && |Emissions(script)| <= CAPACITY
    requires Run(Init(script), steps).Some?
    requires Run(Init(script), steps).value.phase == LeftAfterDrain
    ensures Run(Init(script), steps).value.taken == Emissions(script)
  {
    var s := Run(Init(script), steps).value;
    DrainIsComplete(script, steps);
    assert Emitted([]) == [];
    FewEmissionsStep(script, Init(script), steps);
    NothingDroppedMeansAllKept(s.fates);
  }

  lemma {:induction false} NothingDroppedMeansAllKept(fates: seq<Fate>)
    requires Dropped(fates) == []
    ensures Kept(fates) == Emitted(fates)
    decreases |fates|
  {
    if fates != [] {
      var before, last := FateSplit(fates);
      NothingDroppedMeansAllKept(before);
    }
  }

  /** After Done and the last emission, the drain takes what is buffered, in order, and ends. */
  lemma {:induction false} DrainFinishes(s: State, steps: seq<Step>)
    requires s.phase == Draining && s.pending == []
    requires Run(s, steps).Some?
    ensures |steps| <= |s.buffer| + 1
    ensures |steps| == |s.buffer| + 1 <==> Run(s, steps).value.phase == LeftAfterDrain
    ensures |steps| == |s.buffer| + 1 ==> Run(s, steps).value.taken == s.taken + s.buffer
    decreases |steps|
  {
    if steps != [] {
      if s.buffer == [] {
        assert Apply(s, steps[0]).phase == LeftAfterDrain;
        assert steps[1..] == [];
      } else {
        DrainFinishes(Apply(s, steps[0]), steps[1..]);
        assert s.taken + s.buffer == Apply(s, steps[0]).taken + Apply(s, steps[0]).buffer;
      }
    }
  }

  /** A reader whose producer never closes Done cannot leave through the drain. */
  lemma UnclosedSessionNeverDrains(script: seq<Action>, steps: seq<Step>)
    requires CloseDone !in script && Run(Init(script), steps).Some?
    ensures Run(Init(script), steps).value.phase in {Selecting, LeftOnWriteError}
  {
    assert Emitted([]) == [];
    RunPreserves(script, Init(script), steps);
  }
}

/**
 The one connection of an edge agent, shared by the handlers of all requests and the heartbeat.  A
 frame goes out in four steps: take the mutex, begin the write, finish it, release the mutex.
 */
module EdgeConnection {
  import opened Common
  import opened EdgeFrames
  import EdgeStacks
  import StackLock

  datatype Sender = Handler(id: nat) | Heartbeat

  datatype Message = Response(id: nat, frame: Frame) | Beat

  datatype Mark = Begin(message: Message) | Finish(message: Message)

  datatype Stage = Idle | Holding | Writing | Written

  datatype State = State(
    mutex: bool,
    stages: map<Sender, Stage>,
    handed: map<nat, nat>,     // frames whose write each handler has begun
    wire: seq<Mark>
  )

  datatype Step =
    | Lock(sender: Sender)
    | BeginWrite(sender: Sender)
    | FinishWrite(sender: Sender)
    | Unlock(sender: Sender)

  function StageOf(s: State, sender: Sender): Stage {
    if sender in s.stages then s.stages[sender] else Idle
  }

  /** `scripts` holds the frames that each handler hands over, one after the other. */
  function Init(scripts: map<nat, seq<Frame>>): State {
    State(false, map[], map id | id in scripts :: 0, [])
  }

  /** How many frames a handler has left. */
  function Left(scripts: map<nat, seq<Frame>>, s: State, id: nat): int {
    if id in scripts && id in s.handed then |scripts[id]| - s.handed[id] else 0
  }

  predicate HasBegun(scripts: map<nat, seq<Frame>>, s: State, id: nat) {
    id in scripts && id in s.handed && 0 < s.handed[id] <= |scripts[id]|
  }

  predicate Enabled(scripts: map<nat, seq<Frame>>, s: State, step: Step) {
    var stage := StageOf(s, step.sender);
    match step
    case Lock(sender) => stage == Idle && !s.mutex && (sender.Handler? ==> Left(scripts, s, sender.id) > 0)
    case BeginWrite(sender) => stage == Holding && (sender.Handler? ==> Left(scripts, s, sender.id) > 0)
    case FinishWrite(sender) => stage == Writing && (sender.Handler? ==> HasBegun(scripts, s, sender.id))
    case Unlock(_) => stage == Written
  }

  function Apply(scripts: map<nat, seq<Frame>>, s: State, step: Step): State
    requires Enabled(scripts, s, step)
  {
    match step
    case Lock(sender) => s.(mutex := true, stages := s.stages[sender := Holding])
    case BeginWrite(Heartbeat) =>
      s.(stages := s.stages[Heartbeat := Writing], wire := s.wire + [Begin(Beat)])
    case BeginWrite(Handler(id)) =>
      var at := s.handed[id];
      s.(stages := s.stages[Handler(id) := Writing], handed := s.handed[id := at + 1],
         wire := s.wire + [Begin(Response(id, scripts[id][at]))])
    case FinishWrite(Heartbeat) =>
      s.(stages := s.stages[Heartbeat := Written], wire := s.wire + [Finish(Beat)])
    case FinishWrite(Handler(id)) =>
      s.(stages := s.stages[Handler(id) := Written],
         wire := s.wire + [Finish(Response(id, scripts[id][s.handed[id] - 1]))])
    case Unlock(sender) => s.(mutex := false, stages := s.stages[sender := Idle])
  }

  function Run(scripts: map<nat, seq<Frame>>, s: State, steps: seq<Step>): Option<State>
    decreases |steps|
  {
    if steps == [] then Some(s)
    else if Enabled(scripts, s, steps[0]) then Run(scripts, Apply(scripts, s, steps[0]), steps[1..])
    else None
  }

  // ----- Reading the connection -----

  function FrameIn(mark: Mark, id: nat): seq<Frame> {
    match mark
    case Begin(Response(other, frame)) => if other == id then [frame] else []
    case _ => []
  }

  /** The frames handed over for one request, in order. */
  function Frames(wire: seq<Mark>, id: nat): seq<Frame> {
    if wire == [] then [] else Frames(wire[..|wire| - 1], id) + FrameIn(wire[|wire| - 1], id)
  }

  lemma FramesAppend(wire: seq<Mark>, mark: Mark, id: nat)
    ensures Frames(wire + [mark], id) == Frames(wire, id) + FrameIn(mark, id)
  {
    assert (wire + [mark])[..|wire|] == wire;
  }

  predicate InTurn(wire: seq<Mark>, i: nat)
    requires i < |wire|
  {
    if i % 2 == 0 then wire[i].Begin? else wire[i] == Finish(wire[i - 1].message)
  }

  /** Every write is over before the next one begins; the last may still be going on. */
  ghost predicate WritesFollowOneAnother(wire: seq<Mark>) {
    forall i :: 0 <= i < |wire| ==> InTurn(wire, i)
  }

  // ----- The invariant -----

  /** The message that a sender is writing. */
  ghost predicate IsWriting(scripts: map<nat, seq<Frame>>, s: State, sender: Sender, message: Message) {
    match sender
    case Heartbeat => message == Beat
    case Handler(id) =>
      HasBegun(scripts, s, id) && message == Response(id, scripts[id][s.handed[id] - 1])
  }

  /** A sender past the mutex is alone there, and the wire shows what it is doing. */
  ghost predicate SenderOk(scripts: map<nat, seq<Frame>>, s: State, sender: Sender) {
    match StageOf(s, sender)
    case Idle => true
    case Holding => s.mutex && |s.wire| % 2 == 0 && (sender.Handler? ==> Left(scripts, s, sender.id) > 0)
    case Writing => s.mutex && |s.wire| % 2 == 1 && IsWriting(scripts, s, sender, s.wire[|s.wire| - 1].message)
    case Written => s.mutex && |s.wire| % 2 == 0
  }

  ghost predicate HandlerOk(scripts: map<nat, seq<Frame>>, s: State, id: nat) {
    id in scripts ==>
      id in s.handed && s.handed[id] <= |scripts[id]| && Frames(s.wire, id) == scripts[id][..s.handed[id]]
  }

  ghost predicate Inv(scripts: map<nat, seq<Frame>>, s: State) {
    && WritesFollowOneAnother(s.wire)
    && (!s.mutex ==> |s.wire| % 2 == 0)
    && (forall sender :: SenderOk(scripts, s, sender))
    && (forall a, b :: StageOf(s, a) != Idle && StageOf(s, b) != Idle ==> a == b)
    && (s.mutex ==> exists a :: StageOf(s, a) != Idle)
    && (forall id :: HandlerOk(scripts, s, id))
  }

  /** The sender that moves was the only one past the mutex, or there was none. */
  lemma OnlySender(scripts: map<nat, seq<Frame>>, s: State, step: Step, other: Sender)
    requires Inv(scripts, s) && Enabled(scripts, s, step) && other != step.sender
    ensures StageOf(s, other) == Idle
  {
    assert SenderOk(scripts, s, other);
  }

  lemma NextMark(wire: seq<Mark>, mark: Mark)
    requires WritesFollowOneAnother(wire)
    requires if |wire| % 2 == 0 then mark.Begin? else mark == Finish(wire[|wire| - 1].message)
    ensures WritesFollowOneAnother(wire + [mark])
  {
    var next := wire + [mark];
    forall i | 0 <= i < |next| ensures InTurn(next, i) {
      if i < |wire| {
        assert InTurn(wire, i);
      }
    }
  }

  lemma WireStep(scripts: map<nat, seq<Frame>>, s: State, step: Step)
    requires Inv(scripts, s) && Enabled(scripts, s, step)
    ensures WritesFollowOneAnother(Apply(scripts, s, step).wire)
  {
    assert SenderOk(scripts, s, step.sender);
    if step.BeginWrite? || step.FinishWrite? {
      NextMark(s.wire, Apply(scripts, s, step).wire[|s.wire|]);
    }
  }

  lemma SenderStep(scripts: map<nat, seq<Frame>>, s: State, step: Step, sender: Sender)
    requires Inv(scripts, s) && Enabled(scripts, s, step)
    ensures SenderOk(scripts, Apply(scripts, s, step), sender)
    ensures sender != step.sender ==> StageOf(Apply(scripts, s, step), sender) == Idle
  {
    assert SenderOk(scripts, s, step.sender);
    if sender != step.sender {
      OnlySender(scripts, s, step, sender);
    }
  }

  lemma HandlerStep(scripts: map<nat, seq<Frame>>, s: State, step: Step, id: nat)
    requires HandlerOk(scripts, s, id) && Enabled(scripts, s, step)
    ensures HandlerOk(scripts, Apply(scripts, s, step), id)
  {
    hide Frames;
    if step.BeginWrite? || step.FinishWrite? {
      FramesAppend(s.wire, Apply(scripts, s, step).wire[|s.wire|], id);
    }
  }

  lemma InvStep(scripts: map<nat, seq<Frame>>, s: State, step: Step)
    requires Inv(scripts, s) && Enabled(scripts, s, step)
    ensures Inv(scripts, Apply(scripts, s, step))
  {
    var next := Apply(scripts, s, step);
    assert SenderOk(scripts, s, step.sender);
    WireStep(scripts, s, step);
    forall sender
      ensures SenderOk(scripts, next, sender)
      ensures sender != step.sender ==> StageOf(next, sender) == Idle
    {
      SenderStep(scripts, s, step, sender);
    }
    forall id ensures HandlerOk(scripts, next, id) {
      HandlerStep(scripts, s, step, id);
    }
    assert next.mutex ==> StageOf(next, step.sender) != Idle;
  }

  lemma {:induction false} InvRun(scripts: map<nat, seq<Frame>>, s: State, steps: seq<Step>)
    requires Inv(scripts, s) && Run(scripts, s, steps).Some?
    ensures Inv(scripts, Run(scripts, s, steps).value)
    decreases |steps|
  {
    if steps != [] {
      InvStep(scripts, s, steps[0]);
      InvRun(scripts, Apply(scripts, s, steps[0]), steps[1..]);
    }
  }

  // ----- Main results -----

  /** In every interleaving no write begins before the previous one is over. */
  lemma WritesNeverOverlap(scripts: map<nat, seq<Frame>>, steps: seq<Step>)
    requires Run(scripts, Init(scripts), steps).Some?
    ensures WritesFollowOneAnother(Run(scripts, Init(scripts), steps).value.wire)
  {
    assert Inv(scripts, Init(scripts));
    InvRun(scripts, Init(scripts), steps);
  }

  /**
   In every interleaving the frames of one request keep to the language, whatever the other handlers
   and the heartbeat do, and are a whole answer once a handler that returned has nothing left to hand over.
   */
  lemma EveryRequestIsAnsweredInOrder(scripts: map<nat, seq<Frame>>, steps: seq<Step>, id: nat)
    requires id in scripts && IsPartOfAnswer(scripts[id])
    requires Run(scripts, Init(scripts), steps).Some?
    ensures var s := Run(scripts, Init(scripts), steps).value;
      && Frames(s.wire, id) <= scripts[id]
      && IsPartOfAnswer(Frames(s.wire, id))
      && (Left(scripts, s, id) == 0 ==> Frames(s.wire, id) == scripts[id])
      && (Left(scripts, s, id) == 0 && IsAnswer(scripts[id]) ==> IsAnswer(Frames(s.wire, id)))
  {
    assert Inv(scripts, Init(scripts));
    InvRun(scripts, Init(scripts), steps);
    var s := Run(scripts, Init(scripts), steps).value;
    assert HandlerOk(scripts, s, id);
    PrefixOfPart(scripts[id], Frames(s.wire, id));
  }

  /** What a request's handler hands over reaches the connection so, among whatever else is sent there. */
  ghost predicate ReachesTheWire(id: nat, script: seq<Frame>, returned: bool) {
    forall scripts: map<nat, seq<Frame>>, steps: seq<Step> ::
      id in scripts && scripts[id] == script && Run(scripts, Init(scripts), steps).Some? ==>
      var s := Run(scripts, Init(scripts), steps).value;
      && Frames(s.wire, id) <= script && IsPartOfAnswer(Frames(s.wire, id))
      && (returned && Left(scripts, s, id) == 0 ==> IsAnswer(Frames(s.wire, id)))
  }

  /** One request, from its handler to the connection. */
  method AnswerOnConnection(host: StackLock.Host, world: EdgeStacks.World, request: EdgeStacks.Request, id: nat)
    returns (script: seq<Frame>, returned: bool)
    requires EdgeStacks.IsErrorStatus(world.failure) && EdgeStacks.CanHappen(request)
    modifies host, host.fs
    ensures IsPartOfAnswer(script) && (returned ==> IsAnswer(script))
    ensures ReachesTheWire(id, script, returned)
  {
    hide IsAnswer, IsPartOfAnswer, Run, Init, Frames, Left;
    var out := new Outbox();
    returned := EdgeStacks.HandleRequest(out, host, world, request);
    script := out.frames;
    forall scripts: map<nat, seq<Frame>>, steps: seq<Step>
      | id in scripts && scripts[id] == script && Run(scripts, Init(scripts), steps).Some?
      ensures var s := Run(scripts, Init(scripts), steps).value;
        && Frames(s.wire, id) <= script && IsPartOfAnswer(Frames(s.wire, id))
        && (returned && Left(scripts, s, id) == 0 ==> IsAnswer(Frames(s.wire, id)))
    {
      EveryRequestIsAnsweredInOrder(scripts, steps, id);
    }
  }

  /** The connection never gets stuck while a handler has frames left. */
  lemma SomeoneCanMove(scripts: map<nat, seq<Frame>>, steps: seq<Step>, id: nat)
    requires Run(scripts, Init(scripts), steps).Some?
    requires Left(scripts, Run(scripts, Init(scripts), steps).value, id) > 0
    ensures exists step :: Enabled(scripts, Run(scripts, Init(scripts), steps).value, step)
  {
    assert Inv(scripts, Init(scripts));
    InvRun(scripts, Init(scripts), steps);
    var s := Run(scripts, Init(scripts), steps).value;
    if s.mutex {
      var holder :| StageOf(s, holder) != Idle;
      assert SenderOk(scripts, s, holder);
      match StageOf(s, holder) {
        case Holding => assert Enabled(scripts, s, BeginWrite(holder));
        case Writing => assert Enabled(scripts, s, FinishWrite(holder));
        case Written => assert Enabled(scripts, s, Unlock(holder));
      }
    } else {
      assert SenderOk(scripts, s, Handler(id));
      assert Enabled(scripts, s, Lock(Handler(id)));
    }
  }
}

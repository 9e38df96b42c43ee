/**
 What an edge agent answers to the requests that arrive on its one connection.  Each handler runs on
 what it observes (reads, samples, events) and sends its frames to an outbox; then any number of
 handlers and the heartbeat share the connection.
 */
module EdgeFrames {

  datatype Frame = Reply(status: nat) | Chunk(number: nat) | End(status: nat)

  // ----- The language of one request -----

  function Chunks(n: nat): seq<Frame> {
    seq(n, i requires 0 <= i => Chunk(i))
  }

  function Stream(n: nat, status: nat): seq<Frame> {
    Chunks(n) + [End(status)]
  }

  /** One plain reply, a stream, or a plain reply and then a stream. */
  ghost predicate IsAnswer(word: seq<Frame>) {
    || (|word| == 1 && word[0].Reply?)
    || (exists n, status :: word == Stream(n, status))
    || (exists reply, n, status :: word == [Reply(reply)] + Stream(n, status))
  }

  /** What may have been sent at some moment. */
  ghost predicate IsPartOfAnswer(word: seq<Frame>) {
    exists answer :: IsAnswer(answer) && word <= answer
  }

  lemma ChunksGrow(n: nat)
    ensures Chunks(n + 1) == Chunks(n) + [Chunk(n)]
  {
  }

  lemma OneReply(status: nat)
    ensures IsAnswer([Reply(status)]) && IsPartOfAnswer([Reply(status)])
  {
    assert IsAnswer([Reply(status)]);
  }

  lemma PartOfStream(n: nat, status: nat)
    ensures IsAnswer(Stream(n, status)) && IsPartOfAnswer(Stream(n, status)) && IsPartOfAnswer(Chunks(n))
  {
    assert IsAnswer(Stream(n, status));
    assert Chunks(n) <= Stream(n, status);
  }

  lemma PartOfRepliedStream(reply: nat, n: nat, status: nat)
    ensures IsAnswer([Reply(reply)] + Stream(n, status)) && IsPartOfAnswer([Reply(reply)] + Stream(n, status))
    ensures IsPartOfAnswer([Reply(reply)] + Chunks(n))
  {
    assert IsAnswer([Reply(reply)] + Stream(n, status));
    assert [Reply(reply)] + Chunks(n) <= [Reply(reply)] + Stream(n, status);
  }

  lemma PrefixOfPart(word: seq<Frame>, shorter: seq<Frame>)
    requires IsPartOfAnswer(word) && shorter <= word
    ensures IsPartOfAnswer(shorter)
  {
    var answer :| IsAnswer(answer) && word <= answer;
    assert shorter <= answer;
  }

  // ----- The handlers, one request at a time -----

  /** The frames handed over for one request. */
  class Outbox {
    var frames: seq<Frame>

    constructor ()
      ensures frames == []
    {
      frames := [];
    }

    method SendResponse(frame: Frame)
      modifies this
      ensures frames == old(frames) + [frame]
    {
      frames := frames + [frame];
    }
  }

  /** A look at the context and one read from the log. */
  datatype Read = Read(cancelled: bool, bytes: nat, failed: bool)

  predicate StopsLog(read: Read) {
    read.cancelled || read.failed
  }

  /** Reads that delivered something; after a cancellation nothing is read. */
  function DataReads(seen: seq<Read>): nat {
    if seen == [] then 0
    else
      var last := seen[|seen| - 1];
      DataReads(seen[..|seen| - 1]) + if !last.cancelled && last.bytes > 0 then 1 else 0
  }

  /** Every read that brought bytes, one that failed included; after a cancellation nothing is read. */
  ghost function WithBytes(seen: seq<Read>): set<int> {
    set i | 0 <= i < |seen| && !seen[i].cancelled && seen[i].bytes > 0
  }

  lemma {:induction false} DataReadsCount(seen: seq<Read>)
    ensures DataReads(seen) == |WithBytes(seen)|
    decreases |seen|
  {
    if seen != [] {
      var n := |seen| - 1;
      DataReadsCount(seen[..n]);
      assert WithBytes(seen) ==
        if !seen[n].cancelled && seen[n].bytes > 0 then WithBytes(seen[..n]) + {n} else WithBytes(seen[..n]);
    }
  }

  /** `used` observations were made: all of them, unless one ended the stream. */
  ghost predicate UsedUpTo<T(!new)>(seen: seq<T>, used: nat, stops: T -> bool) {
    && used <= |seen|
    && (forall i :: 0 <= i < used - 1 ==> !stops(seen[i]))
    && (used < |seen| ==> used > 0 && stops(seen[used - 1]))
  }

  ghost predicate Stopped<T(!new)>(seen: seq<T>, used: nat, stops: T -> bool) {
    0 < used <= |seen| && stops(seen[used - 1])
  }

  /** A chunk per nonempty read, the last one included, and an end marker when the loop is left. */
  method HandleContainerLogs(out: Outbox, opens: bool, seen: seq<Read>) returns (returned: bool, used: nat)
    requires out.frames == []
    modifies out
    ensures !opens ==> returned && out.frames == [Reply(500)]
    ensures opens ==> UsedUpTo(seen, used, StopsLog) && (returned <==> Stopped(seen, used, StopsLog))
    ensures opens ==> out.frames == Chunks(DataReads(seen[..used])) + if returned then [End(200)] else []
    ensures opens ==> |out.frames| == |WithBytes(seen[..used])| + if returned then 1 else 0
    ensures IsPartOfAnswer(out.frames) && (returned ==> IsAnswer(out.frames))
  {
    hide IsAnswer, IsPartOfAnswer, WithBytes;
    returned, used := true, 0;
    if !opens {
      out.SendResponse(Reply(500));
      OneReply(500);
      return;
    }
    var chunk := 0;
    PartOfStream(0, 200);
    while used < |seen|
      invariant used <= |seen| && forall i :: 0 <= i < used ==> !StopsLog(seen[i])
      invariant chunk == DataReads(seen[..used]) && out.frames == Chunks(chunk)
    {
      var read := seen[used];
      assert seen[..used + 1][..used] == seen[..used];
      used := used + 1;
      if read.cancelled {
        out.SendResponse(End(200));
        PartOfStream(chunk, 200);
        DataReadsCount(seen[..used]);
        return;
      }
      if read.bytes > 0 {
        out.SendResponse(Chunk(chunk));
        ChunksGrow(chunk);
        chunk := chunk + 1;
      }
      if read.failed {
        out.SendResponse(End(200));
        PartOfStream(chunk, 200);
        DataReadsCount(seen[..used]);
        return;
      }
    }
    PartOfStream(chunk, 200);
    DataReadsCount(seen[..used]);
    returned := false;
  }

  datatype Sample = Tick(ok: bool) | Cancelled

  predicate StopsStats(sample: Sample) {
    sample != Tick(true)
  }

  /** The first sample becomes chunk 0; without it there is only an end marker that reports the error. */
  method HandleStatsStream(out: Outbox, first: bool, samples: seq<Sample>) returns (returned: bool, used: nat)
    requires out.frames == []
    modifies out
    ensures !first ==> returned && out.frames == [End(500)]
    ensures first ==> UsedUpTo(samples, used, StopsStats) && (returned <==> Stopped(samples, used, StopsStats))
    ensures first ==> out.frames == if returned then Stream(used, 200) else Chunks(used + 1)
    ensures IsPartOfAnswer(out.frames) && (returned ==> IsAnswer(out.frames))
  {
    hide IsAnswer, IsPartOfAnswer;
    returned, used := true, 0;
    if !first {
      out.SendResponse(End(500));
      PartOfStream(0, 500);
      return;
    }
    out.SendResponse(Chunk(0));
    var chunk := 1;
    while used < |samples|
      invariant used <= |samples| && forall i :: 0 <= i < used ==> !StopsStats(samples[i])
      invariant chunk == used + 1 && out.frames == Chunks(chunk)
    {
      var sample := samples[used];
      used := used + 1;
      if sample != Tick(true) {
        out.SendResponse(End(200));
        PartOfStream(chunk, 200);
        return;
      }
      out.SendResponse(Chunk(chunk));
      ChunksGrow(chunk);
      chunk := chunk + 1;
    }
    PartOfStream(chunk, 200);
    returned := false;
  }

  /** What the select loop of a deploy stream meets. */
  datatype Observation = TookEvent | EventsClosed | DoneClosed | ContextDone

  predicate StopsEvents(seen: Observation) {
    !seen.TookEvent?
  }

  /** Chunks sent: the events of the select loop, and after Done those of the drain. */
  function EventChunks(seen: seq<Observation>, used: nat, drained: nat): nat {
    if !(0 < used <= |seen|) || seen[used - 1].TookEvent? then used
    else if seen[used - 1].DoneClosed? then used - 1 + drained
    else used - 1
  }

  /**
   The loop of both deploy streams.  Once Done is seen, the handler takes events until the channel is
   closed (`drainEnds`), and no longer looks at the context.
   */
  method StreamEvents(out: Outbox, seen: seq<Observation>, drained: nat, drainEnds: bool)
    returns (returned: bool, used: nat)
    requires out.frames == [Reply(200)]
    modifies out
    ensures UsedUpTo(seen, used, StopsEvents)
    ensures returned <==> Stopped(seen, used, StopsEvents) && (seen[used - 1].DoneClosed? ==> drainEnds)
    ensures out.frames == DeployFrames(seen, used, drained, returned)
    ensures IsPartOfAnswer(out.frames) && (returned ==> IsAnswer(out.frames))
  {
    hide IsAnswer, IsPartOfAnswer;
    returned, used := true, 0;
    var chunk := 0;
    while used < |seen|
      invariant used <= |seen| && forall i :: 0 <= i < used ==> !StopsEvents(seen[i])
      invariant chunk == used && out.frames == [Reply(200)] + Chunks(chunk)
    {
      used := used + 1;
      match seen[used - 1] {
        case TookEvent =>
          out.SendResponse(Chunk(chunk));
          ChunksGrow(chunk);
          chunk := chunk + 1;
        case DoneClosed =>
          chunk := Drain(out, chunk, drained);
          PartOfRepliedStream(200, chunk, 200);
          if !drainEnds {
            returned := false;
            return;
          }
          out.SendResponse(End(200));
          return;
        case _ =>
          out.SendResponse(End(200));
          PartOfRepliedStream(200, chunk, 200);
          return;
      }
    }
    PartOfRepliedStream(200, chunk, 200);
    returned := false;
  }

  method Drain(out: Outbox, from: nat, drained: nat) returns (chunk: nat)
    requires out.frames == [Reply(200)] + Chunks(from)
    modifies out
    ensures chunk == from + drained && out.frames == [Reply(200)] + Chunks(chunk)
  {
    chunk := from;
    for i := 0 to drained
      invariant chunk == from + i && out.frames == [Reply(200)] + Chunks(chunk)
    {
      out.SendResponse(Chunk(chunk));
      ChunksGrow(chunk);
      chunk := chunk + 1;
    }
  }

  /** The frames of a deployment that was accepted. */
  function DeployFrames(seen: seq<Observation>, used: nat, drained: nat, returned: bool): seq<Frame> {
    var n := EventChunks(seen, used, drained);
    [Reply(200)] + if returned then Stream(n, 200) else Chunks(n)
  }
}

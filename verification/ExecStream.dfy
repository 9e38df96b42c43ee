/**
 The reader of a one-shot exec: splits the daemon's multiplexed byte stream into standard output and
 standard error, under one cap for both.
 */
module ExecStream {
  import opened Common

  const CHUNK := 64 * 1024
  const CAP := 512 * 1024
  const HEADER := 8
  const STDERR: Byte := 2

  // ----- The wire format -----

  /** One frame; the wire holds its size in four bytes. */
  datatype Frame = Frame(kind: Byte, payload: seq<Byte>) {
    ghost predicate Fits() {
      |payload| < 0x1_0000_0000
    }
  }

  function SizeBytes(n: nat): seq<Byte>
    requires n < 0x1_0000_0000
  {
    [(n / 0x100_0000) as Byte, (n / 0x1_0000 % 0x100) as Byte, (n / 0x100 % 0x100) as Byte, (n % 0x100) as Byte]
  }

  function SizeOf(b: seq<Byte>): nat
    requires |b| == 4
  {
    (b[0] as int) * 0x100_0000 + (b[1] as int) * 0x1_0000 + (b[2] as int) * 0x100 + b[3] as int
  }

  lemma SizeRoundTrip(n: nat)
    requires n < 0x1_0000_0000
    ensures SizeOf(SizeBytes(n)) == n
  {
    assert n / 0x1_0000 == (n / 0x100_0000) * 0x100 + n / 0x1_0000 % 0x100;
    assert n / 0x100 == (n / 0x1_0000) * 0x100 + n / 0x100 % 0x100;
  }

  ghost function EncodeFrame(f: Frame): seq<Byte>
    requires f.Fits()
  {
    [f.kind, 0, 0, 0] + SizeBytes(|f.payload|) + f.payload
  }

  ghost predicate AllFit(frames: seq<Frame>) {
    forall i :: 0 <= i < |frames| ==> frames[i].Fits()
  }

  ghost function Encode(frames: seq<Frame>): seq<Byte>
    requires AllFit(frames)
  {
    if frames == [] then [] else EncodeFrame(frames[0]) + Encode(frames[1..])
  }

  /** The payloads of one of the two streams, in order. */
  ghost function Payloads(frames: seq<Frame>, toStderr: bool): seq<Byte> {
    if frames == [] then []
    else (if (frames[0].kind == 2) == toStderr then frames[0].payload else []) + Payloads(frames[1..], toStderr)
  }

  ghost function PayloadSize(frames: seq<Frame>): nat {
    if frames == [] then 0 else |frames[0].payload| + PayloadSize(frames[1..])
  }

  // ----- What is read, whatever is kept -----

  /** The result of one payload read. */
  datatype Chunk = Chunk(toStderr: bool, bytes: seq<Byte>)

  function NextRead(size: nat): nat {
    if size > CHUNK then CHUNK else size
  }

  /** The reads from the rest of a frame that has `size` payload bytes to come, and from what follows it. */
  function ChunksIn(toStderr: bool, size: nat, rest: seq<Byte>): seq<Chunk>
    decreases |rest|, 1
  {
    if size == 0 then Chunks(rest)
    else
      var n := NextRead(size);
      if |rest| < n then [Chunk(toStderr, rest)]
      else [Chunk(toStderr, rest[..n])] + ChunksIn(toStderr, size - n, rest[n..])
  }

  /** The payload reads from a stream that starts with a header; a cut header ends it. */
  function Chunks(stream: seq<Byte>): seq<Chunk>
    decreases |stream|, 0
  {
    if |stream| < HEADER then []
    else ChunksIn(stream[0] == STDERR, SizeOf(stream[4..8]), stream[8..])
  }

  function Part(chunk: Chunk, toStderr: bool): seq<Byte> {
    if chunk.toStderr == toStderr then chunk.bytes else []
  }

  function BytesOf(chunks: seq<Chunk>, toStderr: bool): seq<Byte> {
    if chunks == [] then [] else Part(chunks[0], toStderr) + BytesOf(chunks[1..], toStderr)
  }

  function TotalBytes(chunks: seq<Chunk>): nat {
    if chunks == [] then 0 else |chunks[0].bytes| + TotalBytes(chunks[1..])
  }

  lemma PrependChunk(chunk: Chunk, chunks: seq<Chunk>, toStderr: bool)
    ensures TotalBytes([chunk] + chunks) == |chunk.bytes| + TotalBytes(chunks)
    ensures BytesOf([chunk] + chunks, toStderr) == Part(chunk, toStderr) + BytesOf(chunks, toStderr)
  {
    assert ([chunk] + chunks)[1..] == chunks;
  }

  lemma Associative<T>(a: seq<T>, b: seq<T>, c: seq<T>)
    ensures (a + b) + c == a + (b + c)
  {
  }

  lemma {:induction false} BytesOfConcat(a: seq<Chunk>, b: seq<Chunk>, toStderr: bool)
    ensures TotalBytes(a + b) == TotalBytes(a) + TotalBytes(b)
    ensures BytesOf(a + b, toStderr) == BytesOf(a, toStderr) + BytesOf(b, toStderr)
  {
    if a == [] {
      assert a + b == b;
    } else {
      assert a + b == [a[0]] + (a[1..] + b);
      PrependChunk(a[0], a[1..] + b, toStderr);
      BytesOfConcat(a[1..], b, toStderr);
      Associative(Part(a[0], toStderr), BytesOf(a[1..], toStderr), BytesOf(b, toStderr));
    }
  }

  lemma ChunkAppend(chunks: seq<Chunk>, chunk: Chunk, toStderr: bool)
    ensures BytesOf(chunks + [chunk], toStderr) == BytesOf(chunks, toStderr) + Part(chunk, toStderr)
    ensures TotalBytes(chunks + [chunk]) == TotalBytes(chunks) + |chunk.bytes|
  {
    BytesOfConcat(chunks, [chunk], toStderr);
    PrependChunk(chunk, [], toStderr);
    assert [chunk] + [] == [chunk];
  }

  // ----- What is kept -----

  datatype Capture = Capture(stdout: seq<Byte>, stderr: seq<Byte>, truncated: bool)

  const EMPTY := Capture([], [], false)

  /** A chunk is kept whole or dropped whole. */
  predicate HasRoom(c: Capture, chunk: Chunk) {
    |c.stdout| + |c.stderr| + |chunk.bytes| <= CAP
  }

  function Keep(c: Capture, chunk: Chunk): Capture {
    if !HasRoom(c, chunk) then c.(truncated := true)
    else if chunk.toStderr then c.(stderr := c.stderr + chunk.bytes)
    else c.(stdout := c.stdout + chunk.bytes)
  }

  function KeepAll(c: Capture, chunks: seq<Chunk>): Capture
    decreases |chunks|
  {
    if chunks == [] then c else KeepAll(Keep(c, chunks[0]), chunks[1..])
  }

  // ----- The reader -----

  lemma KeepFirst(c: Capture, chunk: Chunk, chunks: seq<Chunk>)
    ensures KeepAll(c, [chunk] + chunks) == KeepAll(Keep(c, chunk), chunks)
    ensures KeepAll(c, [chunk]) == Keep(c, chunk)
  {
    assert ([chunk] + chunks)[1..] == chunks;
  }

  /** What a full payload read at `pos` adds. */
  lemma FullRead(c: Capture, toStderr: bool, size: nat, n: nat, stream: seq<Byte>, pos: nat)
    requires size > 0 && n == NextRead(size) && pos + n <= |stream|
    ensures KeepAll(c, ChunksIn(toStderr, size, stream[pos..]))
         == KeepAll(Keep(c, Chunk(toStderr, stream[pos..pos + n])), ChunksIn(toStderr, size - n, stream[pos + n..]))
  {
    assert stream[pos..][..n] == stream[pos..pos + n] && stream[pos..][n..] == stream[pos + n..];
    KeepFirst(c, Chunk(toStderr, stream[pos..pos + n]), ChunksIn(toStderr, size - n, stream[pos + n..]));
  }

  /** What the last read adds, cut short by the end of the stream. */
  lemma CutRead(c: Capture, toStderr: bool, size: nat, stream: seq<Byte>, pos: nat)
    requires size > 0 && pos <= |stream| < pos + NextRead(size)
    ensures KeepAll(c, ChunksIn(toStderr, size, stream[pos..])) == Keep(c, Chunk(toStderr, stream[pos..|stream|]))
  {
    assert stream[pos..] == stream[pos..|stream|];
    KeepFirst(c, Chunk(toStderr, stream[pos..]), []);
  }

  lemma HeaderStep(stream: seq<Byte>, pos: nat)
    requires pos + HEADER <= |stream|
    ensures Chunks(stream[pos..]) ==
            ChunksIn(stream[pos] == STDERR, SizeOf(stream[pos + 4..pos + 8]), stream[pos + HEADER..])
  {
    assert stream[pos..][4..8] == stream[pos + 4..pos + 8];
    assert stream[pos..][8..] == stream[pos + HEADER..];
  }

  lemma EndOfFrame(toStderr: bool, rest: seq<Byte>)
    ensures ChunksIn(toStderr, 0, rest) == Chunks(rest)
  {
  }

  lemma EndOfStream(c: Capture, rest: seq<Byte>)
    requires |rest| < HEADER
    ensures KeepAll(c, Chunks(rest)) == c
  {
  }

  /** Reads `stream` to its end, which may come in the middle of a frame. */
  method Demultiplex(stream: seq<Byte>) returns (result: Capture)
    ensures result == KeepAll(EMPTY, Chunks(stream))
  {
    hide KeepAll, Chunks, ChunksIn, SizeOf;
    var outBuf: seq<Byte>, errBuf: seq<Byte>, truncated := [], [], false;
    ghost var goal := KeepAll(EMPTY, Chunks(stream));
    var pos: nat := 0;
    assert stream[0..] == stream;
    while |stream| - pos >= HEADER
      invariant pos <= |stream|
      invariant KeepAll(Capture(outBuf, errBuf, truncated), Chunks(stream[pos..])) == goal
    {
      HeaderStep(stream, pos);
      var size: nat := SizeOf(stream[pos + 4..pos + 8]);
      var toStderr := stream[pos] == STDERR;
      pos := pos + HEADER;
      ghost var payload := pos;
      while size > 0
        invariant payload <= pos <= |stream|
        invariant KeepAll(Capture(outBuf, errBuf, truncated), ChunksIn(toStderr, size, stream[pos..]))
               == goal
      {
        ghost var before := Capture(outBuf, errBuf, truncated);
        var n := NextRead(size);
        var got := if |stream| - pos < n then |stream| - pos else n;
        var chunk := stream[pos..pos + got];
        if |outBuf| + |errBuf| + got <= CAP {
          if toStderr {
            errBuf := errBuf + chunk;
          } else {
            outBuf := outBuf + chunk;
          }
        } else {
          truncated := true;
        }
        assert Capture(outBuf, errBuf, truncated) == Keep(before, Chunk(toStderr, chunk));
        if got < n {
          CutRead(before, toStderr, size, stream, pos);
          return Capture(outBuf, errBuf, truncated);
        }
        FullRead(before, toStderr, size, n, stream, pos);
        pos := pos + got;
        size := size - got;
      }
      EndOfFrame(toStderr, stream[pos..]);
    }
    EndOfStream(Capture(outBuf, errBuf, truncated), stream[pos..]);
    return Capture(outBuf, errBuf, truncated);
  }

  // ----- Keeping under a cap, for every stream -----

  lemma {:induction false} KeepAllAppend(c: Capture, a: seq<Chunk>, b: seq<Chunk>)
    ensures KeepAll(c, a + b) == KeepAll(KeepAll(c, a), b)
    decreases |a|
  {
    if a == [] {
      assert a + b == b;
    } else {
      assert (a + b)[1..] == a[1..] + b;
      KeepAllAppend(Keep(c, a[0]), a[1..], b);
    }
  }

  /** `kept` are whole chunks, in order, that make up exactly what was captured. */
  ghost predicate CapturedFrom(c: Capture, chunks: seq<Chunk>, kept: seq<Chunk>) {
    && Subsequence(kept, chunks)
    && c.stdout == BytesOf(kept, false) && c.stderr == BytesOf(kept, true)
    && TotalBytes(kept) == |c.stdout| + |c.stderr| <= 512 * 1024 && TotalBytes(kept) <= TotalBytes(chunks)
    && (c.truncated <==> TotalBytes(kept) < TotalBytes(chunks))
    && (c.truncated <==> TotalBytes(chunks) > CAP)
  }

  lemma KeepExtends(c: Capture, chunks: seq<Chunk>, kept: seq<Chunk>, chunk: Chunk) returns (kept': seq<Chunk>)
    requires CapturedFrom(c, chunks, kept)
    ensures CapturedFrom(Keep(c, chunk), chunks + [chunk], kept')
  {
    ChunkAppend(chunks, chunk, true);
    ChunkAppend(kept, chunk, true);
    ChunkAppend(kept, chunk, false);
    assert (chunks + [chunk])[..|chunks|] == chunks;
    if HasRoom(c, chunk) {
      kept' := kept + [chunk];
      assert kept'[..|kept|] == kept;
    } else {
      kept' := kept;
    }
  }

  /**
   For every byte stream: the two buffers are made of whole chunks of their streams, in order; together
   they never exceed the cap; and truncation is reported exactly when something was discarded, which
   is exactly when more was read than the cap holds.
   */
  lemma {:induction false} CaptureIsFaithful(chunks: seq<Chunk>) returns (kept: seq<Chunk>)
    ensures CapturedFrom(KeepAll(EMPTY, chunks), chunks, kept)
    decreases |chunks|
  {
    if chunks == [] {
      kept := [];
    } else {
      var before, last := chunks[..|chunks| - 1], chunks[|chunks| - 1];
      assert chunks == before + [last];
      var earlier := CaptureIsFaithful(before);
      KeepAllAppend(EMPTY, before, [last]);
      KeepFirst(KeepAll(EMPTY, before), last, []);
      kept := KeepExtends(KeepAll(EMPTY, before), before, earlier, last);
    }
  }

  lemma {:induction false} SubsequenceWithAllBytes(kept: seq<Chunk>, chunks: seq<Chunk>, toStderr: bool)
    requires Subsequence(kept, chunks)
    ensures TotalBytes(kept) <= TotalBytes(chunks)
    ensures TotalBytes(kept) == TotalBytes(chunks) ==> BytesOf(kept, toStderr) == BytesOf(chunks, toStderr)
    decreases |chunks|
  {
    if chunks == [] {
    } else {
      var before, last := chunks[..|chunks| - 1], chunks[|chunks| - 1];
      assert chunks == before + [last];
      ChunkAppend(before, last, toStderr);
      if kept != [] && kept[|kept| - 1] == last && Subsequence(kept[..|kept| - 1], before) {
        SubsequenceWithAllBytes(kept[..|kept| - 1], before, toStderr);
        assert kept == kept[..|kept| - 1] + [last];
        ChunkAppend(kept[..|kept| - 1], last, toStderr);
      } else {
        SubsequenceWithAllBytes(kept, before, toStderr);
      }
    }
  }

  /** Below the cap nothing is lost, whatever the chunk boundaries. */
  lemma SmallStreamsAreWhole(chunks: seq<Chunk>)
    requires TotalBytes(chunks) <= CAP
    ensures KeepAll(EMPTY, chunks) == Capture(BytesOf(chunks, false), BytesOf(chunks, true), false)
  {
    var kept := CaptureIsFaithful(chunks);
    SubsequenceWithAllBytes(kept, chunks, false);
    SubsequenceWithAllBytes(kept, chunks, true);
  }

  // ----- Where the output is cut -----

  function Size(c: Capture): nat {
    |c.stdout| + |c.stderr|
  }

  lemma {:induction false} SizeGrows(c: Capture, chunks: seq<Chunk>)
    ensures Size(c) <= Size(KeepAll(c, chunks))
    decreases |chunks|
  {
    if chunks != [] {
      SizeGrows(Keep(c, chunks[0]), chunks[1..]);
    }
  }

  /** Adds nothing to a capture of `size` bytes. */
  predicate AddsNothing(chunk: Chunk, size: nat) {
    chunk.bytes == [] || size + |chunk.bytes| > CAP
  }

  lemma {:induction false} NothingMoreIsKept(c: Capture, chunks: seq<Chunk>)
    requires c.truncated && Size(c) <= CAP
    ensures KeepAll(c, chunks) == c <==> forall i :: 0 <= i < |chunks| ==> AddsNothing(chunks[i], Size(c))
    decreases |chunks|
  {
    if chunks != [] {
      if AddsNothing(chunks[0], Size(c)) {
        assert Keep(c, chunks[0]) == c;
        NothingMoreIsKept(c, chunks[1..]);
        assert forall i :: 0 < i < |chunks| ==> chunks[i] == chunks[1..][i - 1];
      } else {
        SizeGrows(Keep(c, chunks[0]), chunks[1..]);
      }
    }
  }

  /** Up to the first chunk that does not fit everything is kept; that one is dropped. */
  lemma FirstMiss(chunks: seq<Chunk>, n: nat)
    requires n < |chunks| && TotalBytes(chunks[..n]) <= CAP < TotalBytes(chunks[..n + 1])
    ensures Size(KeepAll(EMPTY, chunks[..n])) == TotalBytes(chunks[..n])
    ensures KeepAll(EMPTY, chunks) == KeepAll(KeepAll(EMPTY, chunks[..n]).(truncated := true), chunks[n + 1..])
  {
    hide KeepAll, TotalBytes, BytesOf;
    var before, rest := chunks[..n], chunks[n + 1..];
    SmallStreamsAreWhole(before);
    BytesAddUp(before);
    ChunkAppend(before, chunks[n], true);
    assert chunks[..n + 1] == before + [chunks[n]] && chunks == before + ([chunks[n]] + rest);
    KeepAllAppend(EMPTY, before, [chunks[n]] + rest);
    KeepFirst(KeepAll(EMPTY, before), chunks[n], rest);
  }

  /**
   Where the first chunk that does not fit is at `n`: the capture is what was kept before it, and nothing
   else, if and only if every later chunk is empty or does not fit there either.
   */
  lemma CutAtFirstMissExactly(chunks: seq<Chunk>, n: nat)
    requires n < |chunks| && TotalBytes(chunks[..n]) <= CAP < TotalBytes(chunks[..n + 1])
    ensures KeepAll(EMPTY, chunks) == KeepAll(EMPTY, chunks[..n]).(truncated := true) <==>
      forall i :: n < i < |chunks| ==> AddsNothing(chunks[i], TotalBytes(chunks[..n]))
  {
    hide KeepAll, TotalBytes, AddsNothing;
    var rest := chunks[n + 1..];
    FirstMiss(chunks, n);
    NothingMoreIsKept(KeepAll(EMPTY, chunks[..n]).(truncated := true), rest);
    assert forall i :: 0 <= i < |rest| ==> rest[i] == chunks[n + 1 + i];
    assert forall i :: n < i < |chunks| ==> chunks[i] == rest[i - n - 1];
  }

  lemma {:induction false} BytesAddUp(chunks: seq<Chunk>)
    ensures |BytesOf(chunks, false)| + |BytesOf(chunks, true)| == TotalBytes(chunks)
  {
    if chunks != [] {
      BytesAddUp(chunks[1..]);
    }
  }

  /** Above the cap there is a first chunk that does not fit. */
  lemma {:induction false} SomeFirstMiss(chunks: seq<Chunk>) returns (n: nat)
    requires TotalBytes(chunks) > CAP
    ensures n < |chunks| && TotalBytes(chunks[..n]) <= CAP < TotalBytes(chunks[..n + 1])
    decreases |chunks|
  {
    var before, last := chunks[..|chunks| - 1], chunks[|chunks| - 1];
    if TotalBytes(before) > CAP {
      n := SomeFirstMiss(before);
      assert before[..n] == chunks[..n] && before[..n + 1] == chunks[..n + 1];
    } else {
      n := |before|;
      assert chunks[..n + 1] == chunks;
    }
  }

  /**
   For every output above the cap there is a first chunk that does not fit, at `n`; the output is cut there
   if and only if every later chunk is empty or does not fit there either.
   */
  lemma OutputIsCutExactly(chunks: seq<Chunk>) returns (n: nat)
    requires TotalBytes(chunks) > CAP
    ensures n < |chunks| && TotalBytes(chunks[..n]) <= CAP < TotalBytes(chunks[..n + 1])
    ensures KeepAll(EMPTY, chunks[..n]) == Capture(BytesOf(chunks[..n], false), BytesOf(chunks[..n], true), false)
    ensures KeepAll(EMPTY, chunks) == KeepAll(EMPTY, chunks[..n]).(truncated := true) <==>
      forall i :: n < i < |chunks| ==> AddsNothing(chunks[i], TotalBytes(chunks[..n]))
  {
    n := SomeFirstMiss(chunks);
    SmallStreamsAreWhole(chunks[..n]);
    CutAtFirstMissExactly(chunks, n);
  }

  // ----- The bytes of a stream -----

  /** How many complete headers are read. */
  function HeadersIn(size: nat, rest: seq<Byte>): nat
    decreases |rest|, 1
  {
    if size == 0 then Headers(rest)
    else if |rest| < NextRead(size) then 0
    else HeadersIn(size - NextRead(size), rest[NextRead(size)..])
  }

  function Headers(stream: seq<Byte>): nat
    decreases |stream|, 0
  {
    if |stream| < HEADER then 0 else 1 + HeadersIn(SizeOf(stream[4..8]), stream[8..])
  }

  /** Every byte of a stream is in a header, in a payload read, or in a header that is cut off. */
  lemma EveryByteIsAccountedFor(stream: seq<Byte>)
    ensures 0 <= |stream| - HEADER * Headers(stream) - TotalBytes(Chunks(stream)) < HEADER
    decreases |stream|, 0
  {
    if |stream| >= HEADER {
      EveryByteInFrame(stream[0] == STDERR, SizeOf(stream[4..8]), stream[8..]);
    }
  }

  lemma {:induction false} EveryByteInFrame(toStderr: bool, size: nat, rest: seq<Byte>)
    ensures 0 <= |rest| - HEADER * HeadersIn(size, rest) - TotalBytes(ChunksIn(toStderr, size, rest)) < HEADER
    decreases |rest|, 1
  {
    if size == 0 {
      EveryByteIsAccountedFor(rest);
    } else {
      var n := NextRead(size);
      if |rest| < n {
        PrependChunk(Chunk(toStderr, rest), [], toStderr);
        assert [Chunk(toStderr, rest)] + [] == [Chunk(toStderr, rest)];
      } else {
        EveryByteInFrame(toStderr, size - n, rest[n..]);
        PrependChunk(Chunk(toStderr, rest[..n]), ChunksIn(toStderr, size - n, rest[n..]), toStderr);
      }
    }
  }

  /** No read is longer than 64 KiB, and one is shorter only where the payload or the stream ends. */
  lemma {:induction false} ReadsAreBounded(toStderr: bool, size: nat, rest: seq<Byte>)
    ensures forall chunk :: chunk in ChunksIn(toStderr, size, rest) ==> |chunk.bytes| <= 64 * 1024
    ensures size > 0 ==>
      var n := if size < 64 * 1024 then size else 64 * 1024;
      ChunksIn(toStderr, size, rest) != [] &&
      ChunksIn(toStderr, size, rest)[0] == Chunk(toStderr, if |rest| < n then rest else rest[..n])
    decreases |rest|, size
  {
    if size > 0 {
      var n := NextRead(size);
      if |rest| >= n {
        ReadsAreBounded(toStderr, size - n, rest[n..]);
      }
    } else if |rest| >= HEADER {
      ReadsAreBounded(rest[0] == STDERR, SizeOf(rest[4..8]), rest[8..]);
    }
  }

  // ----- Round trip -----

  /** The reads of one whole payload. */
  function Pieces(toStderr: bool, payload: seq<Byte>): seq<Chunk>
    decreases |payload|
  {
    if payload == [] then []
    else
      var n := NextRead(|payload|);
      [Chunk(toStderr, payload[..n])] + Pieces(toStderr, payload[n..])
  }

  lemma OnePiece(toStderr: bool, payload: seq<Byte>)
    requires 0 < |payload| <= CHUNK
    ensures Pieces(toStderr, payload) == [Chunk(toStderr, payload)]
  {
    var n := NextRead(|payload|);
    assert payload[..n] == payload && payload[n..] == [];
  }

  lemma {:induction false} WholePayloadReads(toStderr: bool, payload: seq<Byte>, rest: seq<Byte>)
    ensures ChunksIn(toStderr, |payload|, payload + rest) == Pieces(toStderr, payload) + Chunks(rest)
    decreases |payload|
  {
    if payload == [] {
      assert payload + rest == rest;
    } else {
      var n := NextRead(|payload|);
      assert (payload + rest)[..n] == payload[..n];
      assert (payload + rest)[n..] == payload[n..] + rest;
      WholePayloadReads(toStderr, payload[n..], rest);
    }
  }

  lemma FrameReads(f: Frame, rest: seq<Byte>)
    requires f.Fits()
    ensures Chunks(EncodeFrame(f) + rest) == Pieces(f.kind == STDERR, f.payload) + Chunks(rest)
  {
    var stream := EncodeFrame(f) + rest;
    SizeRoundTrip(|f.payload|);
    assert stream[4..8] == SizeBytes(|f.payload|);
    assert stream[8..] == f.payload + rest;
    WholePayloadReads(f.kind == STDERR, f.payload, rest);
  }

  lemma {:induction false} BytesOfPieces(toStderr: bool, payload: seq<Byte>, which: bool)
    ensures TotalBytes(Pieces(toStderr, payload)) == |payload|
    ensures BytesOf(Pieces(toStderr, payload), which) == if toStderr == which then payload else []
    decreases |payload|
  {
    if payload != [] {
      var n := NextRead(|payload|);
      BytesOfPieces(toStderr, payload[n..], which);
      PrependChunk(Chunk(toStderr, payload[..n]), Pieces(toStderr, payload[n..]), which);
      assert payload[..n] + payload[n..] == payload;
    }
  }

  lemma {:induction false} EncodedBytes(frames: seq<Frame>, which: bool)
    requires AllFit(frames)
    ensures TotalBytes(Chunks(Encode(frames))) == PayloadSize(frames)
    ensures BytesOf(Chunks(Encode(frames)), which) == Payloads(frames, which)
  {
    if frames != [] {
      EncodedBytes(frames[1..], which);
      FrameReads(frames[0], Encode(frames[1..]));
      var pieces := Pieces(frames[0].kind == STDERR, frames[0].payload);
      BytesOfPieces(frames[0].kind == STDERR, frames[0].payload, which);
      BytesOfConcat(pieces, Chunks(Encode(frames[1..])), which);
    }
  }

  /** Decoding what was encoded gives both streams back, as long as the payloads fit under the cap. */
  lemma DecodeEncode(frames: seq<Frame>)
    requires AllFit(frames) && PayloadSize(frames) <= 512 * 1024
    ensures KeepAll(EMPTY, Chunks(Encode(frames))) == Capture(Payloads(frames, false), Payloads(frames, true), false)
  {
    EncodedBytes(frames, false);
    EncodedBytes(frames, true);
    SmallStreamsAreWhole(Chunks(Encode(frames)));
  }

  /** Above the cap the result says so, and only then. */
  lemma TruncatedExactlyAboveCap(frames: seq<Frame>)
    requires AllFit(frames)
    ensures KeepAll(EMPTY, Chunks(Encode(frames))).truncated <==> PayloadSize(frames) > 512 * 1024
  {
    EncodedBytes(frames, false);
    var kept := CaptureIsFaithful(Chunks(Encode(frames)));
  }

  lemma ReadsOfThreeFrames(f1: Frame, f2: Frame, f3: Frame)
    requires f1.Fits() && f2.Fits() && f3.Fits()
    ensures Chunks(Encode([f1, f2, f3])) ==
      Pieces(f1.kind == STDERR, f1.payload) +
      (Pieces(f2.kind == STDERR, f2.payload) + Pieces(f3.kind == STDERR, f3.payload))
  {
    assert [f1, f2, f3][1..] == [f2, f3] && [f2, f3][1..] == [f3] && [f3][1..] == [];
    FrameReads(f1, Encode([f2, f3]));
    FrameReads(f2, Encode([f3]));
    FrameReads(f3, Encode([]));
    assert Encode([f3]) == EncodeFrame(f3) + Encode([]);
    assert Encode([f2, f3]) == EncodeFrame(f2) + Encode([f3]);
  }

  /** What is kept need not be a prefix: after a chunk that does not fit, a smaller one can. */
  lemma KeptOutputNeedNotBeAPrefix(big: seq<Byte>, x: Byte, y: Byte, z: Byte)
    requires |big| == CAP - 1
    ensures KeepAll(EMPTY, Chunks(Encode([Frame(1, big), Frame(1, [x, y]), Frame(1, [z])])))
         == Capture(big + [z], [], true)
  {
    var first, c2, c3 := Pieces(false, big), Chunk(false, [x, y]), Chunk(false, [z]);
    ReadsOfThreeFrames(Frame(1, big), Frame(1, [x, y]), Frame(1, [z]));
    OnePiece(false, [x, y]);
    OnePiece(false, [z]);
    BytesOfPieces(false, big, false);
    BytesOfPieces(false, big, true);
    SmallStreamsAreWhole(first);
    KeepAllAppend(EMPTY, first, [c2] + [c3]);
    KeepFirst(Capture(big, [], false), c2, [c3]);
    KeepFirst(Capture(big, [], true), c3, []);
  }
}

/**
 The server-sent-events reader of `crates/agent-run-adapters/src/opencode.rs`. JSON
 decoding is a parameter: `json` says which frame texts decode.
 */
module Sse {
  import opened Common
  import opened Utf8

  /** `MAX_FRAME` */
  const MAX_FRAME: nat := 8 * 1024 * 1024

  const LF: byte := 10
  const CR: byte := 13

  /** `data:` */
  const FIELD: seq<byte> := [100, 97, 116, 97, 58]

  datatype Reader = Reader(line: seq<byte>, data: seq<byte>, cr: bool)

  datatype Error = NotUtf8 | BadJson | FrameTooLong | ChunkTooLong | PartialFrame

  datatype Emit = Quiet | Frame(text: seq<byte>) | Fault(error: Error)

  datatype Fed = Fed(reader: Reader, emit: Emit)

  const START: Reader := Reader([], [], false)

  function TrimEnd(s: seq<byte>): seq<byte>
    decreases |s|
  {
    if s != [] && s[|s| - 1] == LF then TrimEnd(s[..|s| - 1]) else s
  }

  /** The value of a `data` line after at most one space; other lines carry none. */
  function FieldValue(line: seq<byte>): Option<seq<byte>> {
    if StartsWith(line, FIELD) then
      var value := line[|FIELD|..];
      Some(if value != [] && value[0] == 32 then value[1..] else value)
    else if line == FIELD[..4] then Some([])
    else None
  }

  function Checked(r: Reader): Fed {
    if |r.line| + |r.data| > MAX_FRAME then Fed(r, Fault(FrameTooLong)) else Fed(r, Quiet)
  }

  /** A line terminator: a blank line after data ends the frame. */
  function EndLine(json: seq<byte> -> bool, r: Reader): Fed {
    if !Valid(r.line) then Fed(r, Fault(NotUtf8))
    else if r.line == [] && r.data != [] then
      var text := TrimEnd(r.data);
      if json(text) then Fed(r.(line := [], data := []), Frame(text)) else Fed(r, Fault(BadJson))
    else
      var value := FieldValue(r.line);
      Checked(r.(line := [], data := if value.Some? then r.data + value.value + [LF] else r.data))
  }

  function FeedByte(json: seq<byte> -> bool, r: Reader, b: byte): Fed {
    if r.cr && b == LF then Fed(r.(cr := false), Quiet)
    else if b == CR || b == LF then EndLine(json, r.(cr := b == CR))
    else Checked(r.(line := r.line + [b], cr := false))
  }

  datatype Log = Log(frames: seq<seq<byte>>, error: Option<Error>)

  function Prepend(text: seq<byte>, log: Log): Log {
    log.(frames := [text] + log.frames)
  }

  function AtEnd(r: Reader): Option<Error> {
    if r.line == [] && r.data == [] then None else Some(PartialFrame)
  }

  /** What a byte stream reads as, without any notion of chunks. */
  function Frames(json: seq<byte> -> bool, r: Reader, bytes: seq<byte>): Log
    decreases |bytes|
  {
    if bytes == [] then Log([], AtEnd(r)) else
    var fed := FeedByte(json, r, bytes[0]);
    match fed.emit
    case Quiet => Frames(json, fed.reader, bytes[1..])
    case Frame(text) => Prepend(text, Frames(json, fed.reader, bytes[1..]))
    case Fault(error) => Log([], Some(error))
  }

  // ----- The chunked reader -----

  datatype Scan = Scan(reader: Reader, rest: seq<byte>, emit: Emit)

  /** Consumes one chunk up to the end of a frame, an error or its last byte. */
  function ScanChunk(json: seq<byte> -> bool, r: Reader, bytes: seq<byte>): (s: Scan)
    ensures |s.rest| <= |bytes| && (!s.emit.Quiet? ==> |s.rest| < |bytes|)
    ensures s.emit.Quiet? ==> s.rest == []
    decreases |bytes|
  {
    if bytes == [] then Scan(r, [], Quiet) else
    var fed := FeedByte(json, r, bytes[0]);
    if fed.emit.Quiet? then ScanChunk(json, fed.reader, bytes[1..])
    else Scan(fed.reader, bytes[1..], fed.emit)
  }

  /** The answer of one `next` call: a frame, the end of the stream or an error. */
  datatype Answer = Event(text: seq<byte>) | End | Refused(error: Error)

  datatype Pull = Pull(answer: Answer, reader: Reader, pending: seq<byte>, chunks: seq<seq<byte>>)

  function Total(chunks: seq<seq<byte>>): nat
    decreases |chunks|
  {
    if chunks == [] then 0 else 1 + |chunks[0]| + Total(chunks[1..])
  }

  function Weight(pending: seq<byte>, chunks: seq<seq<byte>>): nat {
    |pending| + Total(chunks)
  }

  /** `Log::next` */
  function Next(json: seq<byte> -> bool, r: Reader, pending: seq<byte>, chunks: seq<seq<byte>>): (p: Pull)
    ensures p.answer.Event? ==> Weight(p.pending, p.chunks) < Weight(pending, chunks)
    decreases Weight(pending, chunks)
  {
    if pending == [] then
      if chunks == [] then
        Pull(if AtEnd(r).None? then End else Refused(PartialFrame), r, [], [])
      else if |chunks[0]| > MAX_FRAME then Pull(Refused(ChunkTooLong), r, [], chunks[1..])
      else Chunk(json, r, chunks[0], chunks[1..])
    else Chunk(json, r, pending, chunks)
  }

  /** One turn of the loop over a chunk in hand. */
  function Chunk(json: seq<byte> -> bool, r: Reader, bytes: seq<byte>, chunks: seq<seq<byte>>): (p: Pull)
    ensures p.answer.Event? ==> Weight(p.pending, p.chunks) < Weight(bytes, chunks)
    decreases Weight(bytes, chunks), 1
  {
    var s := ScanChunk(json, r, bytes);
    match s.emit
    case Frame(text) => Pull(Event(text), s.reader, s.rest, chunks)
    case Fault(error) => Pull(Refused(error), s.reader, [], chunks)
    case Quiet =>
      if chunks == [] then Pull(if AtEnd(s.reader).None? then End else Refused(PartialFrame), s.reader, [], [])
      else if |chunks[0]| > MAX_FRAME then Pull(Refused(ChunkTooLong), s.reader, [], chunks[1..])
      else Chunk(json, s.reader, chunks[0], chunks[1..])
  }

  /** Calling `next` until the stream ends or an error is returned. */
  function ReadAll(json: seq<byte> -> bool, r: Reader, pending: seq<byte>, chunks: seq<seq<byte>>): Log
    decreases Weight(pending, chunks)
  {
    var p := Next(json, r, pending, chunks);
    match p.answer
    case Event(text) => Prepend(text, ReadAll(json, p.reader, p.pending, p.chunks))
    case End => Log([], None)
    case Refused(error) => Log([], Some(error))
  }

  ghost predicate InBounds(chunks: seq<seq<byte>>) {
    forall i :: 0 <= i < |chunks| ==> |chunks[i]| <= MAX_FRAME
  }

  /** How a scanned prefix of the stream continues. */
  function Continued(json: seq<byte> -> bool, s: Scan, later: seq<byte>): Log {
    match s.emit
    case Quiet => Frames(json, s.reader, later)
    case Frame(text) => Prepend(text, Frames(json, s.reader, s.rest + later))
    case Fault(error) => Log([], Some(error))
  }

  lemma {:induction false} ScanIsFrames(json: seq<byte> -> bool, r: Reader, bytes: seq<byte>, later: seq<byte>)
    ensures Frames(json, r, bytes + later) == Continued(json, ScanChunk(json, r, bytes), later)
    decreases |bytes|
  {
    if bytes == [] {
      assert bytes + later == later;
    } else {
      assert (bytes + later)[1..] == bytes[1..] + later;
      var fed := FeedByte(json, r, bytes[0]);
      if fed.emit.Quiet? {
        ScanIsFrames(json, fed.reader, bytes[1..], later);
      }
    }
  }

  /** What is left to read after one `next` call. */
  function After(json: seq<byte> -> bool, p: Pull): Log {
    match p.answer
    case Event(text) => Prepend(text, Frames(json, p.reader, p.pending + Joined(p.chunks)))
    case End => Log([], None)
    case Refused(error) => Log([], Some(error))
  }

  lemma {:induction false} ChunkIsFrames(json: seq<byte> -> bool, r: Reader, bytes: seq<byte>, chunks: seq<seq<byte>>)
    requires InBounds(chunks)
    ensures Frames(json, r, bytes + Joined(chunks)) == After(json, Chunk(json, r, bytes, chunks))
    ensures InBounds(Chunk(json, r, bytes, chunks).chunks)
    decreases |chunks|
  {
    ScanIsFrames(json, r, bytes, Joined(chunks));
    var s := ScanChunk(json, r, bytes);
    if s.emit.Quiet? && chunks != [] {
      ChunkIsFrames(json, s.reader, chunks[0], chunks[1..]);
    }
  }

  lemma NextIsFrames(json: seq<byte> -> bool, r: Reader, pending: seq<byte>, chunks: seq<seq<byte>>)
    requires InBounds(chunks)
    ensures Frames(json, r, pending + Joined(chunks)) == After(json, Next(json, r, pending, chunks))
    ensures InBounds(Next(json, r, pending, chunks).chunks)
  {
    if pending == [] && chunks != [] {
      assert pending + Joined(chunks) == chunks[0] + Joined(chunks[1..]);
      ChunkIsFrames(json, r, chunks[0], chunks[1..]);
    } else {
      ChunkIsFrames(json, r, pending, chunks);
    }
  }

  /** Reading chunk by chunk is reading the joined stream. */
  lemma {:induction false} ReadAllIsFrames(json: seq<byte> -> bool, r: Reader, pending: seq<byte>,
                                           chunks: seq<seq<byte>>)
    requires InBounds(chunks)
    ensures ReadAll(json, r, pending, chunks) == Frames(json, r, pending + Joined(chunks))
    decreases Weight(pending, chunks)
  {
    NextIsFrames(json, r, pending, chunks);
    var p := Next(json, r, pending, chunks);
    if p.answer.Event? {
      ReadAllIsFrames(json, p.reader, p.pending, p.chunks);
    }
  }

  /** Any two splits of one byte stream into bounded chunks give the same frames, errors and end. */
  lemma ChunkingIsInvisible(json: seq<byte> -> bool, one: seq<seq<byte>>, other: seq<seq<byte>>)
    requires InBounds(one) && InBounds(other) && Joined(one) == Joined(other)
    ensures ReadAll(json, START, [], one) == ReadAll(json, START, [], other)
  {
    ReadAllIsFrames(json, START, [], one);
    ReadAllIsFrames(json, START, [], other);
  }
}

/** Printing payloads as `data` lines and reading them back, and the reader object. */
module SseRoundTrip {
  import opened Common
  import opened Utf8
  import opened Sse

  datatype Newline = UseLf | UseCr | UseCrLf

  function Terminator(nl: Newline): seq<byte> {
    match nl
    case UseLf => [LF]
    case UseCr => [CR]
    case UseCrLf => [CR, LF]
  }

  /** `data:` and one space */
  const LABEL: seq<byte> := FIELD + [32]

  /** Index of the first line feed, or the length. */
  function FirstLf(p: seq<byte>): (i: nat)
    ensures i <= |p| && (i < |p| ==> p[i] == LF)
    ensures forall k :: 0 <= k < i ==> p[k] != LF
    decreases |p|
  {
    if p == [] then 0 else if p[0] == LF then 0 else 1 + FirstLf(p[1..])
  }

  /** One `data` line per line of the payload. */
  function PrintLines(p: seq<byte>, nl: Newline): seq<byte>
    decreases |p|
  {
    var i := FirstLf(p);
    LABEL + p[..i] + Terminator(nl) + if i < |p| then PrintLines(p[i + 1..], nl) else []
  }

  /** A frame: its data lines and a blank line. */
  function Print(p: seq<byte>, nl: Newline): seq<byte> {
    PrintLines(p, nl) + Terminator(nl)
  }

  function PrintAll(payloads: seq<seq<byte>>, nl: Newline): seq<byte>
    decreases |payloads|
  {
    if payloads == [] then [] else Print(payloads[0], nl) + PrintAll(payloads[1..], nl)
  }

  /** A payload that survives the format: no CR, no trailing LF, not empty, text that decodes. */
  ghost predicate Printable(json: seq<byte> -> bool, p: seq<byte>) {
    && p != []
    && (forall k :: 0 <= k < |p| ==> p[k] != CR)
    && p[|p| - 1] != LF
    && Valid(p)
    && json(p)
  }

  predicate Fits(p: seq<byte>) {
    |p| + |LABEL| <= MAX_FRAME
  }

  const TOO_LONG: Log := Log([], Some(FrameTooLong))

  /** Bytes other than line ends are appended to the line until the frame bound stops them. */
  lemma {:induction false} ReadPlain(json: seq<byte> -> bool, r: Reader, s: seq<byte>, later: seq<byte>)
    requires forall k :: 0 <= k < |s| ==> s[k] != CR && s[k] != LF
    requires |r.line| + |r.data| <= MAX_FRAME && s != []
    ensures Frames(json, r, s + later) ==
      if |r.line| + |s| + |r.data| <= MAX_FRAME then Frames(json, r.(line := r.line + s, cr := false), later)
      else TOO_LONG
    decreases |s|
  {
    var r1 := r.(line := r.line + [s[0]], cr := false);
    assert (s + later)[1..] == s[1..] + later;
    assert FeedByte(json, r, s[0]) == Checked(r1);
    if |s| == 1 {
      assert s[1..] + later == later;
      assert r.line + s == r1.line;
    } else if |r1.line| + |r1.data| <= MAX_FRAME {
      ReadPlain(json, r1, s[1..], later);
      assert r1.line + s[1..] == r.line + s;
    }
  }

  /** A line terminator in any convention acts once. */
  lemma ReadTerminator(json: seq<byte> -> bool, r: Reader, nl: Newline, later: seq<byte>)
    requires nl.UseLf? ==> !r.cr
    ensures var fed := EndLine(json, r.(cr := nl.UseCr?));
      Frames(json, r, Terminator(nl) + later) ==
        match fed.emit
        case Quiet => Frames(json, fed.reader, later)
        case Frame(text) => Prepend(text, Frames(json, fed.reader, later))
        case Fault(error) => Log([], Some(error))
  {
    var bytes := Terminator(nl) + later;
    if nl.UseCrLf? {
      assert bytes[1..] == [LF] + later;
      var fed := EndLine(json, r.(cr := true));
      assert FeedByte(json, r, CR) == fed;
      if !fed.emit.Fault? {
        assert fed.reader.cr;
        assert FeedByte(json, fed.reader, LF) == Fed(fed.reader.(cr := false), Quiet);
        assert ([LF] + later)[1..] == later;
        assert EndLine(json, r.(cr := false)) == Fed(fed.reader.(cr := false), fed.emit);
      }
    } else {
      assert bytes[1..] == later;
    }
  }

  lemma LabelIsValid(l: seq<byte>)
    requires Valid(l)
    ensures Valid(LABEL + l)
  {
    assert LABEL == [100, 97, 116, 97, 58, 32];
    AsciiFrom(LABEL, 0);
    ValidConcat(LABEL, l);
  }

  lemma FieldValueOfLabel(l: seq<byte>)
    ensures FieldValue(LABEL + l) == Some(l)
  {
  }

  /** One printed line is read as its content, unless it breaks the frame bound. */
  lemma ReadLine(json: seq<byte> -> bool, r: Reader, l: seq<byte>, nl: Newline, later: seq<byte>)
    requires r.line == [] && |r.data| <= MAX_FRAME && Valid(l)
    requires forall k :: 0 <= k < |l| ==> l[k] != CR && l[k] != LF
    ensures Frames(json, r, LABEL + l + Terminator(nl) + later) ==
      if |r.data| + |l| + |LABEL| <= MAX_FRAME
      then Frames(json, Reader([], r.data + l + [LF], nl.UseCr?), later)
      else TOO_LONG
  {
    var s := LABEL + l;
    ConcatAssoc(s, Terminator(nl), later);
    ReadPlain(json, r, s, Terminator(nl) + later);
    assert r.line + s == s;
    if |r.data| + |s| <= MAX_FRAME {
      LabelIsValid(l);
      FieldValueOfLabel(l);
      ReadTerminator(json, Reader(s, r.data, false), nl, later);
    }
  }

  /** All lines of a payload, after `r.data` from lines before it. */
  lemma {:induction false} ReadLines(json: seq<byte> -> bool, r: Reader, p: seq<byte>, nl: Newline, later: seq<byte>)
    requires r.line == [] && |r.data| <= MAX_FRAME && Valid(p)
    requires forall k :: 0 <= k < |p| ==> p[k] != CR
    ensures Frames(json, r, PrintLines(p, nl) + later) ==
      if |r.data| + |p| + |LABEL| <= MAX_FRAME
      then Frames(json, Reader([], r.data + p + [LF], nl.UseCr?), later)
      else TOO_LONG
    decreases |p|
  {
    var i := FirstLf(p);
    if i == |p| {
      assert p[..i] == p;
      assert PrintLines(p, nl) == LABEL + p + Terminator(nl);
      ReadLine(json, r, p, nl, later);
    } else {
      var l, rest := p[..i], p[i + 1..];
      CutIsValid(p, i);
      ConcatAssoc(LABEL + l + Terminator(nl), PrintLines(rest, nl), later);
      ReadLine(json, r, l, nl, PrintLines(rest, nl) + later);
      if |r.data| + |l| + |LABEL| <= MAX_FRAME {
        ReadLines(json, Reader([], r.data + l + [LF], nl.UseCr?), rest, nl, later);
        CutRejoins(p, i, r.data);
      }
    }
  }

  lemma CutIsValid(p: seq<byte>, i: nat)
    requires Valid(p) && i < |p| && p[i] == LF
    ensures Valid(p[..i]) && Valid(p[i + 1..])
  {
    ValidSplit(p, i);
    StopsAt(p, 0, i);
    Shifted(p, p[i + 1..], i + 1, 0);
  }

  lemma CutRejoins(p: seq<byte>, i: nat, before: seq<byte>)
    requires i < |p| && p[i] == LF
    ensures before + p[..i] + [LF] + p[i + 1..] + [LF] == before + p + [LF]
  {
  }

  lemma TrimOne(p: seq<byte>)
    requires p != [] && p[|p| - 1] != LF
    ensures TrimEnd(p + [LF]) == p
  {
  }

  /** A printed payload is read back as one frame, or breaks the bound. */
  lemma ReadFrame(json: seq<byte> -> bool, cr: bool, p: seq<byte>, nl: Newline, later: seq<byte>)
    requires Printable(json, p)
    ensures Frames(json, Reader([], [], cr), Print(p, nl) + later) ==
      if Fits(p) then Prepend(p, Frames(json, Reader([], [], nl.UseCr?), later)) else TOO_LONG
  {
    var r := Reader([], [], cr);
    ConcatAssoc(PrintLines(p, nl), Terminator(nl), later);
    ReadLines(json, r, p, nl, Terminator(nl) + later);
    assert r.data + p + [LF] == p + [LF];
    if Fits(p) {
      TrimOne(p);
      ReadTerminator(json, Reader([], p + [LF], nl.UseCr?), nl, later);
    }
  }

  lemma {:induction false} ReadFrames(json: seq<byte> -> bool, cr: bool, payloads: seq<seq<byte>>, nl: Newline)
    requires forall i :: 0 <= i < |payloads| ==> Printable(json, payloads[i])
    ensures var log := Frames(json, Reader([], [], cr), PrintAll(payloads, nl));
      log == Log(payloads, None) <==> forall i :: 0 <= i < |payloads| ==> Fits(payloads[i])
    ensures var log := Frames(json, Reader([], [], cr), PrintAll(payloads, nl));
      log.error.None? || log.error == Some(FrameTooLong)
    decreases |payloads|
  {
    if payloads != [] {
      ReadFrame(json, cr, payloads[0], nl, PrintAll(payloads[1..], nl));
      if Fits(payloads[0]) {
        ReadFrames(json, nl.UseCr?, payloads[1..], nl);
        var log := Frames(json, Reader([], [], nl.UseCr?), PrintAll(payloads[1..], nl));
        assert [payloads[0]] + payloads[1..] == payloads;
        assert ([payloads[0]] + log.frames)[1..] == log.frames;
      }
    }
  }

  /**
   Any list of printable payloads, printed with one newline convention and cut into any
   bounded chunks, reads back as exactly that list if and only if every payload fits the
   frame bound; the only other outcome is the error for an oversized frame.
   */
  lemma PrintedPayloadsReadBack(json: seq<byte> -> bool, payloads: seq<seq<byte>>, nl: Newline, chunks: seq<seq<byte>>)
    requires forall i :: 0 <= i < |payloads| ==> Printable(json, payloads[i])
    requires InBounds(chunks) && Joined(chunks) == PrintAll(payloads, nl)
    ensures ReadAll(json, START, [], chunks) == Log(payloads, None) <==>
      forall i :: 0 <= i < |payloads| ==> Fits(payloads[i])
    ensures ReadAll(json, START, [], chunks).error.Some? ==>
      ReadAll(json, START, [], chunks).error == Some(FrameTooLong)
  {
    ReadAllIsFrames(json, START, [], chunks);
    assert [] + Joined(chunks) == Joined(chunks);
    ReadFrames(json, false, payloads, nl);
  }

  /** The reader object, fed by an HTTP body that yields chunks. */
  class EventLog {
    var line: seq<byte>
    var data: seq<byte>
    var cr: bool
    var pending: seq<byte>
    var body: seq<seq<byte>>

    constructor (body: seq<seq<byte>>)
      ensures Snapshot() == START && pending == [] && this.body == body
    {
      line, data, cr, pending := [], [], false, [];
      this.body := body;
    }

    function Snapshot(): Reader
      reads this
    {
      Reader(line, data, cr)
    }

    method NextEvent(json: seq<byte> -> bool) returns (answer: Answer)
      modifies this
      ensures Pull(answer, Snapshot(), pending, body) == Next(json, old(Snapshot()), old(pending), old(body))
    {
      while true
        invariant Next(json, Snapshot(), pending, body) == Next(json, old(Snapshot()), old(pending), old(body))
        decreases Weight(pending, body)
      {
        if pending == [] {
          if body == [] {
            return if line == [] && data == [] then End else Refused(PartialFrame);
          }
          var chunk := body[0];
          body := body[1..];
          if |chunk| > MAX_FRAME {
            return Refused(ChunkTooLong);
          }
          pending := chunk;
        }
        var bytes := pending;
        var emit;
        emit, pending := Consume(json, bytes);
        match emit {
          case Quiet =>
          case Frame(text) => return Event(text);
          case Fault(error) =>
            pending := [];
            return Refused(error);
        }
      }
    }

    /** The loop over the bytes of one chunk. */
    method Consume(json: seq<byte> -> bool, bytes: seq<byte>) returns (emit: Emit, rest: seq<byte>)
      modifies this`line, this`data, this`cr
      ensures Scan(Snapshot(), rest, emit) == ScanChunk(json, old(Snapshot()), bytes)
    {
      var index := 0;
      while index < |bytes|
        invariant index <= |bytes|
        invariant ScanChunk(json, Snapshot(), bytes[index..]) == ScanChunk(json, old(Snapshot()), bytes)
      {
        assert bytes[index..][1..] == bytes[index + 1..];
        emit := Accept(json, bytes[index]);
        index := index + 1;
        if !emit.Quiet? {
          return emit, bytes[index..];
        }
      }
      return Quiet, [];
    }

    method Accept(json: seq<byte> -> bool, b: byte) returns (emit: Emit)
      modifies this`line, this`data, this`cr
      ensures Fed(Snapshot(), emit) == FeedByte(json, old(Snapshot()), b)
    {
      if cr {
        cr := false;
        if b == LF {
          return Quiet;
        }
      }
      if b == CR || b == LF {
        cr := b == CR;
        if !Valid(line) {
          return Fault(NotUtf8);
        }
        if line == [] && data != [] {
          var text := TrimEnd(data);
          if !json(text) {
            return Fault(BadJson);
          }
          data := [];
          return Frame(text);
        }
        var value := FieldValue(line);
        if value.Some? {
          data := data + value.value + [LF];
        }
        line := [];
      } else {
        line := line + [b];
      }
      emit := if |line| + |data| > MAX_FRAME then Fault(FrameTooLong) else Quiet;
    }
  }
}

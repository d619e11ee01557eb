/** What any byte stream means to the event reader, line by line, without the byte automaton. */
module SseDocument {
  import opened Common
  import opened Utf8
  import opened Sse
  import opened SseRoundTrip

  datatype Line = Line(text: seq<byte>, nl: Newline)

  predicate NoLineEnd(s: seq<byte>) {
    forall i :: 0 <= i < |s| ==> s[i] != CR && s[i] != LF
  }

  function TextOf(lines: seq<Line>): seq<byte>
    decreases |lines|
  {
    if lines == [] then [] else lines[0].text + Terminator(lines[0].nl) + TextOf(lines[1..])
  }

  /** After a bare carriage return, a line feed would have belonged to it. */
  predicate Splits(cr: bool, lines: seq<Line>) {
    cr && lines != [] ==> lines[0] != Line([], UseLf)
  }

  ghost predicate Proper(lines: seq<Line>)
    decreases |lines|
  {
    lines != [] ==> NoLineEnd(lines[0].text) && Splits(lines[0].nl.UseCr?, lines[1..]) && Proper(lines[1..])
  }

  // ----- Fields and payloads -----

  /** The value of a line `data`, `data:value` or `data: value`; other lines have none. */
  function DataValue(text: seq<byte>): Option<seq<byte>> {
    if text == [100, 97, 116, 97] || text == [100, 97, 116, 97, 58] then Some([])
    else if StartsWith(text, [100, 97, 116, 97, 58, 32]) then Some(text[6..])
    else if StartsWith(text, [100, 97, 116, 97, 58]) then Some(text[5..])
    else None
  }

  function Size(values: seq<seq<byte>>): nat {
    if values == [] then 0 else Size(values[..|values| - 1]) + |values[|values| - 1]| + 1
  }

  /** The values on lines of their own, without the empty ones at the end. */
  function Payload(values: seq<seq<byte>>): seq<byte> {
    if values == [] then [] else
    var n := |values| - 1;
    if values[n] == [] then Payload(values[..n]) else Kept(values[..n]) + values[n]
  }

  /** Every value followed by a line feed. */
  function Kept(values: seq<seq<byte>>): seq<byte> {
    if values == [] then [] else Kept(values[..|values| - 1]) + values[|values| - 1] + [LF]
  }

  function Refusal(error: Error): Log {
    Log([], Some(error))
  }

  /** The payloads a document dispatches, or the first thing wrong with it. `values` are the data lines so far. */
  function Meaning(json: seq<byte> -> bool, values: seq<seq<byte>>, lines: seq<Line>, tail: seq<byte>): Log
    decreases |lines|
  {
    if lines == [] then
      if Size(values) + |tail| > 0x80_0000 then Refusal(FrameTooLong)
      else Log([], if values == [] && tail == [] then None else Some(PartialFrame))
    else
      var text := lines[0].text;
      if Size(values) + |text| > 0x80_0000 then Refusal(FrameTooLong)
      else if !Valid(text) then Refusal(NotUtf8)
      else if text == [] && values != [] then
        if !json(Payload(values)) then Refusal(BadJson)
        else Prepend(Payload(values), Meaning(json, [], lines[1..], tail))
      else match DataValue(text)
        case None => Meaning(json, values, lines[1..], tail)
        case Some(value) => Meaning(json, values + [value], lines[1..], tail)
  }

  lemma FieldValueIs(text: seq<byte>)
    ensures FieldValue(text) == DataValue(text)
  {
    if StartsWith(text, FIELD) {
      var value := text[5..];
      assert text == FIELD + value;
      if value != [] && value[0] == 32 {
        assert text[..6] == FIELD + [32] && value[1..] == text[6..];
      }
      if StartsWith(text, FIELD + [32]) {
        assert text[..6][5] == text[5];
      }
    }
    assert FIELD[..4] == [100, 97, 116, 97];
  }

  lemma {:induction false} KeptHasSize(values: seq<seq<byte>>)
    ensures |Kept(values)| == Size(values) && (Kept(values) == [] <==> values == [])
  {
    if values != [] {
      KeptHasSize(values[..|values| - 1]);
    }
  }

  ghost predicate AllPlain(values: seq<seq<byte>>) {
    forall i :: 0 <= i < |values| ==> NoLineEnd(values[i])
  }

  /** Trimming line feeds drops exactly the empty values at the end. */
  lemma {:induction false} TrimIsPayload(values: seq<seq<byte>>)
    requires AllPlain(values)
    ensures TrimEnd(Kept(values)) == Payload(values)
  {
    if values != [] {
      var n := |values| - 1;
      var before, last := Kept(values[..n]), values[n];
      TakeBeforeLast(before + last, LF);
      if last == [] {
        assert before + last == before;
        TrimIsPayload(values[..n]);
      } else {
        assert (before + last)[|before + last| - 1] == last[|last| - 1];
      }
    }
  }

  lemma KeptGrows(values: seq<seq<byte>>, value: seq<byte>)
    ensures Kept(values + [value]) == Kept(values) + value + [LF]
    ensures Size(values + [value]) == Size(values) + |value| + 1
  {
    TakeBeforeLast(values, value);
  }

  /** A data value is part of its line. */
  lemma ValueIsPlain(text: seq<byte>)
    requires NoLineEnd(text) && DataValue(text).Some?
    ensures NoLineEnd(DataValue(text).value) && |DataValue(text).value| + 1 <= |text|
  {
  }

  // ----- One line -----

  lemma EndLineDispatches(json: seq<byte> -> bool, values: seq<seq<byte>>, cr: bool)
    requires AllPlain(values) && values != []
    ensures EndLine(json, Reader([], Kept(values), cr)) ==
      if json(Payload(values)) then Fed(Reader([], [], cr), Frame(Payload(values)))
      else Fed(Reader([], Kept(values), cr), Fault(BadJson))
  {
    KeptHasSize(values);
    TrimIsPayload(values);
  }

  lemma EndLineCollects(json: seq<byte> -> bool, text: seq<byte>, values: seq<seq<byte>>, cr: bool)
    requires Valid(text) && NoLineEnd(text) && (text != [] || values == []) && Size(values) + |text| <= MAX_FRAME
    ensures var more := if DataValue(text).Some? then values + [DataValue(text).value] else values;
      Size(more) <= MAX_FRAME && EndLine(json, Reader(text, Kept(values), cr)) == Fed(Reader([], Kept(more), cr), Quiet)
  {
    KeptHasSize(values);
    FieldValueIs(text);
    if DataValue(text).Some? {
      ValueIsPlain(text);
      KeptGrows(values, DataValue(text).value);
      KeptHasSize(values + [DataValue(text).value]);
    }
  }

  /** A line up to its terminator, unless the frame bound stops it. */
  lemma ReadUpToTerminator(
    json: seq<byte> -> bool, data: seq<byte>, cr: bool, text: seq<byte>, nl: Newline, later: seq<byte>)
    requires NoLineEnd(text) && |data| <= MAX_FRAME && (cr && text == [] ==> !nl.UseLf?)
    ensures Frames(json, Reader([], data, cr), text + Terminator(nl) + later) ==
      if |data| + |text| > MAX_FRAME then TOO_LONG else
      var fed := EndLine(json, Reader(text, data, nl.UseCr?));
      match fed.emit
      case Quiet => Frames(json, fed.reader, later)
      case Frame(payload) => Prepend(payload, Frames(json, fed.reader, later))
      case Fault(error) => Log([], Some(error))
  {
    ConcatAssoc(text, Terminator(nl), later);
    if text == [] {
      assert text + (Terminator(nl) + later) == Terminator(nl) + later;
      ReadTerminator(json, Reader([], data, cr), nl, later);
    } else {
      ReadPlain(json, Reader([], data, cr), text, Terminator(nl) + later);
      assert [] + text == text;
      ReadTerminator(json, Reader(text, data, false), nl, later);
    }
  }

  /** What is read of a line with these values before it, when `later` follows. */
  function LineMeans(
    json: seq<byte> -> bool, values: seq<seq<byte>>, line: Line, later: seq<byte>): Log
  {
    var cr := line.nl.UseCr?;
    if Size(values) + |line.text| > MAX_FRAME then TOO_LONG
    else if !Valid(line.text) then Refusal(NotUtf8)
    else if line.text == [] && values != [] then
      if !json(Payload(values)) then Refusal(BadJson)
      else Prepend(Payload(values), Frames(json, Reader([], [], cr), later))
    else Frames(json, Reader([], Kept(Collected(values, line.text)), cr), later)
  }

  lemma LineIsRead(json: seq<byte> -> bool, cr: bool, values: seq<seq<byte>>, line: Line, later: seq<byte>)
    requires NoLineEnd(line.text) && AllPlain(values) && Size(values) <= MAX_FRAME && Splits(cr, [line])
    ensures Frames(json, Reader([], Kept(values), cr), line.text + Terminator(line.nl) + later)
         == LineMeans(json, values, line, later)
  {
    KeptHasSize(values);
    ReadUpToTerminator(json, Kept(values), cr, line.text, line.nl, later);
    if Size(values) + |line.text| <= MAX_FRAME && Valid(line.text) {
      if line.text == [] && values != [] {
        EndLineDispatches(json, values, line.nl.UseCr?);
      } else {
        EndLineCollects(json, line.text, values, line.nl.UseCr?);
      }
    }
  }

  lemma TailIsRead(json: seq<byte> -> bool, cr: bool, values: seq<seq<byte>>, tail: seq<byte>)
    requires NoLineEnd(tail) && Size(values) <= MAX_FRAME
    ensures Frames(json, Reader([], Kept(values), cr), tail) == Meaning(json, values, [], tail)
  {
    KeptHasSize(values);
    if tail != [] {
      ReadPlain(json, Reader([], Kept(values), cr), tail, []);
      assert tail + [] == tail && [] + tail == tail;
    }
  }

  /** One line of a document means what is read of it, if the rest does. */
  lemma MeaningStep(
    json: seq<byte> -> bool, values: seq<seq<byte>>, lines: seq<Line>, tail: seq<byte>, later: seq<byte>)
    requires lines != []
    requires var text, cr := lines[0].text, lines[0].nl.UseCr?;
      if text == [] && values != []
      then Frames(json, Reader([], [], cr), later) == Meaning(json, [], lines[1..], tail)
      else Size(values) + |text| <= MAX_FRAME && Valid(text) ==>
        Frames(json, Reader([], Kept(Collected(values, text)), cr), later)
        == Meaning(json, Collected(values, text), lines[1..], tail)
    ensures LineMeans(json, values, lines[0], later) == Meaning(json, values, lines, tail)
  {
  }

  lemma EmptyIsKept()
    ensures Kept([]) == [] && Size([]) == 0 && AllPlain([])
  {
  }

  lemma CollectedFits(values: seq<seq<byte>>, text: seq<byte>)
    requires NoLineEnd(text) && (text != [] || values == []) && Size(values) + |text| <= MAX_FRAME
    ensures Size(Collected(values, text)) <= MAX_FRAME
  {
    if DataValue(text).Some? {
      ValueIsPlain(text);
      KeptGrows(values, DataValue(text).value);
    }
  }

  /** The byte automaton reads every document as its lines mean. */
  lemma {:induction false} FramesAreMeaning(
    json: seq<byte> -> bool, cr: bool, values: seq<seq<byte>>, lines: seq<Line>, tail: seq<byte>)
    requires Proper(lines) && Splits(cr, lines) && NoLineEnd(tail) && AllPlain(values) && Size(values) <= MAX_FRAME
    ensures Frames(json, Reader([], Kept(values), cr), TextOf(lines) + tail) == Meaning(json, values, lines, tail)
    decreases |lines|
  {
    if lines == [] {
      assert TextOf(lines) + tail == tail;
      TailIsRead(json, cr, values, tail);
    } else {
      var line, later := lines[0], TextOf(lines[1..]) + tail;
      ConcatAssoc(line.text + Terminator(line.nl), TextOf(lines[1..]), tail);
      LineIsRead(json, cr, values, line, later);
      if line.text == [] && values != [] {
        EmptyIsKept();
        FramesAreMeaning(json, line.nl.UseCr?, [], lines[1..], tail);
      } else if Size(values) + |line.text| <= MAX_FRAME {
        CollectedFits(values, line.text);
        FramesAreMeaning(json, line.nl.UseCr?, Collected(values, line.text), lines[1..], tail);
      }
      MeaningStep(json, values, lines, tail, later);
    }
  }

  /** The values once this line was read. */
  function Collected(values: seq<seq<byte>>, text: seq<byte>): (more: seq<seq<byte>>)
    ensures AllPlain(values) && NoLineEnd(text) ==> AllPlain(more)
  {
    if DataValue(text).Some? then values + [DataValue(text).value] else values
  }

  // ----- Every stream is a document -----

  /** Any bytes at all are lines ended in one of the three ways, and what follows the last of them. */
  lemma {:induction false} StreamIsDocument(bytes: seq<byte>) returns (lines: seq<Line>, tail: seq<byte>)
    ensures Proper(lines) && NoLineEnd(tail) && bytes == TextOf(lines) + tail
    ensures bytes != [] && bytes[0] != LF ==> Splits(true, lines)
    decreases |bytes|
  {
    if i :| 0 <= i < |bytes| && (bytes[i] == CR || bytes[i] == LF) && NoLineEnd(bytes[..i]) {
      var nl := if bytes[i] == LF then UseLf else if i + 1 < |bytes| && bytes[i + 1] == LF then UseCrLf else UseCr;
      var later := bytes[i + |Terminator(nl)|..];
      assert bytes == bytes[..i] + Terminator(nl) + later;
      var rest;
      rest, tail := StreamIsDocument(later);
      lines := [Line(bytes[..i], nl)] + rest;
      TailOf(Line(bytes[..i], nl), rest);
      ConcatAssoc(bytes[..i] + Terminator(nl), TextOf(rest), tail);
    } else {
      NoLineEndAtAll(bytes, |bytes|);
      lines, tail := [], bytes;
    }
  }

  lemma {:induction false} NoLineEndAtAll(bytes: seq<byte>, n: nat)
    requires n <= |bytes|
    requires forall i :: 0 <= i < |bytes| && (bytes[i] == CR || bytes[i] == LF) ==> !NoLineEnd(bytes[..i])
    ensures NoLineEnd(bytes[..n]) && bytes[..|bytes|] == bytes
    decreases n
  {
    if n > 0 {
      NoLineEndAtAll(bytes, n - 1);
      SplitLast(bytes[..n]);
      assert bytes[..n][..n - 1] == bytes[..n - 1];
    }
  }

  /**
   Whatever the bytes and however they are cut into bounded chunks, the log reads them as the
   document they are: lines ended in any of the three ways, data lines collected, every other line
   ignored, a blank line dispatching what was collected, and the first violation reported.
   */
  lemma LogReadsTheDocument(json: seq<byte> -> bool, chunks: seq<seq<byte>>, lines: seq<Line>, tail: seq<byte>)
    requires InBounds(chunks) && Joined(chunks) == TextOf(lines) + tail && Proper(lines) && NoLineEnd(tail)
    ensures ReadAll(json, START, [], chunks) == Meaning(json, [], lines, tail)
  {
    ReadAllIsFrames(json, START, [], chunks);
    assert [] + Joined(chunks) == Joined(chunks);
    FramesAreMeaning(json, false, [], lines, tail);
  }
}

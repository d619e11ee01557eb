/** The streaming redactor as an object that holds back a suffix of the message. */
module RedactionBuffer {
  import opened Common
  import opened Redaction
  import opened RedactionStream
  import opened RedactionAgreement
  import Utf8

  datatype Hit = Hit(start: nat, length: nat)

  /** `str::find` from `cursor` on, cut off at `ready`. */
  function Find(raw: seq<byte>, cursor: nat, ready: nat, literal: seq<byte>): (at: Option<nat>)
    requires cursor <= ready <= |raw|
    ensures at.None? ==> forall s :: cursor <= s < ready ==> !StartsWith(raw[s..], literal)
    ensures at.Some? ==> cursor <= at.value < ready && StartsWith(raw[at.value..], literal)
    ensures at.Some? ==> forall s :: cursor <= s < at.value ==> !StartsWith(raw[s..], literal)
    decreases ready - cursor
  {
    if cursor == ready then None
    else if StartsWith(raw[cursor..], literal) then Some(cursor)
    else Find(raw, cursor + 1, ready, literal)
  }

  /** No literal starts in `[from, stop)`. */
  ghost predicate Plain(raw: seq<byte>, from: nat, stop: nat, literals: Literals)
    requires stop <= |raw|
    decreases stop - from
  {
    from < stop ==> Longest(raw[from..], literals) == 0 && Plain(raw, from + 1, stop, literals)
  }

  lemma {:induction false} PlainWithOneMore(raw: seq<byte>, from: nat, stop: nat, literals: Literals)
    requires stop <= |raw| && literals != [] && Plain(raw, from, stop, literals[1..])
    requires forall s :: from <= s < stop ==> !StartsWith(raw[s..], literals[0])
    ensures Plain(raw, from, stop, literals)
    decreases stop - from
  {
    if from < stop {
      PlainWithOneMore(raw, from + 1, stop, literals);
    }
  }

  lemma {:induction false} PlainPart(raw: seq<byte>, from: nat, mid: nat, stop: nat, literals: Literals)
    requires from <= mid <= stop <= |raw| && Plain(raw, from, stop, literals)
    ensures Plain(raw, from, mid, literals)
    ensures mid < stop ==> Longest(raw[mid..], literals) == 0
    decreases mid - from
  {
    if from < mid {
      PlainPart(raw, from + 1, mid, stop, literals);
    }
  }

  /** The leftmost secret starting before `ready`, the longest one there. */
  function Earliest(raw: seq<byte>, cursor: nat, ready: nat, literals: Literals): (hit: Option<Hit>)
    requires NonEmpty(literals) && cursor <= ready <= |raw|
    ensures hit.Some? ==> cursor <= hit.value.start < ready && 0 < hit.value.length <= |raw| - hit.value.start
    decreases |literals|
  {
    if literals == [] then None else
    var rest := Earliest(raw, cursor, ready, literals[1..]);
    var first := Find(raw, cursor, ready, literals[0]);
    if first.None? then rest
    else if rest.None? || first.value < rest.value.start
         || (first.value == rest.value.start && |literals[0]| > rest.value.length)
    then Some(Hit(first.value, |literals[0]|))
    else rest
  }

  lemma {:induction false} EarliestIsLeftmostLongest(raw: seq<byte>, cursor: nat, ready: nat, literals: Literals)
    requires NonEmpty(literals) && cursor <= ready <= |raw|
    ensures var hit := Earliest(raw, cursor, ready, literals);
      && (hit.None? ==> Plain(raw, cursor, ready, literals))
      && (hit.Some? ==>
            && hit.value.length == Longest(raw[hit.value.start..], literals)
            && Plain(raw, cursor, hit.value.start, literals))
    decreases |literals|
  {
    if literals != [] {
      EarliestIsLeftmostLongest(raw, cursor, ready, literals[1..]);
      var rest := Earliest(raw, cursor, ready, literals[1..]);
      var quiet := if rest.Some? then rest.value.start else ready;
      var first := Find(raw, cursor, ready, literals[0]);
      var stop := if first.Some? && first.value < quiet then first.value else quiet;
      PlainPart(raw, cursor, stop, quiet, literals[1..]);
      PlainWithOneMore(raw, cursor, stop, literals);
    } else {
      PlainOfNothing(raw, cursor, ready);
    }
  }

  lemma {:induction false} PlainOfNothing(raw: seq<byte>, from: nat, stop: nat)
    requires stop <= |raw|
    ensures Plain(raw, from, stop, [])
    decreases stop - from
  {
    if from < stop {
      PlainOfNothing(raw, from + 1, stop);
    }
  }

  lemma LiftFirst(raw: seq<byte>, from: nat, stop: nat)
    requires from < stop <= |raw|
    ensures Lift(raw[from..stop]) == [Byte(raw[from])] + Lift(raw[from + 1..stop])
  {
  }

  lemma ScanByte(text: seq<byte>, ready: nat, tail: seq<byte>, literals: Literals)
    requires 0 < ready <= |text| && Longest(text, literals) == 0 && tail == text[1..]
    ensures var x := ScanReady(tail, ready - 1, literals);
      ScanReady(text, ready, literals) == Partial([Byte(text[0])] + x.out, x.rest)
  {
  }

  /** A stretch in which nothing starts is scanned as itself. */
  lemma {:induction false} ScanPlain(raw: seq<byte>, from: nat, stop: nat, ready: nat, literals: Literals, x: Partial)
    requires from <= stop <= ready <= |raw| && Plain(raw, from, stop, literals)
    requires x == ScanReady(raw[stop..], ready - stop, literals)
    ensures ScanReady(raw[from..], ready - from, literals) == Partial(Lift(raw[from..stop]) + x.out, x.rest)
    decreases stop - from
  {
    if from == stop {
      assert Lift(raw[from..stop]) + x.out == x.out;
    } else {
      var here, tail := raw[from..], raw[from + 1..];
      ScanPlain(raw, from + 1, stop, ready, literals, x);
      CutTwice(raw, from, from + 1);
      ScanByte(here, ready - from, tail, literals);
      LiftFirst(raw, from, stop);
      ConcatAssoc([Byte(raw[from])], Lift(raw[from + 1..stop]), x.out);
    }
  }

  lemma FlattenPlain(s: seq<byte>, x: seq<Symbol>)
    ensures Flatten(Lift(s) + x) == s + Flatten(x)
  {
    FlattenConcat(Lift(s), x);
    FlattenLift(s);
  }

  lemma ScanMark(text: seq<byte>, ready: nat, literals: Literals)
    requires 0 < ready <= |text| && Longest(text, literals) > 0
    ensures var n := Longest(text, literals);
      var x, there := ScanReady(text, ready, literals), ScanReady(text[n..], Minus(ready, n), literals);
      Flatten(x.out) == MARKER + Flatten(there.out) && x.rest == there.rest
  {
    var n := Longest(text, literals);
    var x, there := ScanReady(text, ready, literals), ScanReady(text[n..], Minus(ready, n), literals);
    assert x.out[1..] == there.out;
  }

  /** The scan from `cursor` on has still to produce `output` and leave `rest`. */
  ghost predicate Remaining(raw: seq<byte>, cursor: nat, ready: nat, literals: Literals, output: seq<byte>,
                            rest: seq<byte>)
    requires cursor <= |raw| && ready <= |raw|
  {
    Left(raw[cursor..], Minus(ready, cursor), literals, output, rest)
  }

  ghost predicate Left(text: seq<byte>, ready: nat, literals: Literals, output: seq<byte>, rest: seq<byte>)
    requires ready <= |text|
  {
    var x := ScanReady(text, ready, literals);
    Flatten(x.out) == output && x.rest == rest
  }

  lemma RemainingAtStart(raw: seq<byte>, ready: nat, literals: Literals) returns (output: seq<byte>, rest: seq<byte>)
    requires ready <= |raw|
    ensures Remaining(raw, 0, ready, literals, output, rest)
    ensures output == Flatten(ScanReady(raw, ready, literals).out) && rest == ScanReady(raw, ready, literals).rest
  {
    assert raw[0..] == raw;
    output, rest := Flatten(ScanReady(raw, ready, literals).out), ScanReady(raw, ready, literals).rest;
  }

  lemma RemainingAtEnd(raw: seq<byte>, cursor: nat, ready: nat, literals: Literals, output: seq<byte>, rest: seq<byte>)
    requires ready <= cursor <= |raw| && Remaining(raw, cursor, ready, literals, output, rest)
    ensures output == [] && rest == raw[cursor..]
  {
  }

  /** A turn of the feed loop: copy up to `start`. */
  lemma TurnCopies(raw: seq<byte>, cursor: nat, start: nat, ready: nat, literals: Literals, output: seq<byte>,
                   rest: seq<byte>)
    requires cursor <= start <= ready <= |raw| && Plain(raw, cursor, start, literals)
    requires Remaining(raw, cursor, ready, literals, output, rest)
    ensures StartsWith(output, raw[cursor..start])
    ensures Remaining(raw, start, ready, literals, output[start - cursor..], rest)
  {
    var x := ScanReady(raw[start..], ready - start, literals);
    ScanPlain(raw, cursor, start, ready, literals, x);
    FlattenPlain(raw[cursor..start], x.out);
  }

  /** A turn of the feed loop: replace the secret at `start`. */
  lemma TurnMarks(raw: seq<byte>, start: nat, ready: nat, literals: Literals, output: seq<byte>, rest: seq<byte>)
    requires start < ready <= |raw| && Longest(raw[start..], literals) > 0
    requires Remaining(raw, start, ready, literals, output, rest)
    ensures StartsWith(output, MARKER)
    ensures Remaining(raw, start + Longest(raw[start..], literals), ready, literals, output[|MARKER|..], rest)
  {
    var n := Longest(raw[start..], literals);
    MarkLeft(raw[start..], ready - start, literals, output, rest);
    CutTwice(raw, start, start + n);
    assert Minus(ready - start, n) == Minus(ready, start + n);
  }

  lemma MarkLeft(text: seq<byte>, ready: nat, literals: Literals, output: seq<byte>, rest: seq<byte>)
    requires 0 < ready <= |text| && Longest(text, literals) > 0 && Left(text, ready, literals, output, rest)
    ensures StartsWith(output, MARKER)
    ensures var n := Longest(text, literals); Left(text[n..], Minus(ready, n), literals, output[|MARKER|..], rest)
  {
    var n := Longest(text, literals);
    ScanMark(text, ready, literals);
    DropsMarker(output, Flatten(ScanReady(text[n..], Minus(ready, n), literals).out));
  }

  lemma DropsMarker(output: seq<byte>, more: seq<byte>)
    requires output == MARKER + more
    ensures StartsWith(output, MARKER) && output[|MARKER|..] == more
  {
  }

  /** What one turn of the feed loop emits, and where the next one starts. */
  function Piece(raw: seq<byte>, cursor: nat, ready: nat, next: Option<Hit>): seq<byte>
    requires cursor <= ready <= |raw| && (next.Some? ==> cursor <= next.value.start < ready)
  {
    if next.Some? then raw[cursor..next.value.start] + MARKER else raw[cursor..ready]
  }

  function NextCursor(ready: nat, next: Option<Hit>): nat {
    if next.Some? then next.value.start + next.value.length else ready
  }

  lemma PrefixTwice<T>(s: seq<T>, a: seq<T>, b: seq<T>)
    requires StartsWith(s, a) && StartsWith(s[|a|..], b)
    ensures StartsWith(s, a + b) && s[|a|..][|b|..] == s[|a + b|..]
  {
  }

  /** What one turn has to establish. */
  ghost predicate Turned(raw: seq<byte>, cursor: nat, ready: nat, literals: Literals, next: Option<Hit>,
                         output: seq<byte>, rest: seq<byte>)
    requires cursor <= ready <= |raw|
    requires next.Some? ==> cursor <= next.value.start < ready && next.value.start + next.value.length <= |raw|
  {
    var piece := Piece(raw, cursor, ready, next);
    && StartsWith(output, piece)
    && Remaining(raw, NextCursor(ready, next), ready, literals, output[|piece|..], rest)
  }

  lemma TurnHits(raw: seq<byte>, cursor: nat, hit: Hit, ready: nat, literals: Literals, output: seq<byte>,
                 rest: seq<byte>)
    requires cursor <= hit.start < ready <= |raw| && Plain(raw, cursor, hit.start, literals)
    requires hit.length == Longest(raw[hit.start..], literals) > 0
    requires Remaining(raw, cursor, ready, literals, output, rest)
    ensures Turned(raw, cursor, ready, literals, Some(hit), output, rest)
  {
    var copied := raw[cursor..hit.start];
    TurnCopies(raw, cursor, hit.start, ready, literals, output, rest);
    var middle := output[|copied|..];
    TurnMarks(raw, hit.start, ready, literals, middle, rest);
    TurnedBoth(raw, cursor, hit, ready, literals, output, copied, middle, rest);
  }

  lemma TurnedBoth(raw: seq<byte>, cursor: nat, hit: Hit, ready: nat, literals: Literals,
                   output: seq<byte>, copied: seq<byte>, middle: seq<byte>, rest: seq<byte>)
    requires cursor <= hit.start < ready <= |raw| && hit.start + hit.length <= |raw| && copied == raw[cursor..hit.start]
    requires StartsWith(output, copied) && middle == output[|copied|..] && StartsWith(middle, MARKER)
    requires hit.length > 0
    requires Remaining(raw, hit.start + hit.length, ready, literals, middle[|MARKER|..], rest)
    ensures Turned(raw, cursor, ready, literals, Some(hit), output, rest)
  {
    PrefixTwice(output, copied, MARKER);
  }

  /** One turn of the feed loop. */
  lemma Turn(raw: seq<byte>, cursor: nat, ready: nat, literals: Literals, output: seq<byte>, rest: seq<byte>)
    requires NonEmpty(literals) && cursor < ready <= |raw| && Remaining(raw, cursor, ready, literals, output, rest)
    ensures Turned(raw, cursor, ready, literals, Earliest(raw, cursor, ready, literals), output, rest)
  {
    EarliestIsLeftmostLongest(raw, cursor, ready, literals);
    var next := Earliest(raw, cursor, ready, literals);
    if next.Some? {
      TurnHits(raw, cursor, next.value, ready, literals, output, rest);
      assert next == Some(next.value);
    } else {
      TurnCopies(raw, cursor, ready, ready, literals, output, rest);
    }
  }

  class StreamingRedactor {
    const literals: Literals
    var pending: seq<byte>

    ghost predicate Valid()
      reads this
    {
      && NonEmpty(literals)
      && AllValid(literals)
      && Utf8.Valid(pending)
      && (literals == [] ==> pending == [])
      && (literals != [] ==> |pending| <= MaxLength(literals) - 1 + 3)
    }

    constructor (literals: Literals)
      requires NonEmpty(literals) && AllValid(literals)
      ensures Valid() && this.literals == literals && pending == []
    {
      this.literals, this.pending := literals, [];
      new;
      if literals != [] {
        LongestCovers([], literals, 0);
      }
    }

    /** Returns the text that is safe to persist now; the rest may still become a secret. */
    method Feed(fragment: seq<byte>) returns (output: seq<byte>)
      requires Valid() && Utf8.Valid(fragment)
      modifies this
      ensures Valid()
      ensures Fed(output, pending) == FeedStep(literals, old(pending), fragment)
    {
      if literals == [] {
        return fragment;
      }
      var raw := pending + fragment;
      var keep := if MaxLength(literals) > 0 then MaxLength(literals) - 1 else 0;
      var ready: nat := Minus(|raw|, keep);
      while !Utf8.Boundary(raw, ready)
        invariant ready <= |raw| && BoundaryAtMost(raw, ready) == ReadyIndex(raw, literals)
        decreases ready
      {
        ready := ready - 1;
      }
      var safe := ScanLoop(raw, ready);
      HeldBackIsBounded(literals, old(pending), fragment);
      output := RedactLiterals(safe, literals);
    }

    /** The loop over `cursor`, leaving the unscanned suffix in `pending`. */
    method ScanLoop(raw: seq<byte>, ready: nat) returns (safe: seq<byte>)
      requires NonEmpty(literals) && ready <= |raw|
      modifies this`pending
      ensures safe == Flatten(ScanReady(raw, ready, literals).out)
      ensures pending == ScanReady(raw, ready, literals).rest
    {
      var cursor := 0;
      safe := [];
      ghost var total, rest := RemainingAtStart(raw, ready, literals);
      ghost var ahead := total;
      while cursor < ready
        invariant cursor <= |raw|
        invariant Remaining(raw, cursor, ready, literals, ahead, rest)
        invariant safe + ahead == total
        decreases |raw| - cursor
      {
        var next := Earliest(raw, cursor, ready, literals);
        Turn(raw, cursor, ready, literals, ahead, rest);
        var piece := Piece(raw, cursor, ready, next);
        ConcatSplit(safe, ahead, piece);
        safe := safe + piece;
        ahead := ahead[|piece|..];
        cursor := NextCursor(ready, next);
      }
      RemainingAtEnd(raw, cursor, ready, literals, ahead, rest);
      pending := raw[cursor..];
    }

    /** Resolves the suffix at the end of the message. */
    method Finish() returns (output: seq<byte>)
      requires Valid()
      modifies this
      ensures Valid() && pending == []
      ensures output == Stream(literals, old(pending), [])
    {
      output := RedactLiterals(pending, literals);
      pending := [];
      if literals != [] {
        LongestCovers([], literals, 0);
      }
    }

    /** A whole message, fragment by fragment. */
    method Message(fragments: seq<seq<byte>>) returns (output: seq<byte>)
      requires Valid() && pending == [] && forall i :: 0 <= i < |fragments| ==> Utf8.Valid(fragments[i])
      modifies this
      ensures Valid() && pending == []
      ensures output == Stream(literals, [], fragments)
    {
      output := [];
      for i := 0 to |fragments|
        invariant Valid()
        invariant Stream(literals, [], fragments) == output + Stream(literals, pending, fragments[i..])
      {
        assert fragments[i..][1..] == fragments[i + 1..];
        var fed := Feed(fragments[i]);
        ConcatAssoc(output, fed, Stream(literals, pending, fragments[i + 1..]));
        output := output + fed;
      }
      assert fragments[|fragments|..] == [];
      var last := Finish();
      output := output + last;
    }
  }
}

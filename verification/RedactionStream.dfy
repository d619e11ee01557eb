/** The fragment-by-fragment redactor of `crates/agent-run-adapters/src/redact.rs`. */
module RedactionStream {
  import opened Common
  import opened Utf8
  import opened Redaction

  /** The longest literal that starts the text, as a length; zero when none does. */
  function Longest(text: seq<byte>, literals: Literals): (n: nat)
    ensures n <= |text|
    decreases |literals|
  {
    if literals == [] then 0 else
    var rest := Longest(text, literals[1..]);
    if StartsWith(text, literals[0]) && |literals[0]| > rest then |literals[0]| else rest
  }

  /** `overlap_bytes` */
  function MaxLength(literals: Literals): nat
    decreases |literals|
  {
    if literals == [] then 0 else
    var rest := MaxLength(literals[1..]);
    if |literals[0]| > rest then |literals[0]| else rest
  }

  lemma {:induction false} LongestCovers(text: seq<byte>, literals: Literals, j: nat)
    requires j < |literals|
    ensures |literals[j]| <= MaxLength(literals)
    ensures StartsWith(text, literals[j]) ==> |literals[j]| <= Longest(text, literals)
    decreases |literals|
  {
    if j > 0 {
      LongestCovers(text, literals[1..], j - 1);
    }
  }

  lemma {:induction false} LongestFound(text: seq<byte>, literals: Literals) returns (j: nat)
    requires Longest(text, literals) > 0
    ensures j < |literals| && StartsWith(text, literals[j]) && |literals[j]| == Longest(text, literals)
    decreases |literals|
  {
    if StartsWith(text, literals[0]) && |literals[0]| > Longest(text, literals[1..]) {
      j := 0;
    } else {
      j := LongestFound(text, literals[1..]);
      j := j + 1;
    }
  }

  /** How far one scanning step goes, and what it emits. */
  function Stride(text: seq<byte>, literals: Literals): (k: nat)
    requires text != []
    ensures 0 < k <= |text|
  {
    if Longest(text, literals) > 0 then Longest(text, literals) else 1
  }

  function Head(text: seq<byte>, literals: Literals): Symbol
    requires text != []
  {
    if Longest(text, literals) > 0 then Mark else Byte(text[0])
  }

  /** All secrets at once: leftmost first, longest at each place. */
  function Scan(text: seq<byte>, literals: Literals): seq<Symbol>
    decreases |text|
  {
    if text == [] then []
    else [Head(text, literals)] + Scan(text[Stride(text, literals)..], literals)
  }

  datatype Partial = Partial(out: seq<Symbol>, rest: seq<byte>)

  function Minus(a: nat, b: nat): nat {
    if a > b then a - b else 0
  }

  /** The same scan, stopped at the first place at or after `ready`. */
  function ScanReady(raw: seq<byte>, ready: nat, literals: Literals): (r: Partial)
    requires ready <= |raw|
    ensures |r.rest| <= |raw| - ready
    decreases |raw|
  {
    if ready == 0 then Partial([], raw) else
    var k := Stride(raw, literals);
    var r := ScanReady(raw[k..], Minus(ready, k), literals);
    Partial([Head(raw, literals)] + r.out, r.rest)
  }

  function BoundaryAtMost(raw: seq<byte>, i: nat): (b: nat)
    requires i <= |raw|
    ensures b <= i && Boundary(raw, b)
  {
    if Boundary(raw, i) then i else BoundaryAtMost(raw, i - 1)
  }

  /** Everything before this index can no longer be the start of an unfinished secret. */
  function ReadyIndex(raw: seq<byte>, literals: Literals): (ready: nat)
    ensures Complete(raw, ready, literals)
  {
    var keep := if MaxLength(literals) > 0 then MaxLength(literals) - 1 else 0;
    BoundaryAtMost(raw, if |raw| > keep then |raw| - keep else 0)
  }

  datatype Fed = Fed(output: seq<byte>, pending: seq<byte>)

  function FeedStep(literals: Literals, pending: seq<byte>, fragment: seq<byte>): Fed
    requires NonEmpty(literals)
  {
    if literals == [] then Fed(fragment, pending) else
    var raw := pending + fragment;
    var r := ScanReady(raw, ReadyIndex(raw, literals), literals);
    Fed(RedactLiterals(Flatten(r.out), literals), r.rest)
  }

  /** Every `feed` output and the final `finish` output, concatenated. */
  function Stream(literals: Literals, pending: seq<byte>, fragments: seq<seq<byte>>): seq<byte>
    requires NonEmpty(literals)
    decreases |fragments|
  {
    if fragments == [] then RedactLiterals(pending, literals) else
    var fed := FeedStep(literals, pending, fragments[0]);
    fed.output + Stream(literals, fed.pending, fragments[1..])
  }

  // ----- One feed, whatever text is still to come -----

  /** Enough text lies behind `ready` for any secret starting before it to be complete. */
  ghost predicate Complete(raw: seq<byte>, ready: nat, literals: Literals) {
    ready <= |raw| && (ready > 0 ==> ready + MaxLength(literals) - 1 <= |raw|)
  }

  /** A place with enough text behind it answers the same however the text goes on. */
  lemma {:induction false} LongestIgnoresFuture(raw: seq<byte>, later: seq<byte>, literals: Literals)
    requires MaxLength(literals) <= |raw|
    ensures Longest(raw + later, literals) == Longest(raw, literals)
    decreases |literals|
  {
    if literals != [] {
      LongestIgnoresFuture(raw, later, literals[1..]);
      assert (raw + later)[..|literals[0]|] == raw[..|literals[0]|];
    }
  }

  lemma ScanStep(raw: seq<byte>, later: seq<byte>, literals: Literals)
    requires raw != [] && MaxLength(literals) <= |raw|
    ensures Scan(raw + later, literals) == [Head(raw, literals)] + Scan(raw[Stride(raw, literals)..] + later, literals)
  {
    LongestIgnoresFuture(raw, later, literals);
    var k := Stride(raw, literals);
    assert (raw + later)[k..] == raw[k..] + later;
  }

  /** Scanning can stop at `ready` and resume with more text. */
  lemma {:induction false} ScanResumes(raw: seq<byte>, ready: nat, later: seq<byte>, literals: Literals)
    requires Complete(raw, ready, literals)
    ensures var r := ScanReady(raw, ready, literals);
      Scan(raw + later, literals) == r.out + Scan(r.rest + later, literals)
    decreases |raw|
  {
    var r := ScanReady(raw, ready, literals);
    if ready == 0 {
      assert r.out + Scan(r.rest + later, literals) == Scan(raw + later, literals);
    } else {
      var k := Stride(raw, literals);
      var r' := ScanReady(raw[k..], Minus(ready, k), literals);
      var tail := Scan(r'.rest + later, literals);
      ScanResumes(raw[k..], Minus(ready, k), later, literals);
      ScanStep(raw, later, literals);
      ConcatAssoc([Head(raw, literals)], r'.out, tail);
    }
  }

  lemma LiftStep(raw: seq<byte>, later: seq<byte>)
    requires raw != []
    ensures Lift(raw + later) == [Byte(raw[0])] + Lift(raw[1..] + later)
  {
  }

  lemma {:induction false} ScanReadyFades(raw: seq<byte>, ready: nat, later: seq<byte>, literals: Literals)
    requires ready <= |raw|
    ensures var r := ScanReady(raw, ready, literals); Fades(r.out + Lift(r.rest + later), Lift(raw + later))
    decreases |raw|
  {
    var r := ScanReady(raw, ready, literals);
    if ready == 0 {
      assert r.out + Lift(r.rest + later) == Lift(raw + later);
      FadesSelf(Lift(raw + later));
    } else if Longest(raw, literals) == 0 {
      var r' := ScanReady(raw[1..], ready - 1, literals);
      ScanReadyFades(raw[1..], ready - 1, later, literals);
      ConcatAssoc([Byte(raw[0])], r'.out, Lift(r.rest + later));
      LiftStep(raw, later);
      FadesAfter([Byte(raw[0])], r'.out + Lift(r.rest + later), Lift(raw[1..] + later));
    }
  }

  /** A literal met at a place with enough text behind it is met by the scan. */
  lemma StartIsFound(raw: seq<byte>, later: seq<byte>, literals: Literals, j: nat)
    requires NonEmpty(literals) && j < |literals| && MaxLength(literals) <= |raw|
    requires StartsWith(Lift(raw + later), Lift(literals[j]))
    ensures Longest(raw, literals) > 0
  {
    var p, x := literals[j], Lift(raw + later);
    assert forall t :: 0 <= t < |p| ==> x[t] == x[..|p|][t] == Byte(p[t]);
    assert (raw + later)[..|p|] == p;
    LongestCovers(raw + later, literals, j);
    LongestIgnoresFuture(raw, later, literals);
  }

  /** No secret starts among the symbols already emitted, even one completed by later text. */
  lemma {:induction false} ScanReadyClean(raw: seq<byte>, ready: nat, later: seq<byte>, literals: Literals, j: nat,
                                          i: nat)
    requires NonEmpty(literals) && Complete(raw, ready, literals)
    requires j < |literals| && i < |ScanReady(raw, ready, literals).out|
    ensures var r := ScanReady(raw, ready, literals);
      !OccursAt(r.out + Lift(r.rest + later), i, Lift(literals[j]))
    decreases |raw|
  {
    var r := ScanReady(raw, ready, literals);
    var k := Stride(raw, literals);
    var r' := ScanReady(raw[k..], Minus(ready, k), literals);
    var y := r.out + Lift(r.rest + later);
    assert y[1..] == r'.out + Lift(r'.rest + later);
    if i > 0 {
      ScanReadyClean(raw[k..], Minus(ready, k), later, literals, j, i - 1);
      assert y[i..] == y[1..][i - 1..];
    } else {
      assert y[0..] == y && y[0] == Head(raw, literals);
      if StartsWith(y, Lift(literals[j])) {
        assert y[0] == Lift(literals[j])[0];
        ScanReadyFades(raw, ready, later, literals);
        FadesStart(y, Lift(raw + later), literals[j]);
        StartIsFound(raw, later, literals, j);
      }
    }
  }

  /** The second pass a feed makes over its own output changes nothing. */
  lemma FeedOutput(raw: seq<byte>, ready: nat, literals: Literals)
    requires AllClear(literals) && NonEmpty(literals) && Complete(raw, ready, literals)
    ensures RedactLiterals(Flatten(ScanReady(raw, ready, literals).out), literals) ==
      Flatten(ScanReady(raw, ready, literals).out)
  {
    var r := ScanReady(raw, ready, literals);
    FlattenRedact(r.out, literals);
    forall p | p in literals ensures !Occurs(r.out, Lift(p)) {
      var j :| 0 <= j < |literals| && literals[j] == p;
      forall i: nat ensures !OccursAt(r.out, i, Lift(p)) {
        if i < |r.out| {
          ScanReadyClean(raw, ready, [], literals, j, i);
          var y := r.out + Lift(r.rest + []);
          assert i + |p| <= |r.out| ==> y[i..][..|p|] == r.out[i..][..|p|];
        }
      }
    }
    RedactAbsent(r.out, literals);
  }

  // ----- A whole message -----

  /** What has been emitted so far, over symbols, and the raw text still held back at the end. */
  function StreamOut(literals: Literals, pending: seq<byte>, fragments: seq<seq<byte>>): Partial
    requires NonEmpty(literals) && literals != []
    decreases |fragments|
  {
    if fragments == [] then Partial([], pending) else
    var raw := pending + fragments[0];
    var r := ScanReady(raw, ReadyIndex(raw, literals), literals);
    var more := StreamOut(literals, r.rest, fragments[1..]);
    more.(out := r.out + more.out)
  }

  lemma {:induction false} StreamFlattens(literals: Literals, pending: seq<byte>, fragments: seq<seq<byte>>)
    requires AllClear(literals) && NonEmpty(literals) && literals != []
    ensures var s := StreamOut(literals, pending, fragments);
      Stream(literals, pending, fragments) == Flatten(s.out + Redact(Lift(s.rest), literals))
    decreases |fragments|
  {
    if fragments == [] {
      FlattenRedact(Lift(pending), literals);
      FlattenLift(pending);
      assert [] + Redact(Lift(pending), literals) == Redact(Lift(pending), literals);
    } else {
      var raw := pending + fragments[0];
      var ready := ReadyIndex(raw, literals);
      var r := ScanReady(raw, ready, literals);
      FeedOutput(raw, ready, literals);
      StreamFlattens(literals, r.rest, fragments[1..]);
      var more := StreamOut(literals, r.rest, fragments[1..]);
      var tail := Redact(Lift(more.rest), literals);
      FlattenConcat(r.out, more.out + tail);
      assert r.out + (more.out + tail) == (r.out + more.out) + tail;
    }
  }

  /** `rest` is the end of `text`. */
  ghost predicate EndOf(rest: seq<byte>, text: seq<byte>) {
    |rest| <= |text| && rest == text[|text| - |rest|..]
  }

  lemma EndOfEnd(rest: seq<byte>, middle: seq<byte>, raw: seq<byte>, later: seq<byte>)
    requires EndOf(middle, raw) && EndOf(rest, middle + later)
    ensures EndOf(rest, raw + later)
  {
  }

  lemma {:induction false} ScanReadyEnd(raw: seq<byte>, ready: nat, literals: Literals)
    requires ready <= |raw|
    ensures EndOf(ScanReady(raw, ready, literals).rest, raw)
    decreases |raw|
  {
    if ready > 0 {
      var k := Stride(raw, literals);
      ScanReadyEnd(raw[k..], Minus(ready, k), literals);
    }
  }

  /** The emitted symbols and a scan of what is held back make up the scan of the whole message. */
  lemma {:induction false} StreamScans(literals: Literals, pending: seq<byte>, fragments: seq<seq<byte>>)
    requires NonEmpty(literals) && literals != []
    ensures var s := StreamOut(literals, pending, fragments);
      && Scan(pending + Joined(fragments), literals) == s.out + Scan(s.rest, literals)
      && EndOf(s.rest, pending + Joined(fragments))
    decreases |fragments|
  {
    var s := StreamOut(literals, pending, fragments);
    if fragments == [] {
      assert pending + Joined(fragments) == pending;
      assert s.out + Scan(s.rest, literals) == Scan(s.rest, literals);
    } else {
      var raw, later := pending + fragments[0], Joined(fragments[1..]);
      var ready := ReadyIndex(raw, literals);
      var r := ScanReady(raw, ready, literals);
      ConcatAssoc(pending, fragments[0], later);
      ScanResumes(raw, ready, later, literals);
      ScanReadyEnd(raw, ready, literals);
      StreamScans(literals, r.rest, fragments[1..]);
      var more := StreamOut(literals, r.rest, fragments[1..]);
      ConcatAssoc(r.out, more.out, Scan(more.rest, literals));
      EndOfEnd(more.rest, r.rest, raw, later);
    }
  }

  // ----- Safety: no secret survives -----

  /** No occurrence of `p` starts within `done` when `rest` follows it. */
  ghost predicate CleanUpTo(done: seq<Symbol>, rest: seq<Symbol>, p: seq<byte>) {
    forall k: nat :: k < |done| ==> !OccursAt(done + rest, k, Lift(p))
  }

  lemma FadingKeepsClean(done: seq<Symbol>, faded: seq<Symbol>, rest: seq<Symbol>, p: seq<byte>)
    requires CleanUpTo(done, rest, p) && Fades(faded, rest)
    ensures CleanUpTo(done, faded, p)
  {
    forall k: nat | k < |done| ensures !OccursAt(done + faded, k, Lift(p)) {
      assert !OccursAt(done + rest, k, Lift(p));
      if OccursAt(done + faded, k, Lift(p)) {
        FadesAfter(done[k..], faded, rest);
        assert (done + faded)[k..] == done[k..] + faded && (done + rest)[k..] == done[k..] + rest;
        FadesStart(done[k..] + faded, done[k..] + rest, p);
      }
    }
  }

  lemma CleanJoin(done: seq<Symbol>, more: seq<Symbol>, rest: seq<Symbol>, p: seq<byte>)
    requires CleanUpTo(done, more + rest, p) && CleanUpTo(more, rest, p)
    ensures CleanUpTo(done + more, rest, p)
  {
    forall k: nat | k < |done + more| ensures !OccursAt(done + more + rest, k, Lift(p)) {
      assert done + more + rest == done + (more + rest);
      if k >= |done| {
        assert (done + (more + rest))[k..] == (more + rest)[k - |done|..];
        assert !OccursAt(more + rest, k - |done|, Lift(p));
      }
    }
  }

  /** The invariant of a message: nothing emitted so far can begin a secret. */
  lemma {:induction false} StreamKeepsClean(literals: Literals, done: seq<Symbol>, pending: seq<byte>,
                                            fragments: seq<seq<byte>>, j: nat)
    requires NonEmpty(literals) && j < |literals|
    requires CleanUpTo(done, Lift(pending + Joined(fragments)), literals[j])
    ensures var s := StreamOut(literals, pending, fragments); CleanUpTo(done + s.out, Lift(s.rest), literals[j])
    decreases |fragments|
  {
    var p := literals[j];
    var s := StreamOut(literals, pending, fragments);
    if fragments == [] {
      assert done + s.out == done && pending + Joined(fragments) == pending;
    } else {
      var raw, later := pending + fragments[0], Joined(fragments[1..]);
      var ready := ReadyIndex(raw, literals);
      var r := ScanReady(raw, ready, literals);
      ConcatAssoc(pending, fragments[0], later);
      forall k: nat | k < |r.out| ensures !OccursAt(r.out + Lift(r.rest + later), k, Lift(p)) {
        ScanReadyClean(raw, ready, later, literals, j, k);
      }
      ScanReadyFades(raw, ready, later, literals);
      FadingKeepsClean(done, r.out + Lift(r.rest + later), Lift(raw + later), p);
      CleanJoin(done, r.out, Lift(r.rest + later), p);
      StreamKeepsClean(literals, done + r.out, r.rest, fragments[1..], j);
      ConcatAssoc(done, r.out, StreamOut(literals, r.rest, fragments[1..]).out);
    }
  }

  /**
   For any set of secrets, overlapping or not, that cannot touch the marker's spelling,
   and any fragmentation of any message, no secret occurs anywhere in the concatenated
   output, including across the joins between outputs and the final flush.
   */
  lemma StreamedTextIsClean(literals: Literals, fragments: seq<seq<byte>>, p: seq<byte>)
    requires AllClear(literals) && p in literals
    ensures NonEmpty(literals) && !Occurs(Stream(literals, [], fragments), p)
  {
    var j :| 0 <= j < |literals| && literals[j] == p;
    StreamFlattens(literals, [], fragments);
    StreamKeepsClean(literals, [], [], fragments, j);
    var s := StreamOut(literals, [], fragments);
    assert [] + s.out == s.out;
    var tail := Redact(Lift(s.rest), literals);
    RedactFades(Lift(s.rest), literals);
    FadingKeepsClean(s.out, tail, Lift(s.rest), p);
    if Occurs(Flatten(s.out + tail), p) {
      var q: nat :| OccursAt(Flatten(s.out + tail), q, p);
      FlattenOccurs(s.out + tail, p, q);
      var i: nat :| OccursAt(s.out + tail, i, Lift(p));
      assert i >= |s.out|;
      assert (s.out + tail)[i..] == tail[i - |s.out|..];
      assert OccursAt(tail, i - |s.out|, Lift(p));
      RedactOccurs(Lift(s.rest), literals, p);
    }
  }
}

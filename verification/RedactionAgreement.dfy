/** When streaming and whole-text redaction agree, and how much text streaming holds back. */
module RedactionAgreement {
  import opened Common
  import opened Utf8
  import opened Redaction
  import opened RedactionStream

  /** Any two occurrences of secrets that share a byte are one and the same. */
  ghost predicate NonOverlapping(text: seq<byte>, literals: Literals) {
    forall i: nat, j: nat, a: nat, b: nat ::
      a < |literals| && b < |literals|
      && OccursAt(text, i, literals[a]) && OccursAt(text, j, literals[b])
      && i <= j < i + |literals[a]|
      ==> i == j && literals[a] == literals[b]
  }

  lemma NonOverlappingEnd(text: seq<byte>, literals: Literals, n: nat)
    requires NonOverlapping(text, literals) && n <= |text|
    ensures NonOverlapping(text[n..], literals)
  {
    forall i: nat, j: nat, a: nat, b: nat |
      a < |literals| && b < |literals|
      && OccursAt(text[n..], i, literals[a]) && OccursAt(text[n..], j, literals[b])
      && i <= j < i + |literals[a]|
      ensures i == j && literals[a] == literals[b]
    {
      assert text[n..][i..] == text[n + i..] && text[n..][j..] == text[n + j..];
      assert OccursAt(text, n + i, literals[a]) && OccursAt(text, n + j, literals[b]);
    }
  }

  lemma LiftStartsWith(text: seq<byte>, p: seq<byte>)
    ensures StartsWith(Lift(text), Lift(p)) <==> StartsWith(text, p)
  {
    if StartsWith(Lift(text), Lift(p)) {
      assert forall t :: 0 <= t < |p| ==> Lift(text)[t] == Lift(text)[..|p|][t] == Byte(p[t]);
      assert text[..|p|] == p;
    }
    if StartsWith(text, p) {
      assert forall t :: 0 <= t < |p| ==> text[t] == text[..|p|][t] == p[t];
      assert Lift(text)[..|p|] == Lift(p);
    }
  }

  /** A symbol that starts no secret passes through every replacement. */
  lemma {:induction false} RedactSkip(x: seq<Symbol>, literals: Literals)
    requires NonEmpty(literals) && x != []
    requires forall i :: 0 <= i < |literals| ==> !StartsWith(x, Lift(literals[i]))
    ensures Redact(x, literals) == [x[0]] + Redact(x[1..], literals)
    decreases |literals|
  {
    if literals != [] {
      var q := literals[0];
      var y := Replace(x, Lift(q), [Mark]);
      assert y == [x[0]] + Replace(x[1..], Lift(q), [Mark]);
      ReplaceFades(x, q);
      forall i | 0 <= i < |literals[1..]| ensures !StartsWith(y, Lift(literals[1..][i])) {
        if StartsWith(y, Lift(literals[i + 1])) {
          FadesStart(y, x, literals[i + 1]);
        }
      }
      RedactSkip(y, literals[1..]);
      assert y[1..] == Replace(x[1..], Lift(q), [Mark]);
    }
  }

  /** No occurrence of `r` starts within `a` when `y` follows it. */
  ghost predicate NoStartIn(a: seq<Symbol>, y: seq<Symbol>, r: seq<byte>) {
    forall k :: 0 <= k < |a| ==> !StartsWith(a[k..] + y, Lift(r))
  }

  lemma {:induction false} ReplacePasses(a: seq<Symbol>, y: seq<Symbol>, r: seq<byte>)
    requires r != [] && NoStartIn(a, y, r)
    ensures Replace(a + y, Lift(r), [Mark]) == a + Replace(y, Lift(r), [Mark])
    decreases |a|
  {
    if a == [] {
      assert a + y == y;
    } else {
      assert a[0..] + y == a + y;
      assert (a + y)[1..] == a[1..] + y;
      assert forall k :: 0 <= k < |a[1..]| ==> a[1..][k..] + y == a[k + 1..] + y;
      ReplacePasses(a[1..], y, r);
    }
  }

  lemma FadingKeepsNoStart(a: seq<Symbol>, faded: seq<Symbol>, y: seq<Symbol>, r: seq<byte>)
    requires NoStartIn(a, y, r) && Fades(faded, y)
    ensures NoStartIn(a, faded, r)
  {
    forall k | 0 <= k < |a| ensures !StartsWith(a[k..] + faded, Lift(r)) {
      if StartsWith(a[k..] + faded, Lift(r)) {
        FadesAfter(a[k..], faded, y);
        FadesStart(a[k..] + faded, a[k..] + y, r);
      }
    }
  }

  lemma MarkStartsNothing(y: seq<Symbol>, p: seq<byte>)
    requires p != []
    ensures !StartsWith([Mark] + y, Lift(p))
  {
    assert ([Mark] + y)[0] != Lift(p)[0];
  }

  /** An occurrence that no secret replaced earlier starts in becomes one marker. */
  lemma {:induction false} RedactHit(p: seq<byte>, y: seq<Symbol>, literals: Literals, a: nat)
    requires NonEmpty(literals) && a < |literals| && literals[a] == p
    requires forall i :: 0 <= i < a ==> literals[i] != p && NoStartIn(Lift(p), y, literals[i])
    ensures Redact(Lift(p) + y, literals) == [Mark] + Redact(y, literals)
    decreases |literals|
  {
    var q := literals[0];
    var y' := Replace(y, Lift(q), [Mark]);
    if a == 0 {
      assert (Lift(p) + y)[..|p|] == Lift(p) && (Lift(p) + y)[|p|..] == y;
      assert Replace(Lift(p) + y, Lift(p), [Mark]) == [Mark] + y';
      forall i | 0 <= i < |literals[1..]| ensures !StartsWith([Mark] + y', Lift(literals[1..][i])) {
        MarkStartsNothing(y', literals[i + 1]);
      }
      RedactSkip([Mark] + y', literals[1..]);
      assert ([Mark] + y')[1..] == y';
    } else {
      ReplacePasses(Lift(p), y, q);
      ReplaceFades(y, q);
      forall i | 0 <= i < a - 1 ensures literals[1..][i] != p && NoStartIn(Lift(p), y', literals[1..][i]) {
        FadingKeepsNoStart(Lift(p), y', y, literals[i + 1]);
      }
      RedactHit(p, y', literals[1..], a - 1);
    }
  }

  /** The `b`-th secret is replaced before any copy of `p` is. */
  ghost predicate Before(literals: Literals, b: nat, p: seq<byte>) {
    b < |literals| && forall i :: 0 <= i <= b ==> literals[i] != p
  }

  /** No secret replaced earlier starts within the secret the scan finds here. */
  ghost predicate HitStands(text: seq<byte>, literals: Literals) {
    var p := text[..Longest(text, literals)];
    forall b: nat, k: nat :: Before(literals, b, p) && k < |p| ==> !StartsWith(text[k..], literals[b])
  }

  /** That holds wherever the scan may arrive. */
  ghost predicate Undisturbed(text: seq<byte>, literals: Literals) {
    forall i: nat :: i <= |text| ==> HitStands(text[i..], literals)
  }

  lemma UndisturbedEnd(text: seq<byte>, literals: Literals, n: nat)
    requires Undisturbed(text, literals) && n <= |text|
    ensures Undisturbed(text[n..], literals)
  {
    forall i: nat | i <= |text[n..]| ensures HitStands(text[n..][i..], literals) {
      CutTwice(text, n, n + i);
    }
  }

  lemma {:induction false} FirstCopy(literals: Literals, j: nat) returns (a: nat)
    requires j < |literals|
    ensures a <= j && literals[a] == literals[j] && forall i :: 0 <= i < a ==> literals[i] != literals[j]
    decreases j
  {
    if i :| 0 <= i < j && literals[i] == literals[j] {
      a := FirstCopy(literals, i);
    } else {
      a := j;
    }
  }

  /** The literal the scan found, with nothing replaced earlier touching it. */
  lemma HitIsFirst(text: seq<byte>, literals: Literals) returns (p: seq<byte>, a: nat)
    requires NonEmpty(literals) && HitStands(text, literals) && Longest(text, literals) > 0
    ensures a < |literals| && literals[a] == p && |p| == Longest(text, literals)
    ensures Lift(text) == Lift(p) + Lift(text[|p|..])
    ensures forall i :: 0 <= i < a ==> literals[i] != p && NoStartIn(Lift(p), Lift(text[|p|..]), literals[i])
  {
    var j := LongestFound(text, literals);
    p := literals[j];
    a := FirstCopy(literals, j);
    LiftCut(text, p, 0);
    forall i, k | 0 <= i < a && 0 <= k < |Lift(p)|
      ensures !StartsWith(Lift(p)[k..] + Lift(text[|p|..]), Lift(literals[i]))
    {
      assert Before(literals, i, p);
      LiftStartsWith(text[k..], literals[i]);
      LiftCut(text, p, k);
    }
  }

  lemma LiftCut(text: seq<byte>, p: seq<byte>, k: nat)
    requires StartsWith(text, p) && k <= |p|
    ensures Lift(p)[k..] + Lift(text[|p|..]) == Lift(text[k..])
    ensures Lift(p) + Lift(text[|p|..]) == Lift(text)
  {
    LiftConcat(p, text[|p|..], 0);
    LiftConcat(p, text[|p|..], k);
    assert text == p + text[|p|..] && Lift(p)[0..] == Lift(p) && text[0..] == text;
  }

  lemma LiftConcat(p: seq<byte>, rest: seq<byte>, k: nat)
    requires k <= |p|
    ensures Lift(p)[k..] + Lift(rest) == Lift((p + rest)[k..])
  {
  }

  /** Where the scan's hits stand, the passes one after the other make the simultaneous scan. */
  lemma {:induction false} RedactIsScan(text: seq<byte>, literals: Literals)
    requires NonEmpty(literals) && Undisturbed(text, literals)
    ensures Redact(Lift(text), literals) == Scan(text, literals)
    decreases |text|
  {
    if text == [] {
      RedactNothing(literals);
      assert Lift(text) == [];
    } else if Longest(text, literals) > 0 {
      assert text[0..] == text;
      var p, a := HitIsFirst(text, literals);
      RedactHit(p, Lift(text[|p|..]), literals, a);
      UndisturbedEnd(text, literals, |p|);
      RedactIsScan(text[|p|..], literals);
    } else {
      forall i | 0 <= i < |literals| ensures !StartsWith(Lift(text), Lift(literals[i])) {
        LiftStartsWith(text, literals[i]);
        LongestCovers(text, literals, i);
      }
      RedactSkip(Lift(text), literals);
      assert Lift(text)[1..] == Lift(text[1..]);
      UndisturbedEnd(text, literals, 1);
      RedactIsScan(text[1..], literals);
    }
  }

  lemma {:induction false} RedactNothing(literals: Literals)
    requires NonEmpty(literals)
    ensures Redact([], literals) == []
    decreases |literals|
  {
    if literals != [] {
      RedactNothing(literals[1..]);
    }
  }

  // ----- When the hits stand -----

  lemma HitIsListed(text: seq<byte>, literals: Literals) returns (j: nat)
    requires Longest(text, literals) > 0
    ensures j < |literals| && literals[j] == text[..Longest(text, literals)]
  {
    j := LongestFound(text, literals);
  }

  /** One secret, even one that overlaps itself: nothing is replaced before it. */
  lemma SingleStands(text: seq<byte>, literals: Literals)
    requires |literals| == 1
    ensures HitStands(text, literals)
  {
    if Longest(text, literals) > 0 {
      var j := HitIsListed(text, literals);
    }
  }

  lemma DisjointStands(text: seq<byte>, literals: Literals)
    requires NonOverlapping(text, literals)
    ensures HitStands(text, literals)
  {
    var n := Longest(text, literals);
    if n > 0 {
      var j := HitIsListed(text, literals);
      forall b: nat, k: nat | Before(literals, b, text[..n]) && k < n ensures !StartsWith(text[k..], literals[b]) {
        assert text[0..] == text && OccursAt(text, 0, literals[j]);
        assert literals[b] != literals[j];
        assert !OccursAt(text, k, literals[b]);
      }
    }
  }

  /** Where `q` can start inside `p`, a text that goes on with `q` from there starts with `q` as well. */
  ghost predicate Harmless(p: seq<byte>, q: seq<byte>) {
    forall k :: 0 < k < |p| && StartsWith(q, p[k..]) ==> StartsWith(p[..k] + q, q)
  }

  /** The order secrets are kept in: longest first. */
  ghost predicate LongestFirst(literals: Literals) {
    forall b, a :: 0 <= b < a < |literals| ==> |literals[b]| >= |literals[a]|
  }

  /** Longest first, and no secret can be cut short by a longer one that starts inside it. */
  ghost predicate HarmlessOrder(literals: Literals) {
    && LongestFirst(literals)
    && forall b, a :: 0 <= b < a < |literals| && literals[a] != literals[b] ==> Harmless(literals[a], literals[b])
  }

  /** A longer secret that starts inside a harmless one starts at the same place or earlier. */
  lemma StartsTooEarly(text: seq<byte>, p: seq<byte>, q: seq<byte>, k: nat)
    requires StartsWith(text, p) && k < |p| <= |q| && StartsWith(text[k..], q) && Harmless(p, q)
    ensures StartsWith(text, q)
  {
    if k == 0 {
      assert text[0..] == text;
    } else {
      var n := |p| - k;
      CutTwice(text, k, |p|);
      assert p[k..] == text[k..][..n] == q[..n];
      assert text[..k + |q|] == p[..k] + q;
      assert (p[..k] + q)[..|q|] == text[..|q|];
    }
  }

  lemma HarmlessStands(text: seq<byte>, literals: Literals)
    requires HarmlessOrder(literals)
    ensures HitStands(text, literals)
  {
    var n := Longest(text, literals);
    if n > 0 {
      var j := HitIsListed(text, literals);
      var p := literals[j];
      forall b: nat, k: nat | Before(literals, b, text[..n]) && k < n ensures !StartsWith(text[k..], literals[b]) {
        assert b < j;
        if StartsWith(text[k..], literals[b]) {
          StartsTooEarly(text, p, literals[b], k);
          LongestCovers(text, literals, b);
        }
      }
    }
  }

  lemma StandsEverywhere(text: seq<byte>, literals: Literals)
    requires |literals| == 1 || NonOverlapping(text, literals) || HarmlessOrder(literals)
    ensures Undisturbed(text, literals)
  {
    forall i: nat | i <= |text| ensures HitStands(text[i..], literals) {
      if |literals| == 1 {
        SingleStands(text[i..], literals);
      } else if HarmlessOrder(literals) {
        HarmlessStands(text[i..], literals);
      } else {
        NonOverlappingEnd(text, literals, i);
        DisjointStands(text[i..], literals);
      }
    }
  }

  /**
   For one secret, any set whose occurrences in the message do not overlap, or any set kept
   longest first in which no secret can be cut short by a longer one, and provided none can
   touch the marker's spelling: every fragmentation produces exactly what whole-text redaction
   of the message produces.
   */
  lemma StreamAgreesWithWhole(literals: Literals, fragments: seq<seq<byte>>)
    requires AllClear(literals)
    requires |literals| <= 1 || NonOverlapping(Joined(fragments), literals) || HarmlessOrder(literals)
    ensures NonEmpty(literals)
    ensures Stream(literals, [], fragments) == RedactLiterals(Joined(fragments), literals)
  {
    if literals == [] {
      PassThrough(fragments);
    } else {
      StandsEverywhere(Joined(fragments), literals);
      UndisturbedAgrees(literals, fragments);
    }
  }

  lemma UndisturbedAgrees(literals: Literals, fragments: seq<seq<byte>>)
    requires AllClear(literals) && NonEmpty(literals) && literals != [] && Undisturbed(Joined(fragments), literals)
    ensures Stream(literals, [], fragments) == RedactLiterals(Joined(fragments), literals)
  {
    var text, rest := Joined(fragments), StreamOut(literals, [], fragments).rest;
    HeldBackIsEnd(literals, fragments);
    RedactIsScan(text, literals);
    UndisturbedEnd(text, literals, |text| - |rest|);
    RedactIsScan(rest, literals);
    StreamAgreesIfScan(literals, fragments);
  }

  lemma HeldBackIsEnd(literals: Literals, fragments: seq<seq<byte>>)
    requires NonEmpty(literals) && literals != []
    ensures EndOf(StreamOut(literals, [], fragments).rest, Joined(fragments))
  {
    assert [] + Joined(fragments) == Joined(fragments);
    StreamScans(literals, [], fragments);
  }

  lemma StreamAgreesIfScan(literals: Literals, fragments: seq<seq<byte>>)
    requires AllClear(literals) && NonEmpty(literals) && literals != []
    requires Redact(Lift(Joined(fragments)), literals) == Scan(Joined(fragments), literals)
    requires var rest := StreamOut(literals, [], fragments).rest; Redact(Lift(rest), literals) == Scan(rest, literals)
    ensures Stream(literals, [], fragments) == RedactLiterals(Joined(fragments), literals)
  {
    assert [] + Joined(fragments) == Joined(fragments);
    StreamFlattens(literals, [], fragments);
    StreamScans(literals, [], fragments);
    FlattenRedact(Lift(Joined(fragments)), literals);
    FlattenLift(Joined(fragments));
  }

  lemma {:induction false} PassThrough(fragments: seq<seq<byte>>)
    ensures NonEmpty([]) && Stream([], [], fragments) == Joined(fragments)
    decreases |fragments|
  {
    if fragments != [] {
      PassThrough(fragments[1..]);
    }
  }

  // ----- How much is held back -----

  /** A boundary at or below `i` is at or below the last one. */
  lemma {:induction false} LastBoundary(raw: seq<byte>, i: nat, b: nat)
    requires b <= i <= |raw| && Boundary(raw, b)
    ensures b <= BoundaryAtMost(raw, i)
    decreases i
  {
    if !Boundary(raw, i) {
      LastBoundary(raw, i - 1, b);
    }
  }

  lemma BoundaryClose(raw: seq<byte>, i: nat)
    requires Valid(raw) && i <= |raw|
    ensures BoundaryAtMost(raw, i) + 3 >= i
  {
    if 3 < i < |raw| {
      BoundaryNear(raw, i);
      var b := if !Continuation(raw[i]) then i else if !Continuation(raw[i - 1]) then i - 1
               else if !Continuation(raw[i - 2]) then i - 2 else i - 3;
      LastBoundary(raw, i, b);
    }
  }

  ghost predicate AllValid(literals: Literals) {
    forall i :: 0 <= i < |literals| ==> literals[i] != [] && Valid(literals[i])
  }

  lemma StartIsBoundary(whole: seq<byte>, at: nat, p: seq<byte>)
    requires at <= |whole| && p != [] && Valid(p) && StartsWith(whole[at..], p)
    ensures Boundary(whole, at)
  {
  }

  lemma ValidIsBoundary(whole: seq<byte>, at: nat, tail: seq<byte>)
    requires at <= |whole| && tail == whole[at..] && Valid(tail)
    ensures Boundary(whole, at)
  {
    assert tail != [] ==> tail[0] == whole[at];
  }

  /** The length of the secret the scan finds at `at`. */
  function HitAt(whole: seq<byte>, at: nat, literals: Literals): (n: nat)
    requires at <= |whole|
    ensures at + n <= |whole|
  {
    Longest(whole[at..], literals)
  }

  lemma StrideLands(whole: seq<byte>, at: nat, literals: Literals)
    requires Valid(whole) && AllValid(literals) && at <= |whole| && HitAt(whole, at, literals) > 0
    ensures Boundary(whole, at + HitAt(whole, at, literals))
  {
    var j := LongestFound(whole[at..], literals);
    LandsAfter(whole, at, literals[j]);
  }

  lemma ValidTail(whole: seq<byte>, at: nat)
    requires Valid(whole) && at <= |whole| && Boundary(whole, at)
    ensures Valid(whole[at..])
  {
    ValidSplit(whole, at);
  }

  /** A secret found in valid text ends at a character boundary. */
  lemma LandsAfter(whole: seq<byte>, at: nat, p: seq<byte>)
    requires Valid(whole) && at <= |whole| && p != [] && Valid(p) && StartsWith(whole[at..], p)
    ensures at + |p| <= |whole| && Boundary(whole, at + |p|)
  {
    var tail, e := whole[at..], at + |p|;
    StartIsBoundary(whole, at, p);
    ValidTail(whole, at);
    ValidAfter(tail, p);
    CutTwice(whole, at, e);
    ValidIsBoundary(whole, e, tail[|p|..]);
  }

  /** Every secret found in `whole` ends at a character boundary. */
  ghost predicate Lands(whole: seq<byte>, literals: Literals) {
    forall at: nat :: at <= |whole| && HitAt(whole, at, literals) > 0 ==>
      Boundary(whole, at + HitAt(whole, at, literals))
  }

  lemma ValidTextLands(whole: seq<byte>, literals: Literals)
    requires Valid(whole) && AllValid(literals)
    ensures Lands(whole, literals)
  {
    forall at: nat | at <= |whole| && HitAt(whole, at, literals) > 0
      ensures Boundary(whole, at + HitAt(whole, at, literals))
    {
      StrideLands(whole, at, literals);
    }
  }

  /** A scan stops at a character boundary. */
  lemma {:induction false} ScanStopsAtBoundary(whole: seq<byte>, at: nat, raw: seq<byte>, ready: nat,
                                               literals: Literals)
    requires Lands(whole, literals) && at <= |whole| && raw == whole[at..]
    requires ready <= |raw| && Boundary(whole, at + ready)
    ensures Boundary(whole, |whole| - |ScanReady(raw, ready, literals).rest|)
    decreases |raw|
  {
    if ready > 0 {
      var k := Stride(raw, literals);
      var next := at + k;
      StrideOrNext(whole, at, raw, ready, literals);
      CutTwice(whole, at, next);
      ScanStopsAtBoundary(whole, next, raw[k..], Minus(ready, k), literals);
    }
  }

  lemma StrideOrNext(whole: seq<byte>, at: nat, raw: seq<byte>, ready: nat, literals: Literals)
    requires Lands(whole, literals) && at <= |whole| && raw == whole[at..]
    requires 0 < ready <= |raw| && Boundary(whole, at + ready)
    ensures var k := Stride(raw, literals); Boundary(whole, at + k + Minus(ready, k))
  {
    assert Longest(raw, literals) == HitAt(whole, at, literals);
  }

  lemma ReadyIsClose(raw: seq<byte>, literals: Literals)
    requires Valid(raw) && AllValid(literals) && literals != []
    ensures MaxLength(literals) > 0
    ensures Boundary(raw, ReadyIndex(raw, literals))
    ensures |raw| - ReadyIndex(raw, literals) <= MaxLength(literals) - 1 + 3
  {
    LongestCovers(raw, literals, 0);
    var keep := MaxLength(literals) - 1;
    BoundaryClose(raw, if |raw| > keep then |raw| - keep else 0);
  }

  /** At most one maximum-secret-length suffix, and at most one unfinished character, is held back. */
  lemma HeldBackIsBounded(literals: Literals, pending: seq<byte>, fragment: seq<byte>)
    requires NonEmpty(literals) && AllValid(literals) && literals != [] && Valid(pending) && Valid(fragment)
    ensures var fed := FeedStep(literals, pending, fragment);
      && Valid(fed.pending)
      && |fed.pending| <= MaxLength(literals) - 1 + 3
  {
    ValidConcat(pending, fragment);
    RestIsBounded(pending + fragment, literals);
  }

  lemma RestIsBounded(raw: seq<byte>, literals: Literals)
    requires AllValid(literals) && literals != [] && Valid(raw)
    ensures var rest := ScanReady(raw, ReadyIndex(raw, literals), literals).rest;
      Valid(rest) && |rest| <= MaxLength(literals) - 1 + 3
  {
    var ready := ReadyIndex(raw, literals);
    var rest := ScanReady(raw, ready, literals).rest;
    ReadyIsClose(raw, literals);
    ValidTextLands(raw, literals);
    RestStartsAtBoundary(raw, ready, literals);
    ValidEnd(raw, rest);
  }

  lemma ValidEnd(raw: seq<byte>, rest: seq<byte>)
    requires Valid(raw) && EndOf(rest, raw) && Boundary(raw, |raw| - |rest|)
    ensures Valid(rest)
  {
    ValidSplit(raw, |raw| - |rest|);
  }

  lemma RestStartsAtBoundary(raw: seq<byte>, ready: nat, literals: Literals)
    requires Lands(raw, literals) && ready <= |raw| && Boundary(raw, ready)
    ensures var rest := ScanReady(raw, ready, literals).rest; EndOf(rest, raw) && Boundary(raw, |raw| - |rest|)
  {
    assert raw[0..] == raw;
    ScanStopsAtBoundary(raw, 0, raw, ready, literals);
    ScanReadyEnd(raw, ready, literals);
  }

  // ----- How a message is cut cannot be seen -----

  /** A boundary stays one when valid text follows. */
  lemma BoundaryStays(raw: seq<byte>, later: seq<byte>, b: nat)
    requires Valid(later) && b <= |raw| && Boundary(raw, b)
    ensures Boundary(raw + later, b)
  {
    assert later != [] ==> (raw + later)[|raw|] == later[0];
  }

  lemma ReadyGrows(raw: seq<byte>, later: seq<byte>, literals: Literals)
    requires Valid(later)
    ensures ReadyIndex(raw, literals) <= ReadyIndex(raw + later, literals)
  {
    var keep := if MaxLength(literals) > 0 then MaxLength(literals) - 1 else 0;
    var b := ReadyIndex(raw, literals);
    BoundaryStays(raw, later, b);
    LastBoundary(raw + later, Minus(|raw + later|, keep), b);
  }

  lemma {:induction false} BoundaryShifts(whole: seq<byte>, c: nat, i: nat)
    requires c <= i <= |whole| && Boundary(whole, c)
    ensures BoundaryAtMost(whole[c..], i - c) == BoundaryAtMost(whole, i) - c
    decreases i
  {
    if i > c && !Boundary(whole, i) {
      assert whole[c..][i - c] == whole[i];
      BoundaryShifts(whole, c, i - 1);
    } else if i > c {
      assert i < |whole| ==> whole[c..][i - c] == whole[i];
    }
  }

  /** Text dropped up to a boundary moves the ready index by as much. */
  lemma ReadyShifts(whole: seq<byte>, c: nat, literals: Literals)
    requires c <= |whole| && Boundary(whole, c)
    ensures ReadyIndex(whole[c..], literals) == Minus(ReadyIndex(whole, literals), c)
  {
    var keep := if MaxLength(literals) > 0 then MaxLength(literals) - 1 else 0;
    var i := Minus(|whole|, keep);
    if c <= i {
      BoundaryShifts(whole, c, i);
    }
  }

  /** The scan of a text whose first symbol is `h`. */
  function After(h: Symbol, p: Partial): Partial {
    Partial([h] + p.out, p.rest)
  }

  function Then(p: Partial, more: Partial): Partial {
    Partial(p.out + more.out, more.rest)
  }

  lemma AfterThen(h: Symbol, p: Partial, more: Partial)
    ensures Then(After(h, p), more) == After(h, Then(p, more))
  {
    ConcatAssoc([h], p.out, more.out);
  }

  lemma ScanHead(raw: seq<byte>, later: seq<byte>, late: nat, literals: Literals)
    requires raw != [] && MaxLength(literals) <= |raw| && 0 < late <= |raw + later|
    ensures var k := Stride(raw, literals);
      ScanReady(raw + later, late, literals) ==
        After(Head(raw, literals), ScanReady(raw[k..] + later, Minus(late, k), literals))
  {
    LongestIgnoresFuture(raw, later, literals);
    assert (raw + later)[Stride(raw, literals)..] == raw[Stride(raw, literals)..] + later;
  }

  /** Stopping at `early` and going on to `late` with more text is going to `late` at once. */
  lemma {:induction false} ScanComposes(raw: seq<byte>, early: nat, r: Partial, later: seq<byte>, late: nat,
                                        literals: Literals)
    requires Complete(raw, early, literals) && early <= late <= |raw + later| && r == ScanReady(raw, early, literals)
    ensures Minus(late, |raw| - |r.rest|) <= |r.rest + later|
    ensures ScanReady(raw + later, late, literals) ==
      Then(r, ScanReady(r.rest + later, Minus(late, |raw| - |r.rest|), literals))
    decreases |raw|
  {
    if early == 0 {
      var more := ScanReady(raw + later, late, literals);
      assert Then(r, more) == more;
    } else {
      var k := Stride(raw, literals);
      var r' := ScanReady(raw[k..], Minus(early, k), literals);
      ScanHead(raw, later, late, literals);
      ScanComposes(raw[k..], Minus(early, k), r', later, Minus(late, k), literals);
      AfterThen(Head(raw, literals), r', ScanReady(r'.rest + later, Minus(late, |raw| - |r.rest|), literals));
    }
  }

  ghost predicate ValidFragments(fragments: seq<seq<byte>>) {
    forall i :: 0 <= i < |fragments| ==> Valid(fragments[i])
  }

  lemma {:induction false} JoinedIsValid(fragments: seq<seq<byte>>)
    requires ValidFragments(fragments)
    ensures Valid(Joined(fragments))
    decreases |fragments|
  {
    if fragments != [] {
      JoinedIsValid(fragments[1..]);
      ValidConcat(fragments[0], Joined(fragments[1..]));
    }
  }

  /** What one feed leaves pending is the valid text from some boundary on. */
  lemma FeedStops(raw: seq<byte>, rest: seq<byte>, literals: Literals)
    requires Valid(raw) && AllValid(literals) && literals != []
    requires rest == ScanReady(raw, ReadyIndex(raw, literals), literals).rest
    ensures Valid(rest) && EndOf(rest, raw) && Boundary(raw, |raw| - |rest|) &&
      |raw| - |rest| >= ReadyIndex(raw, literals)
  {
    RestIsBounded(raw, literals);
    ValidTextLands(raw, literals);
    RestStartsAtBoundary(raw, ReadyIndex(raw, literals), literals);
  }

  /** It has nothing ready in it, and shifts the ready index of what follows. */
  lemma FeedSettles(raw: seq<byte>, rest: seq<byte>, later: seq<byte>, literals: Literals)
    requires Valid(later) && EndOf(rest, raw) && Boundary(raw, |raw| - |rest|) &&
      |raw| - |rest| >= ReadyIndex(raw, literals)
    ensures ReadyIndex(rest, literals) == 0
    ensures ReadyIndex(rest + later, literals) == Minus(ReadyIndex(raw + later, literals), |raw| - |rest|)
  {
    var c := |raw| - |rest|;
    ReadyShifts(raw, c, literals);
    BoundaryStays(raw, later, c);
    assert (raw + later)[c..] == rest + later;
    ReadyShifts(raw + later, c, literals);
  }

  /** One feed and then one feed of all that follows is one feed of the whole. */
  lemma TwoFeedsAreOne(raw: seq<byte>, r: Partial, later: seq<byte>, literals: Literals)
    requires Valid(raw) && Valid(later) && AllValid(literals) && literals != []
    requires r == ScanReady(raw, ReadyIndex(raw, literals), literals)
    ensures Valid(r.rest) && ReadyIndex(r.rest, literals) == 0
    ensures ScanReady(raw + later, ReadyIndex(raw + later, literals), literals)
         == Then(r, ScanReady(r.rest + later, ReadyIndex(r.rest + later, literals), literals))
  {
    var early, late, next :=
      ReadyIndex(raw, literals), ReadyIndex(raw + later, literals), ReadyIndex(r.rest + later, literals);
    FeedStops(raw, r.rest, literals);
    FeedSettles(raw, r.rest, later, literals);
    ReadyGrows(raw, later, literals);
    ComposesAt(raw, early, r, later, late, next, literals);
  }

  lemma ComposesAt(raw: seq<byte>, early: nat, r: Partial, later: seq<byte>, late: nat, next: nat, literals: Literals)
    requires Complete(raw, early, literals) && early <= late <= |raw + later| && r == ScanReady(raw, early, literals)
    requires next == Minus(late, |raw| - |r.rest|)
    ensures next <= |r.rest + later|
    ensures ScanReady(raw + later, late, literals) == Then(r, ScanReady(r.rest + later, next, literals))
  {
    ScanComposes(raw, early, r, later, late, literals);
  }

  /** All feeds together emit and hold back what one feed of the whole message would. */
  lemma {:induction false} StreamIsOneFeed(literals: Literals, pending: seq<byte>, fragments: seq<seq<byte>>,
                                           whole: seq<byte>)
    requires NonEmpty(literals) && AllValid(literals) && literals != []
    requires Valid(pending) && ReadyIndex(pending, literals) == 0 && ValidFragments(fragments)
    requires whole == pending + Joined(fragments)
    ensures StreamOut(literals, pending, fragments) == ScanReady(whole, ReadyIndex(whole, literals), literals)
    decreases |fragments|
  {
    if fragments == [] {
      assert whole == pending;
    } else {
      var raw, later := pending + fragments[0], Joined(fragments[1..]);
      var r := ScanReady(raw, ReadyIndex(raw, literals), literals);
      ValidConcat(pending, fragments[0]);
      JoinedIsValid(fragments[1..]);
      TwoFeedsAreOne(raw, r, later, literals);
      StreamIsOneFeed(literals, r.rest, fragments[1..], r.rest + later);
      ConcatAssoc(pending, fragments[0], later);
    }
  }

  /** For any set of secrets, overlapping or not, how a message is cut into fragments cannot be seen in the output. */
  lemma StreamIgnoresFragmentation(literals: Literals, one: seq<seq<byte>>, other: seq<seq<byte>>)
    requires AllClear(literals) && AllValid(literals)
    requires ValidFragments(one) && ValidFragments(other) && Joined(one) == Joined(other)
    ensures NonEmpty(literals)
    ensures Stream(literals, [], one) == Stream(literals, [], other)
  {
    if literals == [] {
      PassThrough(one);
      PassThrough(other);
    } else {
      assert [] + Joined(one) == Joined(one) && [] + Joined(other) == Joined(other);
      StreamIsOneFeed(literals, [], one, Joined(one));
      StreamIsOneFeed(literals, [], other, Joined(other));
      StreamFlattens(literals, [], one);
      StreamFlattens(literals, [], other);
    }
  }
}

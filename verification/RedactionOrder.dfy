/**
 Exactly when streaming and whole-text redaction agree, told from the secrets alone: for two
 secrets that cannot touch the marker, and for one secret whatever it is.
 */
module RedactionOrder {
  import opened Common
  import opened Utf8
  import opened Redaction
  import opened RedactionStream
  import opened RedactionAgreement
  import opened RedactionMarker

  /** Every fragmentation of every message is redacted as the whole message is. */
  ghost predicate AlwaysAgree(literals: Literals)
    requires NonEmpty(literals)
  {
    forall fragments :: Stream(literals, [], fragments) == RedactLiterals(Joined(fragments), literals)
  }

  // ----- Two secrets -----

  /** A clear secret longer than the text before a marker starts nowhere in that text. */
  lemma NoStartBeforeMarker(u: seq<byte>, rest: seq<byte>, p: seq<byte>, i: nat)
    requires Clear(p) && i < |u| < |p|
    ensures !StartsWith((u + MARKER + rest)[i..], p)
  {
    var d := i - |u|;
    assert Clashes(p, d);
    var t :| 0 <= t < |p| && 0 <= d + t < |MARKER| && p[t] != MARKER[d + t];
    assert (u + MARKER + rest)[i..][t] == (u + MARKER + rest)[i + t] == MARKER[d + t];
  }

  lemma {:induction false} PassesBeforeMarker(u: seq<byte>, rest: seq<byte>, p: seq<byte>)
    requires Clear(p) && |u| < |p|
    ensures Replace(u + MARKER + rest, p, MARKER) == u + MARKER + Replace(rest, p, MARKER)
    decreases |u|
  {
    var text := u + MARKER + rest;
    if u == [] {
      assert text == MARKER[0..] + rest && u + MARKER == MARKER[0..];
      ReplaceSkipsMarker(rest, p, 0);
    } else {
      NoStartBeforeMarker(u, rest, p, 0);
      assert text[0..] == text && text[1..] == u[1..] + MARKER + rest;
      PassesBeforeMarker(u[1..], rest, p);
      assert [u[0]] + (u[1..] + MARKER + Replace(rest, p, MARKER)) == u + MARKER + Replace(rest, p, MARKER);
    }
  }

  lemma TwoPasses(text: seq<byte>, p: seq<byte>, q: seq<byte>)
    requires p != [] && q != []
    ensures NonEmpty([q, p]) && RedactLiterals(text, [q, p]) == Replace(Replace(text, q, MARKER), p, MARKER)
  {
    var l := [q, p];
    assert l[0] == q && l[1..] == [p];
    SingleRedaction(Replace(text, q, MARKER), p);
  }

  /** Whole text: the longer secret goes first, and what is left before its marker is too short for the other. */
  lemma WholeKeepsStart(p: seq<byte>, q: seq<byte>, k: nat) returns (j: nat)
    requires Clear(p) && Clear(q) && 0 < k < |p| && StartsWith(q, p[k..]) && !StartsWith(p[..k] + q, q)
    ensures 0 < j <= k && NonEmpty([q, p])
    ensures StartsWith(RedactLiterals(p[..k] + q, [q, p]), p[..j] + MARKER)
  {
    var text := p[..k] + q;
    assert text[k..] == q && q[..|q|] == q;
    j := FirstHit(text, q, k);
    var u, rest := text[..j], text[j + |q|..];
    assert j == 0 ==> StartsWith(text, q);
    assert u == p[..j];
    ReplaceFirst(u, q, rest);
    PassesBeforeMarker(u, Replace(rest, q, MARKER), p);
    TwoPasses(text, p, q);
    var out := u + MARKER + Replace(Replace(rest, q, MARKER), p, MARKER);
    assert out[..|u + MARKER|] == u + MARKER;
  }

  /** Neither can start like the other: a clear secret is not the start of a marker. */
  lemma StartsDiffer(p: seq<byte>, j: nat, a: seq<byte>, b: seq<byte>)
    requires Clear(p) && 0 < j < |p| && StartsWith(a, p[..j] + MARKER) && StartsWith(b, MARKER)
    ensures a != b
  {
    assert Clashes(p, 0);
    var i :| 0 <= i < |p| && 0 <= i < |MARKER| && p[i] != MARKER[i];
    PrefixBytes(a, p[..j] + MARKER);
    PrefixBytes(b, MARKER);
    if i < j {
      assert a[i] == p[i] && b[i] == MARKER[i];
    } else {
      assert a[j] == (p[..j] + MARKER)[j] == MARKER[0] && b[j] == MARKER[j];
    }
  }

  lemma PrefixBytes(s: seq<byte>, p: seq<byte>)
    requires StartsWith(s, p)
    ensures forall k :: 0 <= k < |p| ==> s[k] == p[k]
  {
    forall k | 0 <= k < |p| ensures s[k] == p[k] {
      assert s[..|p|][k] == s[k];
    }
  }

  /** The stream meets the shorter secret first and replaces it. */
  lemma StreamTakesShorter(p: seq<byte>, q: seq<byte>, k: nat, text: seq<byte>, l: Literals)
    requires Clear(p) && Clear(q) && Valid(p) && Valid(q) && |p| <= |q|
    requires 0 < k < |p| && StartsWith(q, p[k..]) && !StartsWith(p[..k] + q, q)
    requires text == p[..k] + q && l == [q, p]
    ensures NonEmpty(l) && AllClear(l) && StartsWith(Stream(l, [], [text]), MARKER)
  {
    var ready := ReadyIndex(text, l);
    HitsShorter(p, q, k, text, l);
    ReadyPastCut(p, q, k, text, l);
    var r := ScanReady(text, ready, l);
    assert r.out[0] == Mark;
    FeedOutput(text, ready, l);
    assert [] + text == text;
    assert Flatten(r.out) == MARKER + Flatten(r.out[1..]);
    var more := Stream(l, r.rest, [text][1..]);
    assert Stream(l, [], [text]) == Flatten(r.out) + more;
    assert (MARKER + Flatten(r.out[1..]) + more)[..|MARKER|] == MARKER;
  }

  lemma HitsShorter(p: seq<byte>, q: seq<byte>, k: nat, text: seq<byte>, l: Literals)
    requires p != [] && 0 < k < |p| <= |q| && StartsWith(q, p[k..]) && !StartsWith(p[..k] + q, q)
    requires text == p[..k] + q && l == [q, p]
    ensures Longest(text, l) == |p|
  {
    assert l[0] == q && l[1..] == [p] && [p][0] == p && [p][1..] == [];
    assert text[..|p|] == p[..k] + q[..|p| - k];
    assert p == p[..k] + p[k..];
    assert Longest(text, []) == 0 && Longest(text, [p]) == |p|;
  }

  lemma ReadyPastCut(p: seq<byte>, q: seq<byte>, k: nat, text: seq<byte>, l: Literals)
    requires p != [] && q != [] && Valid(q) && |p| <= |q| && k > 0 && k <= |p| && text == p[..k] + q && l == [q, p]
    ensures ReadyIndex(text, l) >= k
  {
    assert l[0] == q && l[1..] == [p] && [p][0] == p && [p][1..] == [];
    assert MaxLength([]) == 0 && MaxLength([p]) == |p| && MaxLength(l) == |q|;
    assert text[k] == q[0] && !Continuation(q[0]);
    LastBoundary(text, k + 1, k);
  }

  /** Where the longer of two secrets starts inside the other and the other does not give way, the outputs differ. */
  lemma OverlappingSecretsDisagree(p: seq<byte>, q: seq<byte>, k: nat)
    requires Clear(p) && Clear(q) && Valid(p) && Valid(q) && |p| <= |q|
    requires 0 < k < |p| && StartsWith(q, p[k..]) && !StartsWith(p[..k] + q, q)
    ensures NonEmpty([q, p]) && Stream([q, p], [], [p[..k] + q]) != RedactLiterals(p[..k] + q, [q, p])
  {
    var text := p[..k] + q;
    var j := WholeKeepsStart(p, q, k);
    StreamTakesShorter(p, q, k, text, [q, p]);
    StartsDiffer(p, j, RedactLiterals(text, [q, p]), Stream([q, p], [], [text]));
  }

  /** Two different secrets, longest first, agree on every message exactly when the shorter is never cut short. */
  lemma TwoSecretsAgreeIff(p: seq<byte>, q: seq<byte>)
    requires Clear(p) && Clear(q) && Valid(p) && Valid(q) && |p| <= |q| && p != q
    ensures NonEmpty([q, p]) && (AlwaysAgree([q, p]) <==> Harmless(p, q))
  {
    var l := [q, p];
    if Harmless(p, q) {
      forall fragments ensures Stream(l, [], fragments) == RedactLiterals(Joined(fragments), l) {
        StreamAgreesWithWhole(l, fragments);
      }
    } else {
      var k :| 0 < k < |p| && StartsWith(q, p[k..]) && !StartsWith(p[..k] + q, q);
      var text := p[..k] + q;
      OverlappingSecretsDisagree(p, q, k);
      assert Joined([text]) == text + Joined([text][1..]);
      assert Joined([text]) == text;
    }
  }

  // ----- One secret, whatever it is -----

  lemma LongestOfOne(text: seq<byte>, p: seq<byte>)
    ensures Longest(text, [p]) == if StartsWith(text, p) then |p| else 0
  {
    var l := [p];
    assert l[0] == p && l[1..] == [];
    assert Longest(text, []) == 0;
  }

  /** For one secret the scan is the replacement. */
  lemma {:induction false} ScanIsReplace(text: seq<byte>, p: seq<byte>)
    requires p != []
    ensures Flatten(Scan(text, [p])) == Replace(text, p, MARKER)
    decreases |text|
  {
    if text != [] {
      var k := Stride(text, [p]);
      LongestOfOne(text, p);
      ScanIsReplace(text[k..], p);
      TailOf(Head(text, [p]), Scan(text[k..], [p]));
    }
  }

  /** What a feed has scanned so far and the replacement of what is left are the replacement of it all. */
  lemma FeedSplits(raw: seq<byte>, ready: nat, later: seq<byte>, p: seq<byte>)
    requires p != [] && Complete(raw, ready, [p])
    ensures var r := ScanReady(raw, ready, [p]);
      Replace(raw + later, p, MARKER) == Flatten(r.out) + Replace(r.rest + later, p, MARKER)
  {
    var r := ScanReady(raw, ready, [p]);
    ScanResumes(raw, ready, later, [p]);
    FlattenConcat(r.out, Scan(r.rest + later, [p]));
    ScanIsReplace(raw + later, p);
    ScanIsReplace(r.rest + later, p);
  }

  // The second pass over what a feed emits.

  lemma {:induction false} NeverShorter(text: seq<byte>, p: seq<byte>)
    requires p != [] && |p| <= |MARKER|
    ensures |Replace(text, p, MARKER)| >= |text|
    decreases |text|
  {
    if StartsWith(text, p) {
      NeverShorter(text[|p|..], p);
    } else if text != [] {
      NeverShorter(text[1..], p);
    }
  }

  lemma {:induction false} NeverLonger(text: seq<byte>, p: seq<byte>)
    requires |p| >= |MARKER|
    ensures |Replace(text, p, MARKER)| <= |text|
    decreases |text|
  {
    if StartsWith(text, p) {
      NeverLonger(text[|p|..], p);
    } else if text != [] {
      NeverLonger(text[1..], p);
    }
  }

  lemma {:induction false} MarkerIsItself(text: seq<byte>)
    ensures Replace(text, MARKER, MARKER) == text
    decreases |text|
  {
    if text != [] {
      if StartsWith(text, MARKER) {
        MarkerIsItself(text[|MARKER|..]);
        assert text == MARKER + text[|MARKER|..];
      } else {
        MarkerIsItself(text[1..]);
        assert text == [text[0]] + text[1..];
      }
    }
  }

  /** A second replacement leaves a text alone exactly when the secret is not in it or is the marker. */
  lemma SecondPassIff(text: seq<byte>, p: seq<byte>)
    requires p != []
    ensures Replace(text, p, MARKER) == text <==> !Occurs(text, p) || p == MARKER
  {
    if !Occurs(text, p) {
      AbsentStays(text, p);
    } else if p == MARKER {
      MarkerIsItself(text);
    } else {
      var q: nat :| OccursAt(text, q, p);
      SecondPassChanges(text, p, q);
    }
  }

  lemma SecondPassChanges(text: seq<byte>, p: seq<byte>, q: nat)
    requires p != [] && p != MARKER && OccursAt(text, q, p)
    ensures Replace(text, p, MARKER) != text
  {
    var n := FirstHit(text, p, q);
    var u, rest := text[..n], text[n + |p|..];
    ReplaceFirst(u, p, rest);
    if |p| == |MARKER| {
      MiddleDiffers(u, p, rest, MARKER, Replace(rest, p, MARKER));
    } else if |p| < |MARKER| {
      NeverShorter(rest, p);
    } else {
      NeverLonger(rest, p);
    }
  }

  lemma MiddleDiffers(u: seq<byte>, a: seq<byte>, x: seq<byte>, b: seq<byte>, y: seq<byte>)
    requires |a| == |b| && a != b
    ensures u + a + x != u + b + y
  {
    assert (u + a + x)[|u|..|u| + |a|] == a && (u + b + y)[|u|..|u| + |b|] == b;
  }

  lemma OccursInStart(a: seq<byte>, b: seq<byte>, p: seq<byte>)
    requires Occurs(a, p)
    ensures Occurs(a + b, p)
  {
    var q: nat :| OccursAt(a, q, p);
    assert (a + b)[q..] == a[q..] + b;
    assert (a[q..] + b)[..|p|] == a[q..][..|p|];
    assert OccursAt(a + b, q, p);
  }

  /** A secret that cannot survive is in nothing a feed emits. */
  lemma EmitsNoSurvivor(raw: seq<byte>, ready: nat, p: seq<byte>)
    requires p != [] && Complete(raw, ready, [p]) && !CanSurvive(p)
    ensures !Occurs(Flatten(ScanReady(raw, ready, [p]).out), p)
  {
    var r := ScanReady(raw, ready, [p]);
    FeedSplits(raw, ready, [], p);
    assert raw + [] == raw;
    if Occurs(Flatten(r.out), p) {
      OccursInStart(Flatten(r.out), Replace(r.rest + [], p, MARKER), p);
      var q: nat :| OccursAt(Replace(raw, p, MARKER), q, p);
      SurvivorCan(raw, p, q);
    }
  }

  lemma {:induction false} StreamIsReplace(p: seq<byte>, pending: seq<byte>, fragments: seq<seq<byte>>)
    requires p != [] && (p == MARKER || !CanSurvive(p))
    ensures NonEmpty([p]) && Stream([p], pending, fragments) == Replace(pending + Joined(fragments), p, MARKER)
    decreases |fragments|
  {
    if fragments == [] {
      assert pending + Joined(fragments) == pending;
      SingleRedaction(pending, p);
    } else {
      var raw, later := pending + fragments[0], Joined(fragments[1..]);
      var ready := ReadyIndex(raw, [p]);
      var r := ScanReady(raw, ready, [p]);
      ConcatAssoc(pending, fragments[0], later);
      FeedSplits(raw, ready, later, p);
      SingleRedaction(Flatten(r.out), p);
      if p != MARKER {
        EmitsNoSurvivor(raw, ready, p);
      }
      SecondPassIff(Flatten(r.out), p);
      StreamIsReplace(p, r.rest, fragments[1..]);
    }
  }

  lemma StreamIsWhole(p: seq<byte>, fragments: seq<seq<byte>>)
    requires p != [] && (p == MARKER || !CanSurvive(p))
    ensures NonEmpty([p]) && Stream([p], [], fragments) == RedactLiterals(Joined(fragments), [p])
  {
    var text := Joined(fragments);
    StreamIsReplace(p, [], fragments);
    assert [] + text == text;
    SingleRedaction(text, p);
  }

  // Any text a secret survives in is emitted whole once enough text that does not end it follows.

  function Pad(c: byte, n: nat): (z: seq<byte>)
    ensures |z| == n && forall i :: 0 <= i < n ==> z[i] == c
  {
    seq(n, _ => c)
  }

  lemma PadEndsNothing(t: seq<byte>, z: seq<byte>, p: seq<byte>, c: byte)
    requires p != [] && |z| == |p| - 1 && c != p[|p| - 1] && (forall i :: 0 <= i < |z| ==> z[i] == c) && t != []
    ensures StartsWith(t + z, p) <==> StartsWith(t, p)
  {
    if |p| <= |t| {
      assert (t + z)[..|p|] == t[..|p|];
    } else {
      assert (t + z)[|p| - 1] == z[|p| - 1 - |t|];
      if StartsWith(t + z, p) {
        PrefixBytes(t + z, p);
      }
    }
  }

  lemma {:induction false} ScanPadded(t: seq<byte>, z: seq<byte>, p: seq<byte>, c: byte)
    requires p != [] && |z| == |p| - 1 && c != p[|p| - 1] && forall i :: 0 <= i < |z| ==> z[i] == c
    ensures ScanReady(t + z, |t|, [p]) == Partial(Scan(t, [p]), z)
    decreases |t|
  {
    if t == [] {
      assert t + z == z;
    } else {
      PadEndsNothing(t, z, p, c);
      LongestOfOne(t, p);
      LongestOfOne(t + z, p);
      var k := Stride(t, [p]);
      DropConcat(t, z, k);
      ScanPadded(t[k..], z, p, c);
    }
  }

  lemma ReadyAtPad(t: seq<byte>, z: seq<byte>, p: seq<byte>)
    requires p != [] && |z| == |p| - 1 && (forall i :: 0 <= i < |z| ==> z[i] < 0x80)
    ensures ReadyIndex(t + z, [p]) == |t|
  {
    var l := [p];
    assert l[0] == p && l[1..] == [] && MaxLength([]) == 0 && MaxLength(l) == |p|;
    assert z != [] ==> (t + z)[|t|] == z[0];
    assert Boundary(t + z, |t|);
  }

  lemma SurvivorIsReplacedAgain(p: seq<byte>, t: seq<byte>) returns (text: seq<byte>)
    requires p != [] && p != MARKER && Occurs(Replace(t, p, MARKER), p)
    ensures NonEmpty([p]) && Stream([p], [], [text]) != Replace(text, p, MARKER)
  {
    var c: byte := if p[|p| - 1] == 97 then 98 else 97;
    var z := Pad(c, |p| - 1);
    text := t + z;
    ScanPadded(t, z, p, c);
    ReadyAtPad(t, z, p);
    ScanIsReplace(t, p);
    var safe := Replace(t, p, MARKER);
    FeedSplits(text, |t|, [], p);
    SecondPassIff(safe, p);
    assert text + [] == text && z + [] == z && [] + text == text;
    OneFragment(p, text, safe, z);
    SameEnd(Replace(safe, p, MARKER), safe, Replace(z, p, MARKER));
  }

  lemma OneFragment(p: seq<byte>, text: seq<byte>, safe: seq<byte>, z: seq<byte>)
    requires p != [] && var r := ScanReady(text, ReadyIndex(text, [p]), [p]); Flatten(r.out) == safe && r.rest == z
    ensures NonEmpty([p]) && Stream([p], [], [text]) == Replace(safe, p, MARKER) + Replace(z, p, MARKER)
  {
    assert [] + text == text && [text][1..] == [];
    SingleRedaction(safe, p);
    SingleRedaction(z, p);
    assert Stream([p], z, []) == RedactLiterals(z, [p]);
  }

  lemma SameEnd(a: seq<byte>, b: seq<byte>, c: seq<byte>)
    requires a != b
    ensures a + c != b + c
  {
    assert (a + c)[..|a|] == a && (b + c)[..|b|] == b;
  }

  /** One secret agrees on every message exactly when it is the marker itself or cannot survive redaction. */
  lemma OneSecretAgreesIff(p: seq<byte>)
    requires p != []
    ensures NonEmpty([p]) && (AlwaysAgree([p]) <==> p == MARKER || !CanSurvive(p))
  {
    var l := [p];
    if p == MARKER || !CanSurvive(p) {
      forall fragments ensures Stream(l, [], fragments) == RedactLiterals(Joined(fragments), l) {
        StreamIsWhole(p, fragments);
      }
    } else {
      SecretSurvivesIff(p);
      var t :| Occurs(RedactLiterals(t, [p]), p);
      SingleRedaction(t, p);
      var text := SurvivorIsReplacedAgain(p, t);
      SingleRedaction(text, p);
      assert Joined([text]) == text + Joined([text][1..]);
      assert Joined([text]) == text;
    }
  }
}

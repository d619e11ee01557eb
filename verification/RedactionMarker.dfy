/** Secrets that can overlap the marker's own text: exactly which of them can survive whole-text redaction. */
module RedactionMarker {
  import opened Common
  import opened Redaction

  /** Followed by `p`, the text `u` holds no earlier start of `p`. */
  ghost predicate FirstAfter(u: seq<byte>, p: seq<byte>) {
    forall j :: 0 <= j < |u| ==> !StartsWith((u + p)[j..], p)
  }

  /** Some end of the marker is a proper beginning of `p`. */
  ghost predicate StartsInMarker(p: seq<byte>) {
    exists k :: 0 <= k < |MARKER| && |MARKER| - k < |p| && StartsWith(p, MARKER[k..])
  }

  ghost predicate EndsInMarkerAt(p: seq<byte>, n: nat) {
    && 0 < n < |p|
    && (StartsWith(MARKER, p[n..]) || StartsWith(p[n..], MARKER))
    && FirstAfter(p[..n], p)
  }

  /** `p` runs from plain text into the marker, and that plain text before `p` does not bring its match forward. */
  ghost predicate EndsInMarker(p: seq<byte>) {
    exists n: nat :: EndsInMarkerAt(p, n)
  }

  ghost predicate CanSurvive(p: seq<byte>) {
    Occurs(MARKER, p) || StartsInMarker(p) || EndsInMarker(p)
  }

  // ----- What one replacement does -----

  lemma {:induction false} AbsentStays(text: seq<byte>, p: seq<byte>)
    requires p != [] && !Occurs(text, p)
    ensures Replace(text, p, MARKER) == text
    decreases |text|
  {
    if text != [] {
      assert text[0..] == text;
      assert !OccursAt(text, 0, p);
      forall i: nat ensures !OccursAt(text[1..], i, p) {
        if i <= |text[1..]| {
          assert text[1..][i..] == text[i + 1..];
          assert !OccursAt(text, i + 1, p);
        }
      }
      AbsentStays(text[1..], p);
    }
  }

  lemma ShorterStays(text: seq<byte>, p: seq<byte>)
    requires p != [] && |text| < |p|
    ensures Replace(text, p, MARKER) == text
  {
    AbsentStays(text, p);
  }

  lemma FirstAfterTail(u: seq<byte>, p: seq<byte>)
    requires u != [] && FirstAfter(u, p)
    ensures FirstAfter(u[1..], p)
  {
    forall j | 0 <= j < |u[1..]| ensures !StartsWith((u[1..] + p)[j..], p) {
      assert (u[1..] + p)[j..] == (u + p)[j + 1..];
    }
  }

  /** The first match is replaced and the rest treated alike. */
  lemma {:induction false} ReplaceFirst(u: seq<byte>, p: seq<byte>, rest: seq<byte>)
    requires p != [] && FirstAfter(u, p)
    ensures Replace(u + p + rest, p, MARKER) == u + MARKER + Replace(rest, p, MARKER)
    decreases |u|
  {
    var text := u + p + rest;
    if u == [] {
      assert text == p + rest && text[..|p|] == p && text[|p|..] == rest;
      assert u + MARKER == MARKER;
    } else {
      assert (u + p)[0..] == u + p && !StartsWith(u + p, p);
      assert text[..|p|] == (u + p)[..|p|];
      assert text[1..] == u[1..] + p + rest;
      FirstAfterTail(u, p);
      ReplaceFirst(u[1..], p, rest);
      assert [u[0]] + (u[1..] + MARKER + Replace(rest, p, MARKER)) == u + MARKER + Replace(rest, p, MARKER);
    }
  }

  lemma {:induction false} FirstHit(text: seq<byte>, p: seq<byte>, q: nat) returns (n: nat)
    requires p != [] && OccursAt(text, q, p)
    ensures n <= q && n + |p| <= |text| && text == text[..n] + p + text[n + |p|..] && FirstAfter(text[..n], p)
    decreases q
  {
    if i :| 0 <= i < q && OccursAt(text, i, p) {
      n := FirstHit(text, p, i);
    } else {
      n := q;
      assert text[q..][..|p|] == p;
      assert text == text[..n] + p + text[n + |p|..];
      forall j | 0 <= j < n ensures !StartsWith((text[..n] + p)[j..], p) {
        assert !OccursAt(text, j, p);
        assert (text[..n] + p)[j..][..|p|] == text[j..][..|p|];
      }
    }
  }

  // ----- Only these can survive -----

  lemma BeginsInMarker(p: seq<byte>, rest: seq<byte>, q: nat)
    requires q < |MARKER| && OccursAt(MARKER + rest, q, p)
    ensures CanSurvive(p)
  {
    assert (MARKER + rest)[q..] == MARKER[q..] + rest;
    if q + |p| <= |MARKER| {
      assert MARKER[q..][..|p|] == p;
      assert OccursAt(MARKER, q, p);
    } else {
      assert p[..|MARKER| - q] == MARKER[q..];
    }
  }

  lemma RunsIntoMarker(p: seq<byte>, u: seq<byte>, rest: seq<byte>)
    requires 0 < |u| < |p| && FirstAfter(u, p) && StartsWith(u + MARKER + rest, p)
    ensures CanSurvive(p)
  {
    var n := |u|;
    var s, after := p[n..], MARKER + rest;
    assert u + MARKER + rest == u + after;
    assert p[..n] == u && s == after[..|s|];
    if |s| <= |MARKER| {
      assert MARKER[..|s|] == s;
    } else {
      assert s[..|MARKER|] == MARKER;
    }
    assert EndsInMarkerAt(p, n);
  }

  lemma SameHead(u: seq<byte>, a: seq<byte>, b: seq<byte>, p: seq<byte>)
    requires |p| <= |u|
    ensures StartsWith(u + a, p) <==> StartsWith(u + b, p)
  {
    assert (u + a)[..|p|] == u[..|p|] && (u + b)[..|p|] == u[..|p|];
  }

  lemma StartOfOutput(text: seq<byte>, p: seq<byte>)
    requires p != [] && text != [] && !StartsWith(text, p) && StartsWith(Replace(text, p, MARKER), p)
    ensures CanSurvive(p)
  {
    if Occurs(text, p) {
      var q: nat :| OccursAt(text, q, p);
      var n := FirstHit(text, p, q);
      var u, rest := text[..n], text[n + |p|..];
      var out := Replace(rest, p, MARKER);
      ReplaceFirst(u, p, rest);
      if |p| <= n {
        SameHead(u, MARKER + out, p + rest, p);
      } else {
        RunsIntoMarker(p, u, out);
      }
    } else {
      AbsentStays(text, p);
    }
  }

  lemma {:induction false} SurvivorCan(text: seq<byte>, p: seq<byte>, q: nat)
    requires p != [] && OccursAt(Replace(text, p, MARKER), q, p)
    ensures CanSurvive(p)
    decreases |text|
  {
    var out := Replace(text, p, MARKER);
    if StartsWith(text, p) {
      var rest := text[|p|..];
      if q < |MARKER| {
        BeginsInMarker(p, Replace(rest, p, MARKER), q);
      } else {
        assert out[q..] == Replace(rest, p, MARKER)[q - |MARKER|..];
        SurvivorCan(rest, p, q - |MARKER|);
      }
    } else if q > 0 {
      assert out[q..] == Replace(text[1..], p, MARKER)[q - 1..];
      SurvivorCan(text[1..], p, q - 1);
    } else {
      assert out[0..] == out;
      StartOfOutput(text, p);
    }
  }

  // ----- And each of them does, in some text -----

  lemma InsideSurvives(text: seq<byte>, p: seq<byte>)
    requires p != [] && Occurs(MARKER, p) && Occurs(text, p)
    ensures Occurs(Replace(text, p, MARKER), p)
  {
    var q: nat :| OccursAt(text, q, p);
    var k: nat :| OccursAt(MARKER, k, p);
    var n := FirstHit(text, p, q);
    var u, rest := text[..n], Replace(text[n + |p|..], p, MARKER);
    ReplaceFirst(u, p, text[n + |p|..]);
    OccursWithin(u, MARKER, rest, k, p);
  }

  lemma OccursWithin(u: seq<byte>, m: seq<byte>, rest: seq<byte>, k: nat, p: seq<byte>)
    requires OccursAt(m, k, p)
    ensures OccursAt(u + m + rest, |u| + k, p)
  {
    assert (u + m + rest)[|u| + k..] == m[k..] + rest;
    assert (m[k..] + rest)[..|p|] == m[k..][..|p|];
  }

  lemma StartSurvives(p: seq<byte>) returns (text: seq<byte>)
    requires p != [] && StartsInMarker(p)
    ensures Occurs(Replace(text, p, MARKER), p)
  {
    var k :| 0 <= k < |MARKER| && |MARKER| - k < |p| && StartsWith(p, MARKER[k..]);
    var b := p[|MARKER| - k..];
    text := [] + p + b;
    ReplaceFirst([], p, b);
    ShorterStays(b, p);
    OverlapOccurs(MARKER, k, p);
    assert [] + MARKER + b == MARKER + b;
  }

  lemma OverlapOccurs(m: seq<byte>, k: nat, p: seq<byte>)
    requires k < |m| && |m| - k < |p| && StartsWith(p, m[k..])
    ensures OccursAt(m + p[|m| - k..], k, p)
  {
    assert (m + p[|m| - k..])[k..] == m[k..] + p[|m| - k..];
    assert m[k..] + p[|m| - k..] == p;
  }

  lemma EndSurvives(p: seq<byte>) returns (text: seq<byte>)
    requires p != [] && EndsInMarker(p)
    ensures Occurs(Replace(text, p, MARKER), p)
  {
    var n: nat :| EndsInMarkerAt(p, n);
    var u, s := p[..n], p[n..];
    var b := if |s| <= |MARKER| then [] else s[|MARKER|..];
    text := u + p + b;
    ReplaceFirst(u, p, b);
    ShorterStays(b, p);
    OccursAcross(u, MARKER, b, s, p);
  }

  lemma OccursAcross(u: seq<byte>, m: seq<byte>, b: seq<byte>, s: seq<byte>, p: seq<byte>)
    requires p == u + s && if |s| <= |m| then StartsWith(m, s) && b == [] else s == m + b
    ensures OccursAt(u + m + b, 0, p)
  {
    var out := u + m + b;
    assert out[0..] == out && out == u + (m + b);
    assert (m + b)[..|s|] == s;
    assert out[..|p|] == u + s;
  }

  lemma SingleRedaction(text: seq<byte>, p: seq<byte>)
    requires p != []
    ensures NonEmpty([p]) && RedactLiterals(text, [p]) == Replace(text, p, MARKER)
  {
    var l := [p];
    assert l[1..] == [];
  }

  /** Inside the marker's own text a secret is in the redacted text exactly when it was in the text. */
  lemma SecretInsideMarkerSurvives(text: seq<byte>, p: seq<byte>)
    requires p != [] && Occurs(MARKER, p)
    ensures NonEmpty([p]) && (Occurs(RedactLiterals(text, [p]), p) <==> Occurs(text, p))
  {
    SingleRedaction(text, p);
    if Occurs(text, p) {
      InsideSurvives(text, p);
    } else {
      AbsentStays(text, p);
    }
  }

  ghost predicate SurvivesSome(p: seq<byte>)
    requires NonEmpty([p])
  {
    exists text :: Occurs(RedactLiterals(text, [p]), p)
  }

  /** One secret is removed from every text exactly when it is not one of those that can survive. */
  lemma SecretSurvivesIff(p: seq<byte>)
    requires p != []
    ensures NonEmpty([p]) && (SurvivesSome(p) <==> CanSurvive(p))
  {
    if SurvivesSome(p) {
      var text :| Occurs(RedactLiterals(text, [p]), p);
      SingleRedaction(text, p);
      var q: nat :| OccursAt(Replace(text, p, MARKER), q, p);
      SurvivorCan(text, p, q);
    }
    if CanSurvive(p) {
      var text := p;
      if Occurs(MARKER, p) {
        assert OccursAt(p, 0, p);
        InsideSurvives(p, p);
      } else if StartsInMarker(p) {
        text := StartSurvives(p);
      } else {
        text := EndSurvives(p);
      }
      SingleRedaction(text, p);
      assert Occurs(RedactLiterals(text, [p]), p);
    }
  }

  /** Two opening brackets can touch a marker, and are removed from every text all the same. */
  lemma TouchingIsNotSurviving()
    ensures var p: seq<byte> := [60, 60]; !Clear(p) && !CanSurvive(p)
  {
    var p: seq<byte> := [60, 60];
    assert !Clashes(p, -1);
    forall i: nat ensures !OccursAt(MARKER, i, p) {
      assert i + 2 <= |MARKER| ==> MARKER[i..][..2][1] == MARKER[i + 1];
    }
    forall k | 0 <= k < |MARKER| && |MARKER| - k < |p| ensures !StartsWith(p, MARKER[k..]) {
      assert MARKER[k..][0] == MARKER[9];
    }
    forall n: nat ensures !EndsInMarkerAt(p, n) {
      assert p[..1] + p == [60, 60, 60] && (p[..1] + p)[0..][..2] == p;
    }
  }
}

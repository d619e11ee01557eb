/**
 Literal replacement of `crates/agent-run-adapters/src/redact.rs` and its algebra.

 Text that has been partly redacted is described over a larger alphabet in which
 the marker is one symbol. Where no secret can overlap the marker's spelling, the
 byte-level functions are the flattened symbol-level ones, and at symbol level a
 marker cannot take part in any later match.
 */
module Redaction {
  import opened Common

  /** `<redacted>` */
  const MARKER: seq<byte> := [60, 114, 101, 100, 97, 99, 116, 101, 100, 62]

  type Literals = seq<seq<byte>>

  /** `str::replace`: leftmost occurrences first, left to right, never overlapping. */
  function Replace<T(==)>(text: seq<T>, literal: seq<T>, mark: seq<T>): seq<T>
    requires literal != []
    decreases |text|
  {
    if text == [] then []
    else if StartsWith(text, literal) then mark + Replace(text[|literal|..], literal, mark)
    else [text[0]] + Replace(text[1..], literal, mark)
  }

  predicate NonEmpty(literals: Literals) {
    forall i :: 0 <= i < |literals| ==> literals[i] != []
  }

  /** `redact_literals`: one replacement pass per literal, in order. */
  function RedactLiterals(text: seq<byte>, literals: Literals): seq<byte>
    requires NonEmpty(literals)
    decreases |literals|
  {
    if literals == [] then text
    else RedactLiterals(Replace(text, literals[0], MARKER), literals[1..])
  }

  ghost predicate OccursAt<T>(text: seq<T>, i: nat, p: seq<T>) {
    i <= |text| && StartsWith(text[i..], p)
  }

  ghost predicate Occurs<T>(text: seq<T>, p: seq<T>) {
    exists i: nat :: OccursAt(text, i, p)
  }

  /** Laying `p` over the marker shifted by `d`, the two differ somewhere they meet. */
  ghost predicate Clashes(p: seq<byte>, d: int) {
    exists i :: 0 <= i < |p| && 0 <= d + i < |MARKER| && p[i] != MARKER[d + i]
  }

  /** No occurrence of `p` can ever share a byte with a marker. */
  ghost predicate Clear(p: seq<byte>) {
    p != [] && forall d :: -|p| < d < |MARKER| ==> Clashes(p, d)
  }

  ghost predicate AllClear(literals: Literals) {
    forall i :: 0 <= i < |literals| ==> Clear(literals[i])
  }

  // ----- Symbols -----

  datatype Symbol = Byte(b: byte) | Mark

  function Lift(s: seq<byte>): (x: seq<Symbol>)
    ensures |x| == |s| && forall i :: 0 <= i < |s| ==> x[i] == Byte(s[i])
  {
    seq(|s|, i requires 0 <= i < |s| => Byte(s[i]))
  }

  function Flatten(x: seq<Symbol>): seq<byte>
    decreases |x|
  {
    if x == [] then []
    else (if x[0].Mark? then MARKER else [x[0].b]) + Flatten(x[1..])
  }

  function Redact(x: seq<Symbol>, literals: Literals): seq<Symbol>
    requires NonEmpty(literals)
    decreases |literals|
  {
    if literals == [] then x
    else Redact(Replace(x, Lift(literals[0]), [Mark]), literals[1..])
  }

  lemma {:induction false} FlattenConcat(x: seq<Symbol>, y: seq<Symbol>)
    ensures Flatten(x + y) == Flatten(x) + Flatten(y)
    decreases |x|
  {
    if x == [] {
      assert x + y == y;
    } else {
      assert (x + y)[1..] == x[1..] + y;
      FlattenConcat(x[1..], y);
    }
  }

  lemma {:induction false} FlattenLift(s: seq<byte>)
    ensures Flatten(Lift(s)) == s
    decreases |s|
  {
    if s != [] {
      assert Lift(s)[1..] == Lift(s[1..]);
      FlattenLift(s[1..]);
    }
  }

  /** Flattening `x` starts with the bytes `x` starts with. */
  lemma {:induction false} FlattenBytes(x: seq<Symbol>, n: nat)
    requires n <= |x| && forall i :: 0 <= i < n ==> x[i].Byte?
    ensures |Flatten(x)| >= n
    ensures forall i :: 0 <= i < n ==> Flatten(x)[i] == x[i].b
    ensures Flatten(x)[n..] == Flatten(x[n..])
    decreases n
  {
    if n == 0 {
      assert x[0..] == x;
    } else {
      FlattenBytes(x[1..], n - 1);
      assert x[1..][n - 1..] == x[n..];
    }
  }

  lemma {:induction false} LeadingBytes(x: seq<Symbol>) returns (n: nat)
    ensures n <= |x| && (forall i :: 0 <= i < n ==> x[i].Byte?) && (n < |x| ==> x[n].Mark?)
    decreases |x|
  {
    if x == [] || x[0].Mark? {
      n := 0;
    } else {
      n := LeadingBytes(x[1..]);
      n := n + 1;
    }
  }

  /** A clear literal starts the flattened text exactly when it starts the symbols. */
  lemma FlattenStartsWith(x: seq<Symbol>, p: seq<byte>)
    requires Clear(p)
    ensures StartsWith(Flatten(x), p) <==> StartsWith(x, Lift(p))
  {
    var n := LeadingBytes(x);
    FlattenBytes(x, n);
    var f := Flatten(x);
    if n >= |p| {
      assert forall i :: 0 <= i < |p| ==> x[i] == Byte(f[i]);
      if StartsWith(f, p) {
        assert forall i :: 0 <= i < |p| ==> f[i] == f[..|p|][i] == p[i];
        assert x[..|p|] == Lift(p);
      }
      if StartsWith(x, Lift(p)) {
        assert forall i :: 0 <= i < |p| ==> x[i] == x[..|p|][i] == Byte(p[i]);
        assert f[..|p|] == p;
      }
    } else if n == |x| {
      assert |f| == n;
    } else {
      // The first marker lies within reach of `p`, which clashes with it.
      assert Clashes(p, -n);
      var i :| 0 <= i < |p| && 0 <= -n + i < |MARKER| && p[i] != MARKER[-n + i];
      assert f[i] == f[n..][i - n] == MARKER[i - n];
    }
  }

  /** No clear literal starts inside a marker. */
  lemma NoStartInMarker(rest: seq<byte>, p: seq<byte>, k: nat)
    requires Clear(p) && k < |MARKER|
    ensures !StartsWith(MARKER[k..] + rest, p)
  {
    assert Clashes(p, k);
    var i :| 0 <= i < |p| && 0 <= k + i < |MARKER| && p[i] != MARKER[k + i];
    assert i < |MARKER[k..] + rest| && (MARKER[k..] + rest)[i] == MARKER[k + i];
  }

  lemma {:induction false} ReplaceSkipsMarker(rest: seq<byte>, p: seq<byte>, k: nat)
    requires Clear(p) && k <= |MARKER|
    ensures Replace(MARKER[k..] + rest, p, MARKER) == MARKER[k..] + Replace(rest, p, MARKER)
    decreases |MARKER| - k
  {
    var text := MARKER[k..] + rest;
    if k == |MARKER| {
      assert text == rest;
    } else {
      NoStartInMarker(rest, p, k);
      assert text[1..] == MARKER[k + 1..] + rest;
      ReplaceSkipsMarker(rest, p, k + 1);
    }
  }

  /** Byte-level replacement of a clear literal is symbol-level replacement, flattened. */
  lemma {:induction false} FlattenReplace(x: seq<Symbol>, p: seq<byte>)
    requires Clear(p)
    ensures Flatten(Replace(x, Lift(p), [Mark])) == Replace(Flatten(x), p, MARKER)
    decreases |x|
  {
    if x == [] {
    } else {
      FlattenStartsWith(x, p);
      if StartsWith(x, Lift(p)) {
        var n := |p|;
        assert forall i :: 0 <= i < n ==> x[i] == x[..n][i] == Byte(p[i]);
        FlattenBytes(x, n);
        FlattenReplace(x[n..], p);
        FlattenConcat([Mark], Replace(x[n..], Lift(p), [Mark]));
      } else {
        FlattenReplace(x[1..], p);
        FlattenConcat([x[0]], Replace(x[1..], Lift(p), [Mark]));
        assert Flatten([x[0]]) == if x[0].Mark? then MARKER else [x[0].b];
        if x[0].Mark? {
          ReplaceSkipsMarker(Flatten(x[1..]), p, 0);
        } else {
          assert Flatten(x)[1..] == Flatten(x[1..]);
        }
      }
    }
  }

  lemma {:induction false} FlattenRedact(x: seq<Symbol>, literals: Literals)
    requires AllClear(literals)
    ensures NonEmpty(literals)
    ensures Flatten(Redact(x, literals)) == RedactLiterals(Flatten(x), literals)
    decreases |literals|
  {
    if literals != [] {
      FlattenReplace(x, literals[0]);
      FlattenRedact(Replace(x, Lift(literals[0]), [Mark]), literals[1..]);
    }
  }

  /** A clear literal found in flattened text is found among the symbols. */
  lemma {:induction false} FlattenOccurs(x: seq<Symbol>, p: seq<byte>, q: nat)
    requires Clear(p) && OccursAt(Flatten(x), q, p)
    ensures Occurs(x, Lift(p))
    decreases |x|
  {
    if q == 0 {
      assert Flatten(x)[0..] == Flatten(x);
      FlattenStartsWith(x, p);
      assert OccursAt(x, 0, Lift(p));
    } else {
      var head := if x[0].Mark? then MARKER else [x[0].b];
      if q < |head| {
        assert Flatten(x)[q..] == MARKER[q..] + Flatten(x[1..]);
        NoStartInMarker(Flatten(x[1..]), p, q);
        assert false;
      } else {
        assert Flatten(x)[q..] == Flatten(x[1..])[q - |head|..];
        FlattenOccurs(x[1..], p, q - |head|);
        var i: nat :| OccursAt(x[1..], i, Lift(p));
        assert x[i + 1..] == x[1..][i..];
        assert OccursAt(x, i + 1, Lift(p));
      }
    }
  }

  // ----- Fading: everything before the first new marker is unchanged -----

  ghost predicate Fades(y: seq<Symbol>, x: seq<Symbol>)
    decreases |y|
  {
    y == [] || y[0].Mark? || (x != [] && y[0] == x[0] && Fades(y[1..], x[1..]))
  }

  lemma {:induction false} FadesSelf(x: seq<Symbol>)
    ensures Fades(x, x)
    decreases |x|
  {
    if x != [] {
      FadesSelf(x[1..]);
    }
  }

  lemma {:induction false} FadesTrans(z: seq<Symbol>, y: seq<Symbol>, x: seq<Symbol>)
    requires Fades(z, y) && Fades(y, x)
    ensures Fades(z, x)
    decreases |z|
  {
    if z != [] && z[0].Byte? {
      FadesTrans(z[1..], y[1..], x[1..]);
    }
  }

  lemma {:induction false} FadesAfter(a: seq<Symbol>, y: seq<Symbol>, x: seq<Symbol>)
    requires Fades(y, x)
    ensures Fades(a + y, a + x)
    decreases |a|
  {
    if a == [] {
      assert a + y == y && a + x == x;
    } else {
      assert (a + y)[1..] == a[1..] + y && (a + x)[1..] == a[1..] + x;
      FadesAfter(a[1..], y, x);
    }
  }

  /** A literal that starts the faded text also started the original. */
  lemma {:induction false} FadesStart(y: seq<Symbol>, x: seq<Symbol>, p: seq<byte>)
    requires Fades(y, x) && StartsWith(y, Lift(p))
    ensures StartsWith(x, Lift(p))
    decreases |p|
  {
    if p != [] {
      assert y[0] == y[..|p|][0] == Byte(p[0]);
      assert y[1..][..|p| - 1] == Lift(p[1..]) by {
        assert forall k :: 0 <= k < |p| ==> y[k] == y[..|p|][k] == Byte(p[k]);
      }
      FadesStart(y[1..], x[1..], p[1..]);
      assert forall k :: 0 <= k < |p| - 1 ==> x[1..][k] == x[1..][..|p| - 1][k] == Byte(p[k + 1]);
      assert x[..|p|] == Lift(p);
    }
  }

  lemma {:induction false} ReplaceFades(x: seq<Symbol>, p: seq<byte>)
    requires p != []
    ensures Fades(Replace(x, Lift(p), [Mark]), x)
    decreases |x|
  {
    if x != [] && !StartsWith(x, Lift(p)) {
      ReplaceFades(x[1..], p);
      assert Replace(x, Lift(p), [Mark])[1..] == Replace(x[1..], Lift(p), [Mark]);
    }
  }

  lemma {:induction false} RedactFades(x: seq<Symbol>, literals: Literals)
    requires NonEmpty(literals)
    ensures Fades(Redact(x, literals), x)
    decreases |literals|
  {
    if literals == [] {
      FadesSelf(x);
    } else {
      var y := Replace(x, Lift(literals[0]), [Mark]);
      ReplaceFades(x, literals[0]);
      RedactFades(y, literals[1..]);
      FadesTrans(Redact(x, literals), y, x);
    }
  }

  // ----- What a pass removes and keeps out -----

  /** Replacement creates no occurrence, and leaves none of its own literal. */
  lemma {:induction false} ReplaceOccurs(x: seq<Symbol>, p: seq<byte>, q: seq<byte>, i: nat)
    requires p != [] && q != [] && OccursAt(Replace(x, Lift(p), [Mark]), i, Lift(q))
    ensures Occurs(x, Lift(q)) && p != q
    decreases |x|
  {
    var y := Replace(x, Lift(p), [Mark]);
    if i == 0 {
      assert y[0..] == y && x[0..] == x;
      ReplaceFades(x, p);
      FadesStart(y, x, q);
      assert OccursAt(x, 0, Lift(q));
    } else {
      assert x != [];
      var n := if StartsWith(x, Lift(p)) then |p| else 1;
      assert y[1..] == Replace(x[n..], Lift(p), [Mark]);
      assert y[i..] == y[1..][i - 1..];
      ReplaceOccurs(x[n..], p, q, i - 1);
      var k: nat :| OccursAt(x[n..], k, Lift(q));
      assert x[n..][k..] == x[n + k..];
      assert OccursAt(x, n + k, Lift(q));
    }
  }

  lemma {:induction false} RedactOccurs(x: seq<Symbol>, literals: Literals, q: seq<byte>)
    requires NonEmpty(literals) && q != [] && Occurs(Redact(x, literals), Lift(q))
    ensures Occurs(x, Lift(q)) && q !in literals
    decreases |literals|
  {
    if literals != [] {
      var y := Replace(x, Lift(literals[0]), [Mark]);
      RedactOccurs(y, literals[1..], q);
      var i: nat :| OccursAt(y, i, Lift(q));
      ReplaceOccurs(x, literals[0], q, i);
    }
  }

  lemma {:induction false} ReplaceAbsent(x: seq<Symbol>, p: seq<byte>)
    requires p != [] && !Occurs(x, Lift(p))
    ensures Replace(x, Lift(p), [Mark]) == x
    decreases |x|
  {
    if x != [] {
      assert x[0..] == x;
      assert !OccursAt(x, 0, Lift(p));
      assert !Occurs(x[1..], Lift(p)) by {
        if Occurs(x[1..], Lift(p)) {
          var k: nat :| OccursAt(x[1..], k, Lift(p));
          assert x[1..][k..] == x[k + 1..];
          assert OccursAt(x, k + 1, Lift(p));
        }
      }
      ReplaceAbsent(x[1..], p);
    }
  }

  /** Text free of the literals is left alone. */
  lemma {:induction false} RedactAbsent(x: seq<Symbol>, literals: Literals)
    requires NonEmpty(literals) && forall p :: p in literals ==> !Occurs(x, Lift(p))
    ensures Redact(x, literals) == x
    decreases |literals|
  {
    if literals != [] {
      ReplaceAbsent(x, literals[0]);
      RedactAbsent(x, literals[1..]);
    }
  }

  /**
   Whole-text redaction is sound for any set of secrets, overlapping or not, that cannot
   touch the marker: none of them occurs in the result.
   */
  lemma RedactedTextIsClean(text: seq<byte>, literals: Literals, p: seq<byte>)
    requires AllClear(literals) && p in literals
    ensures NonEmpty(literals) && !Occurs(RedactLiterals(text, literals), p)
  {
    FlattenLift(text);
    FlattenRedact(Lift(text), literals);
    var x := Redact(Lift(text), literals);
    if Occurs(Flatten(x), p) {
      var q: nat :| OccursAt(Flatten(x), q, p);
      FlattenOccurs(x, p, q);
      RedactOccurs(Lift(text), literals, p);
      assert false;
    }
  }
}

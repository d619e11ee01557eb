/** Read-root normalization of `crates/agent-run-config/src/profiles.rs`; a path is its components. */
module Roots {
  import opened Common
  import opened Ordering

  type Path = seq<string>

  /** Order of paths of equal length: component by component. */
  predicate ComponentsLess(a: Path, b: Path)
    decreases |a|
  {
    b != [] && (a == [] || TextLess(a[0], b[0]) || (a[0] == b[0] && ComponentsLess(a[1..], b[1..])))
  }

  /** The sort key: number of components, then the path. */
  predicate PathLess(a: Path, b: Path) {
    |a| < |b| || (|a| == |b| && ComponentsLess(a, b))
  }

  /** `p.starts_with(q)` */
  predicate Under(p: Path, q: Path) {
    StartsWith(p, q)
  }

  predicate UnderSome(p: Path, roots: seq<Path>) {
    exists i :: 0 <= i < |roots| && Under(p, roots[i])
  }

  /** The loop over the sorted, deduplicated roots. */
  function KeepOutermost(a: seq<Path>): seq<Path>
    decreases |a|
  {
    if a == [] then [] else
    var n := |a| - 1;
    var b := KeepOutermost(a[..n]);
    if UnderSome(a[n], b) then b else b + [a[n]]
  }

  /** `normalize_roots`: sort, drop repeats, keep what no kept root contains. */
  function NormalizeRoots(roots: seq<Path>): seq<Path> {
    KeepOutermost(Collect(PathLess, roots))
  }

  method NormalizeInOrder(roots: seq<Path>) returns (kept: seq<Path>)
    ensures kept == NormalizeRoots(roots)
  {
    var a := Collect(PathLess, roots);
    kept := [];
    for i := 0 to |a|
      invariant kept == KeepOutermost(a[..i])
    {
      assert a[..i + 1][..i] == a[..i];
      if !UnderSome(a[i], kept) {
        kept := kept + [a[i]];
      }
    }
    assert a[..|a|] == a;
  }

  lemma {:induction false} ComponentsLessIrreflexive(a: Path)
    ensures !ComponentsLess(a, a)
    decreases |a|
  {
    if a != [] {
      TextLessIrreflexive(a[0]);
      ComponentsLessIrreflexive(a[1..]);
    }
  }

  lemma {:induction false} ComponentsLessTransitive(a: Path, b: Path, c: Path)
    requires ComponentsLess(a, b) && ComponentsLess(b, c)
    ensures ComponentsLess(a, c)
    decreases |a|
  {
    if a != [] {
      if TextLess(a[0], b[0]) && TextLess(b[0], c[0]) {
        TextLessTransitive(a[0], b[0], c[0]);
      } else if a[0] == b[0] && b[0] == c[0] && !TextLess(a[0], c[0]) {
        TextLessIrreflexive(a[0]);
        ComponentsLessTransitive(a[1..], b[1..], c[1..]);
      }
    }
  }

  lemma {:induction false} ComponentsLessTotal(a: Path, b: Path)
    ensures a == b || ComponentsLess(a, b) || ComponentsLess(b, a)
    decreases |a|
  {
    if a != [] && b != [] {
      TextLessTotal(a[0], b[0]);
      if a[0] == b[0] {
        ComponentsLessTotal(a[1..], b[1..]);
        assert a == [a[0]] + a[1..] && b == [b[0]] + b[1..];
      }
    }
  }

  lemma PathLessIsStrict()
    ensures Strict(PathLess)
  {
    forall a: Path ensures !PathLess(a, a) { ComponentsLessIrreflexive(a); }
    forall a: Path, b: Path, c: Path | PathLess(a, b) && PathLess(b, c) ensures PathLess(a, c) {
      if |a| == |b| == |c| {
        ComponentsLessTransitive(a, b, c);
      }
    }
    forall a: Path, b: Path ensures a == b || PathLess(a, b) || PathLess(b, a) { ComponentsLessTotal(a, b); }
  }

  /** Not strictly inside any of `roots`. */
  ghost predicate Outermost(p: Path, roots: seq<Path>) {
    p in roots && forall q :: q in roots && Under(p, q) ==> q == p
  }

  lemma UnderTransitive(p: Path, q: Path, r: Path)
    requires Under(p, q) && Under(q, r)
    ensures Under(p, r)
  {
  }

  lemma UnderShrinks(p: Path, q: Path)
    requires Under(p, q) && (|p| <= |q| || PathLess(p, q))
    ensures p == q
  {
    assert p[..|p|] == p;
    ComponentsLessIrreflexive(p);
  }

  /** The last root is kept exactly when it is outermost. */
  lemma LastIsOutermost(before: seq<Path>, last: Path, b: seq<Path>)
    requires forall p :: p in b <==> Outermost(p, before)
    requires forall p :: p in before ==> UnderSome(p, b)
    requires forall p :: p in before ==> PathLess(p, last)
    ensures UnderSome(last, b) <==> !Outermost(last, before + [last])
  {
    if UnderSome(last, b) {
      var i :| 0 <= i < |b| && Under(last, b[i]);
      assert b[i] in b && b[i] in before;
      ComponentsLessIrreflexive(last);
    }
    if !Outermost(last, before + [last]) {
      var q :| q in before + [last] && Under(last, q) && q != last;
      assert q in before && UnderSome(q, b);
      var i :| 0 <= i < |b| && Under(q, b[i]);
      UnderTransitive(last, q, b[i]);
    }
  }

  /** A larger root changes nothing about the earlier ones. */
  lemma EarlierStayOutermost(before: seq<Path>, last: Path, p: Path)
    requires p in before && PathLess(p, last)
    ensures Outermost(p, before + [last]) <==> Outermost(p, before)
  {
    if Under(p, last) {
      UnderShrinks(p, last);
    }
  }

  lemma KeptAreOutermost(before: seq<Path>, last: Path, b: seq<Path>)
    requires forall p :: p in b <==> Outermost(p, before)
    requires forall p :: p in before ==> UnderSome(p, b)
    requires forall p :: p in before ==> PathLess(p, last)
    ensures var k := if UnderSome(last, b) then b else b + [last];
      forall p :: p in k <==> Outermost(p, before + [last])
  {
    var k := if UnderSome(last, b) then b else b + [last];
    LastIsOutermost(before, last, b);
    forall p ensures p in k <==> Outermost(p, before + [last]) {
      if p in before {
        EarlierStayOutermost(before, last, p);
        ComponentsLessIrreflexive(p);
      }
    }
  }

  lemma KeepExtends(before: seq<Path>, last: Path, b: seq<Path>)
    requires b == KeepOutermost(before) && Sorted(PathLess, b)
    requires forall p :: p in b <==> Outermost(p, before)
    requires forall p :: p in before ==> UnderSome(p, b)
    requires forall p :: p in before ==> PathLess(p, last)
    ensures var k := if UnderSome(last, b) then b else b + [last];
      && Sorted(PathLess, k)
      && (forall p :: p in before + [last] ==> UnderSome(p, k))
  {
    var k := if UnderSome(last, b) then b else b + [last];
    forall i, j | 0 <= i < j < |k| ensures PathLess(k[i], k[j]) {
      if j == |b| {
        assert k[i] in b;
      }
    }
    forall p | p in before + [last] ensures UnderSome(p, k) {
      if p in before {
        var i :| 0 <= i < |b| && Under(p, b[i]);
        assert k[i] == b[i];
      } else if !UnderSome(last, b) {
        assert last[..|last|] == last;
        assert Under(last, k[|b|]);
      }
    }
  }

  /** Every root lies under a kept one, and the kept ones are the outermost, in order. */
  lemma {:induction false} KeepOutermostIs(a: seq<Path>)
    requires Sorted(PathLess, a)
    ensures forall p :: p in KeepOutermost(a) <==> Outermost(p, a)
    ensures forall p :: p in a ==> UnderSome(p, KeepOutermost(a))
    ensures Sorted(PathLess, KeepOutermost(a))
    decreases |a|
  {
    if a != [] {
      var n := |a| - 1;
      var before, last := a[..n], a[n];
      var b := KeepOutermost(before);
      KeepOutermostIs(before);
      assert a == before + [last];
      forall p | p in before ensures PathLess(p, last) {
        var i :| 0 <= i < |before| && before[i] == p;
        assert a[i] == p;
      }
      KeptAreOutermost(before, last, b);
      KeepExtends(before, last, b);
    }
  }

  /** `kept` holds some of `roots`, covers all of them, and has no root inside another. */
  ghost predicate MinimalAntichain(kept: seq<Path>, roots: seq<Path>) {
    && (forall p :: p in kept ==> p in roots)
    && (forall p :: p in roots ==> UnderSome(p, kept))
    && (forall p, q :: p in kept && q in kept && Under(p, q) ==> p == q)
  }

  /** The elements of a minimal antichain are exactly the outermost roots, so it is unique as a set. */
  lemma AntichainIsOutermost(kept: seq<Path>, roots: seq<Path>, p: Path)
    requires MinimalAntichain(kept, roots)
    ensures p in kept <==> Outermost(p, roots)
  {
    if p in kept {
      forall q | q in roots && Under(p, q) ensures q == p {
        var i :| 0 <= i < |kept| && Under(q, kept[i]);
        UnderTransitive(p, q, kept[i]);
        assert kept[i] in kept;
        UnderShrinks(q, p);
      }
    }
    if Outermost(p, roots) {
      var i :| 0 <= i < |kept| && Under(p, kept[i]);
      assert kept[i] in kept;
    }
  }

  /**
   `normalize_roots` returns the minimal antichain of its input: every result is an input, every
   input lies under a result, no result lies under another. It is the only one, up to order.
   */
  lemma NormalizedIsMinimalAntichain(roots: seq<Path>)
    ensures MinimalAntichain(NormalizeRoots(roots), roots)
    ensures Sorted(PathLess, NormalizeRoots(roots))
    ensures forall other, p :: MinimalAntichain(other, roots) ==> (p in other <==> p in NormalizeRoots(roots))
  {
    PathLessIsStrict();
    var a := Collect(PathLess, roots);
    CollectIsSortedSet(PathLess, roots);
    KeepOutermostIs(a);
    var kept := NormalizeRoots(roots);
    assert MinimalAntichain(kept, roots);
    forall other, p | MinimalAntichain(other, roots) ensures p in other <==> p in kept {
      AntichainIsOutermost(other, roots, p);
      AntichainIsOutermost(kept, roots, p);
    }
  }

  /** The output depends only on which roots are given, not on their order or repetition. */
  lemma NormalizedIgnoresOrder(one: seq<Path>, other: seq<Path>)
    requires forall p :: p in one <==> p in other
    ensures NormalizeRoots(one) == NormalizeRoots(other)
  {
    PathLessIsStrict();
    CollectIsSortedSet(PathLess, one);
    CollectIsSortedSet(PathLess, other);
    SortedIsUnique(PathLess, Collect(PathLess, one), Collect(PathLess, other));
  }

  /** Normalizing again changes nothing. */
  lemma NormalizedIsIdempotent(roots: seq<Path>)
    ensures NormalizeRoots(NormalizeRoots(roots)) == NormalizeRoots(roots)
  {
    var kept := NormalizeRoots(roots);
    NormalizedIsMinimalAntichain(roots);
    NormalizedIsMinimalAntichain(kept);
    PathLessIsStrict();
    forall p ensures p in kept <==> p in NormalizeRoots(kept) {
      AntichainIsOutermost(NormalizeRoots(kept), kept, p);
    }
    SortedIsUnique(PathLess, NormalizeRoots(kept), kept);
  }
}

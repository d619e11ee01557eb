/** Sets kept as strictly sorted sequences, as Rust's ordered collections are iterated. */
module Ordering {

  /** A strict total order. */
  ghost predicate Strict<T(!new)>(less: (T, T) -> bool) {
    && (forall a :: !less(a, a))
    && (forall a, b, c :: less(a, b) && less(b, c) ==> less(a, c))
    && (forall a, b :: a == b || less(a, b) || less(b, a))
  }

  ghost predicate Sorted<T>(less: (T, T) -> bool, s: seq<T>) {
    forall i, j :: 0 <= i < j < |s| ==> less(s[i], s[j])
  }

  /** Inserting into an ordered set: an element already there is not repeated. */
  function Insert<T(==)>(less: (T, T) -> bool, s: seq<T>, x: T): seq<T>
    decreases |s|
  {
    if s == [] then [x]
    else if x == s[0] then s
    else if less(x, s[0]) then [x] + s
    else [s[0]] + Insert(less, s[1..], x)
  }

  /** Collecting into an ordered set. */
  function Collect<T(==)>(less: (T, T) -> bool, s: seq<T>): seq<T>
    decreases |s|
  {
    if s == [] then [] else Insert(less, Collect(less, s[..|s| - 1]), s[|s| - 1])
  }

  lemma {:induction false} InsertAdds<T>(less: (T, T) -> bool, s: seq<T>, x: T)
    ensures forall y :: y in Insert(less, s, x) <==> y in s || y == x
    decreases |s|
  {
    if s != [] && x != s[0] && !less(x, s[0]) {
      InsertAdds(less, s[1..], x);
      assert s == [s[0]] + s[1..];
    }
  }

  lemma {:induction false} InsertGrows<T>(less: (T, T) -> bool, s: seq<T>, x: T)
    ensures |s| <= |Insert(less, s, x)| <= |s| + 1
    ensures x !in s ==> |Insert(less, s, x)| == |s| + 1
    decreases |s|
  {
    if s != [] && x != s[0] && !less(x, s[0]) {
      InsertGrows(less, s[1..], x);
    }
  }

  lemma {:induction false} InsertKeepsSorted<T(!new)>(less: (T, T) -> bool, s: seq<T>, x: T)
    requires Strict(less) && Sorted(less, s)
    ensures Sorted(less, Insert(less, s, x))
    decreases |s|
  {
    if s != [] && x != s[0] && !less(x, s[0]) {
      InsertKeepsSorted(less, s[1..], x);
      InsertAdds(less, s[1..], x);
      var r := Insert(less, s[1..], x);
      forall i | 0 <= i < |r| ensures less(s[0], r[i]) {
        assert r[i] in r;
      }
    }
  }

  lemma {:induction false} CollectIsSortedSet<T(!new)>(less: (T, T) -> bool, s: seq<T>)
    requires Strict(less)
    ensures Sorted(less, Collect(less, s))
    ensures forall y :: y in Collect(less, s) <==> y in s
    decreases |s|
  {
    if s != [] {
      var n := |s| - 1;
      CollectIsSortedSet(less, s[..n]);
      InsertKeepsSorted(less, Collect(less, s[..n]), s[n]);
      InsertAdds(less, Collect(less, s[..n]), s[n]);
      assert s == s[..n] + [s[n]];
    }
  }

  /** A strictly sorted sequence is determined by its elements. */
  lemma {:induction false} SortedIsUnique<T(!new)>(less: (T, T) -> bool, a: seq<T>, b: seq<T>)
    requires Strict(less) && Sorted(less, a) && Sorted(less, b)
    requires forall y :: y in a <==> y in b
    ensures a == b
    decreases |a|
  {
    if a != [] {
      assert a[0] in a;
      var i :| 0 <= i < |b| && b[i] == a[0];
      assert b[0] in b;
      var j :| 0 <= j < |a| && a[j] == b[0];
      assert a[0] == b[0];
      forall y ensures y in a[1..] <==> y in b[1..] {
        TailMembers(less, a, y);
        TailMembers(less, b, y);
      }
      SortedIsUnique(less, a[1..], b[1..]);
      assert a == [a[0]] + a[1..] && b == [b[0]] + b[1..];
    } else if b != [] {
      HasMember(b);
    }
  }

  lemma HasMember<T>(s: seq<T>)
    requires s != []
    ensures exists y :: y in s
  {
    assert s[0] in s;
  }

  lemma TailMembers<T(!new)>(less: (T, T) -> bool, a: seq<T>, y: T)
    requires Strict(less) && Sorted(less, a) && a != []
    ensures y in a[1..] <==> y in a && y != a[0]
  {
  }

  // ----- Text -----

  /** Rust's order on `str`, which is also the order of the UTF-8 bytes. */
  predicate TextLess(a: string, b: string)
    decreases |a|
  {
    b != "" && (a == "" || a[0] < b[0] || (a[0] == b[0] && TextLess(a[1..], b[1..])))
  }

  lemma {:induction false} TextLessIrreflexive(a: string)
    ensures !TextLess(a, a)
    decreases |a|
  {
    if a != "" {
      TextLessIrreflexive(a[1..]);
    }
  }

  lemma {:induction false} TextLessTransitive(a: string, b: string, c: string)
    requires TextLess(a, b) && TextLess(b, c)
    ensures TextLess(a, c)
    decreases |a|
  {
    if a != "" && a[0] == b[0] && b[0] == c[0] {
      TextLessTransitive(a[1..], b[1..], c[1..]);
    }
  }

  lemma {:induction false} TextLessTotal(a: string, b: string)
    ensures a == b || TextLess(a, b) || TextLess(b, a)
    decreases |a|
  {
    if a != "" && b != "" && a[0] == b[0] {
      TextLessTotal(a[1..], b[1..]);
      assert a == [a[0]] + a[1..] && b == [b[0]] + b[1..];
    }
  }

  lemma TextLessIsStrict()
    ensures Strict(TextLess)
  {
    forall a ensures !TextLess(a, a) { TextLessIrreflexive(a); }
    forall a, b, c | TextLess(a, b) && TextLess(b, c) ensures TextLess(a, c) { TextLessTransitive(a, b, c); }
    forall a, b ensures a == b || TextLess(a, b) || TextLess(b, a) { TextLessTotal(a, b); }
  }
}

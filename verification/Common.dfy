/** Types shared by every module. */
module Common {
  datatype Option<+T> = None | Some(value: T)

  datatype Result<+T, +E> = Ok(value: T) | Err(error: E)

  type byte = b: int | 0 <= b < 256

  /** `s` starts with `p`. */
  predicate StartsWith<T(==)>(s: seq<T>, p: seq<T>) {
    |p| <= |s| && s[..|p|] == p
  }

  function Joined<T>(parts: seq<seq<T>>): seq<T>
    decreases |parts|
  {
    if parts == [] then [] else parts[0] + Joined(parts[1..])
  }

  predicate Unique<T(==)>(xs: seq<T>) {
    forall i, j :: 0 <= i < j < |xs| ==> xs[i] != xs[j]
  }

  /** The built-in worker server, whose name no other server may have. */
  const SERVER_NAME := "agent_run_worker"

  /** A letter, a digit, an underscore or a hyphen. */
  predicate WordChar(c: char) {
    'a' <= c <= 'z' || 'A' <= c <= 'Z' || '0' <= c <= '9' || c == '_' || c == '-'
  }

  lemma ConcatAssoc<T>(a: seq<T>, b: seq<T>, c: seq<T>)
    ensures (a + b) + c == a + (b + c)
  {
  }

  lemma ConcatSplit<T>(a: seq<T>, b: seq<T>, p: seq<T>)
    requires StartsWith(b, p)
    ensures a + b == a + p + b[|p|..]
  {
  }

  lemma CutTwice<T>(s: seq<T>, w: nat, i: nat)
    requires w <= i <= |s|
    ensures s[w..][i - w..] == s[i..] && s[w..][..i - w] == s[..i][w..]
  {
  }

  lemma DropConcat<T>(a: seq<T>, b: seq<T>, w: nat)
    requires w <= |a|
    ensures (a + b)[w..] == a[w..] + b
  {
  }

  lemma TakeBeforeLast<T>(s: seq<T>, x: T)
    ensures (s + [x])[..|s|] == s && (s + [x])[|s|] == x
  {
  }

  lemma SplitLast<T>(s: seq<T>)
    requires s != []
    ensures s == s[..|s| - 1] + [s[|s| - 1]]
  {
  }

  lemma SliceJoin<T>(s: seq<T>, a: nat, b: nat)
    requires a <= b <= |s|
    ensures s[..a] + s[a..b] == s[..b]
  {
  }

  lemma TailOf<T>(x: T, xs: seq<T>)
    ensures ([x] + xs)[1..] == xs
  {
  }

  lemma FirstOfConcat<T>(a: seq<T>, b: seq<T>)
    requires a != []
    ensures (a + b)[0] == a[0] && (a + b)[1..] == a[1..] + b
  {
  }

  // ----- Splitting at a separator -----

  function Split<T(==)>(s: seq<T>, sep: T): (r: seq<seq<T>>)
    ensures |r| > 0
    decreases |s|
  {
    if s == [] then [[]]
    else if s[0] == sep then [[]] + Split(s[1..], sep)
    else OntoFirst(s[0], Split(s[1..], sep))
  }

  function OntoFirst<T>(x: T, parts: seq<seq<T>>): (r: seq<seq<T>>)
    requires parts != []
    ensures |r| == |parts|
  {
    [[x] + parts[0]] + parts[1..]
  }

  lemma OntoFirstConcat<T>(x: T, a: seq<seq<T>>, b: seq<seq<T>>)
    requires a != []
    ensures OntoFirst(x, a + b) == OntoFirst(x, a) + b
  {
    FirstOfConcat(a, b);
    ConcatAssoc([[x] + a[0]], a[1..], b);
  }

  lemma DropFirst<T>(a: seq<T>, sep: T, b: seq<T>)
    requires a != []
    ensures (a + [sep] + b)[0] == a[0] && (a + [sep] + b)[1..] == a[1..] + [sep] + b
  {
  }

  lemma {:induction false} SplitConcat<T>(a: seq<T>, b: seq<T>, sep: T)
    ensures Split(a + [sep] + b, sep) == Split(a, sep) + Split(b, sep)
    decreases |a|
  {
    if a == [] {
      assert a + [sep] + b == [sep] + b;
      TailOf(sep, b);
    } else {
      DropFirst(a, sep, b);
      SplitConcat(a[1..], b, sep);
      if a[0] == sep {
        ConcatAssoc([[]], Split(a[1..], sep), Split(b, sep));
      } else {
        OntoFirstConcat(a[0], Split(a[1..], sep), Split(b, sep));
      }
    }
  }

  lemma {:induction false} SplitAlone<T>(s: seq<T>, sep: T)
    requires sep !in s
    ensures Split(s, sep) == [s]
    decreases |s|
  {
    if s != [] {
      assert s == [s[0]] + s[1..];
      assert s[0] in s;
      SplitAlone(s[1..], sep);
    }
  }
}

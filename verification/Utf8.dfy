/**
 UTF-8 text as Rust's `str` holds it: a leading byte announces how many continuation
 bytes follow, and the second byte rules out overlong, surrogate and too large encodings.
 */
module Utf8 {
  import opened Common

  predicate Continuation(b: byte) {
    0x80 <= b < 0xC0
  }

  /** Bytes in the character led by `b`; zero when `b` leads nothing. */
  function Width(b: byte): nat {
    if b < 0x80 then 1
    else if b < 0xC2 then 0
    else if b < 0xE0 then 2
    else if b < 0xF0 then 3
    else if b < 0xF5 then 4
    else 0
  }

  /** The second bytes a leading byte does not take although they are continuation bytes. */
  predicate SecondOk(lead: byte, second: byte) {
    && (lead == 0xE0 ==> second >= 0xA0)
    && (lead == 0xED ==> second < 0xA0)
    && (lead == 0xF0 ==> second >= 0x90)
    && (lead == 0xF4 ==> second < 0x90)
  }

  /** One well-formed character starts at `i`. */
  predicate LeadsAt(s: seq<byte>, i: nat)
    requires i < |s|
  {
    var w := Width(s[i]);
    && 0 < w && i + w <= |s|
    && (w > 1 ==> Continuation(s[i + 1]) && SecondOk(s[i], s[i + 1]))
    && (w > 2 ==> Continuation(s[i + 2]))
    && (w > 3 ==> Continuation(s[i + 3]))
  }

  /** From `i` on the text is a list of well-formed characters. */
  predicate ValidFrom(s: seq<byte>, i: nat)
    requires i <= |s|
    decreases |s| - i
  {
    i == |s| || (LeadsAt(s, i) && ValidFrom(s, i + Width(s[i])))
  }

  predicate Valid(s: seq<byte>) {
    ValidFrom(s, 0)
  }

  /** `str::is_char_boundary` for an index within the text. */
  predicate Boundary(s: seq<byte>, i: nat)
    requires i <= |s|
  {
    i == 0 || i == |s| || !Continuation(s[i])
  }

  /** Reading character by character stops at every boundary. */
  lemma {:induction false} StopsAt(s: seq<byte>, at: nat, i: nat)
    requires at <= i <= |s| && ValidFrom(s, at) && (i == at || Boundary(s, i))
    ensures ValidFrom(s, i)
    decreases |s| - at
  {
    if at < i {
      StopsAt(s, at + Width(s[at]), i);
    }
  }

  lemma {:induction false} Shifted(s: seq<byte>, t: seq<byte>, c: nat, i: nat)
    requires c <= |s| && t == s[c..] && i <= |t|
    ensures ValidFrom(t, i) <==> ValidFrom(s, c + i)
    decreases |t| - i
  {
    if i < |t| && LeadsAt(t, i) {
      Shifted(s, t, c, i + Width(t[i]));
    }
  }

  lemma {:induction false} Shortened(s: seq<byte>, t: seq<byte>, i: nat)
    requires i <= |t| <= |s| && t == s[..|t|] && ValidFrom(s, i) && Boundary(s, |t|)
    ensures ValidFrom(t, i)
    decreases |t| - i
  {
    if i < |t| {
      Shortened(s, t, i + Width(s[i]));
    }
  }

  /** Cutting valid text at a boundary leaves two valid texts. */
  lemma ValidSplit(s: seq<byte>, i: nat)
    requires Valid(s) && i <= |s| && Boundary(s, i)
    ensures Valid(s[..i]) && Valid(s[i..])
  {
    StopsAt(s, 0, i);
    Shifted(s, s[i..], i, 0);
    Shortened(s, s[..i], 0);
  }

  lemma {:induction false} Lengthened(a: seq<byte>, s: seq<byte>, i: nat)
    requires i <= |a| <= |s| && a == s[..|a|] && ValidFrom(a, i) && ValidFrom(s, |a|)
    ensures ValidFrom(s, i)
    decreases |a| - i
  {
    if i < |a| {
      Lengthened(a, s, i + Width(a[i]));
    }
  }

  lemma ValidConcat(a: seq<byte>, b: seq<byte>)
    requires Valid(a) && Valid(b)
    ensures Valid(a + b)
  {
    var s := a + b;
    assert s[|a|..] == b && s[..|a|] == a;
    Shifted(s, b, |a|, 0);
    Lengthened(a, s, 0);
  }

  lemma {:induction false} ReadsPast(s: seq<byte>, p: seq<byte>, i: nat)
    requires i <= |p| <= |s| && p == s[..|p|] && ValidFrom(s, i) && ValidFrom(p, i)
    ensures ValidFrom(s, |p|)
    decreases |p| - i
  {
    if i < |p| {
      assert p[i] == s[i];
      ReadsPast(s, p, i + Width(p[i]));
    }
  }

  /** What follows a valid prefix of valid text is valid. */
  lemma ValidAfter(s: seq<byte>, p: seq<byte>)
    requires Valid(s) && Valid(p) && StartsWith(s, p)
    ensures Valid(s[|p|..])
  {
    ReadsPast(s, p, 0);
    Shifted(s, s[|p|..], |p|, 0);
  }

  lemma {:induction false} NearFrom(s: seq<byte>, at: nat, i: nat)
    requires at <= |s| && ValidFrom(s, at) && at + 3 < i < |s|
    ensures !(Continuation(s[i]) && Continuation(s[i - 1]) && Continuation(s[i - 2]) && Continuation(s[i - 3]))
    decreases |s| - at
  {
    var next := at + Width(s[at]);
    if next + 3 < i {
      NearFrom(s, next, i);
    }
  }

  /** Valid text has no four continuation bytes in a row, so a boundary is never more than three away. */
  lemma BoundaryNear(s: seq<byte>, i: nat)
    requires Valid(s) && 3 < i < |s|
    ensures !(Continuation(s[i]) && Continuation(s[i - 1]) && Continuation(s[i - 2]) && Continuation(s[i - 3]))
  {
    NearFrom(s, 0, i);
  }

  lemma {:induction false} AsciiFrom(s: seq<byte>, i: nat)
    requires i <= |s| && forall k :: 0 <= k < |s| ==> s[k] < 0x80
    ensures ValidFrom(s, i)
    decreases |s| - i
  {
    if i < |s| {
      AsciiFrom(s, i + 1);
    }
  }
}

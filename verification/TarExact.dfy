/** Exactly what the field readers of the archive inspector accept, and what they read it as. */
module TarExact {
  import opened Common
  import Utf8
  import opened Tar
  import opened TarStream
  import opened TarNames
  import opened TarPrinter

  // ----- Numbers -----

  ghost predicate AllFiller(s: Bytes) {
    forall i :: 0 <= i < |s| ==> Filler(s[i])
  }

  predicate AllOctal(s: Bytes) {
    forall i :: 0 <= i < |s| ==> OctalDigit(s[i])
  }

  /** A field is these digits with filler around them. */
  ghost predicate Framed(s: Bytes, left: Bytes, digits: Bytes, right: Bytes) {
    s == left + digits + right && AllFiller(left) && AllFiller(right) && AllOctal(digits)
  }

  lemma {:induction false} TrimRightSplits(s: Bytes) returns (right: Bytes)
    ensures s == TrimRight(s) + right && AllFiller(right)
    decreases |s|
  {
    right := [];
    if s != [] && Filler(s[|s| - 1]) {
      SplitLast(s);
      var more := TrimRightSplits(s[..|s| - 1]);
      ConcatAssoc(TrimRight(s), more, [s[|s| - 1]]);
      right := more + [s[|s| - 1]];
    }
  }

  lemma {:induction false} TrimLeftSplits(s: Bytes) returns (left: Bytes)
    ensures s == left + TrimLeft(s) && AllFiller(left)
    decreases |s|
  {
    left := [];
    if s != [] && Filler(s[0]) {
      var more := TrimLeftSplits(s[1..]);
      assert s == [s[0]] + s[1..];
      ConcatAssoc([s[0]], more, TrimLeft(s));
      left := [s[0]] + more;
    }
  }

  lemma {:induction false} FillerTrims(s: Bytes)
    requires AllFiller(s)
    ensures TrimRight(s) == []
    decreases |s|
  {
    if s != [] {
      FillerTrims(s[..|s| - 1]);
    }
  }

  lemma {:induction false} TrimLeftFiller(left: Bytes, s: Bytes)
    requires AllFiller(left) && s != [] && !Filler(s[0])
    ensures TrimLeft(left + s) == s
    decreases |left|
  {
    if left == [] {
      assert left + s == s;
    } else {
      FirstOfConcat(left, s);
      TrimLeftFiller(left[1..], s);
    }
  }

  lemma FramedTrims(s: Bytes, left: Bytes, digits: Bytes, right: Bytes)
    requires Framed(s, left, digits, right)
    ensures TrimLeft(TrimRight(s)) == digits
  {
    if digits == [] {
      assert AllFiller(s);
      FillerTrims(s);
    } else {
      var head := left + digits;
      assert OctalDigit(digits[|digits| - 1]) && OctalDigit(digits[0]);
      assert head[|head| - 1] == digits[|digits| - 1];
      TrimRightFiller(head, right);
      TrimLeftFiller(left, digits);
    }
  }

  /** A field reads as a number exactly when it is octal digits between filler, of that value and below 2^64. */
  lemma OctalIff(s: Bytes, v: nat)
    ensures Octal(s) == Some(v) <==>
      v < 0x1_0000_0000_0000_0000 && exists left, digits, right ::
        Framed(s, left, digits, right) && OctalValue(digits) == v
  {
    var t := TrimLeft(TrimRight(s));
    if Octal(s) == Some(v) {
      var right := TrimRightSplits(s);
      var left := TrimLeftSplits(TrimRight(s));
      assert Framed(s, left, t, right);
    }
    if left, digits, right :| Framed(s, left, digits, right) && OctalValue(digits) == v {
      FramedTrims(s, left, digits, right);
    }
  }

  // ----- Text -----

  /** `t` is what comes before the first NUL of a field, or all of it. */
  predicate BeforeNul(field: Bytes, t: Bytes) {
    StartsWith(field, t) && 0 !in t && (|t| < |field| ==> field[|t|] == 0)
  }

  lemma {:induction false} UpToNulIs(field: Bytes)
    ensures BeforeNul(field, UpToNul(field))
    decreases |field|
  {
    if field != [] && field[0] != 0 {
      UpToNulIs(field[1..]);
      assert field == [field[0]] + field[1..];
      assert UpToNul(field)[..] == [field[0]] + UpToNul(field[1..]);
    }
  }

  lemma BeforeNulIsUnique(field: Bytes, a: Bytes, b: Bytes)
    requires BeforeNul(field, a) && BeforeNul(field, b)
    ensures a == b
  {
    assert forall i :: 0 <= i < |a| ==> a[i] in a && a[i] == field[i];
    assert forall i :: 0 <= i < |b| ==> b[i] in b && b[i] == field[i];
  }

  /** A field reads as text exactly when what comes before its first NUL is valid UTF-8 without control characters. */
  lemma TextIff(field: Bytes, t: Bytes)
    ensures Text(field) == Some(t) <==> BeforeNul(field, t) && Utf8.Valid(t) && Printable(t)
  {
    UpToNulIs(field);
    if BeforeNul(field, t) {
      BeforeNulIsUnique(field, t, UpToNul(field));
    }
  }

  // ----- Names -----

  function Repeat(s: Bytes, n: nat): Bytes {
    if n == 0 then [] else s + Repeat(s, n - 1)
  }

  const DOT_SLASH: Bytes := [DOT, SLASH]

  /** The spellings of a clean path: any number of `./` before it and of `/` behind it; the root may be a dot. */
  ghost predicate Spells(path: Bytes, clean: Bytes, a: nat, b: nat) {
    || (clean != [] && Clean(clean) && path == Repeat(DOT_SLASH, a) + clean + Repeat([SLASH], b))
    || (clean == [] && path == Repeat(DOT_SLASH, a) + Repeat([SLASH], b))
    || (clean == [] && path == Repeat(DOT_SLASH, a) + [DOT])
  }

  lemma {:induction false} StripSplits(path: Bytes) returns (a: nat)
    ensures path == Repeat(DOT_SLASH, a) + StripDots(path)
    decreases |path|
  {
    a := 0;
    if LeadsDot(path) {
      var more := StripSplits(path[2..]);
      assert path == DOT_SLASH + path[2..] by {
        assert path[..2] == DOT_SLASH;
      }
      ConcatAssoc(DOT_SLASH, Repeat(DOT_SLASH, more), StripDots(path));
      a := more + 1;
    }
  }

  lemma {:induction false} RepeatLast(n: nat)
    requires n > 0
    ensures Repeat([SLASH], n) == Repeat([SLASH], n - 1) + [SLASH]
  {
    if n > 1 {
      RepeatLast(n - 1);
      ConcatAssoc([SLASH], Repeat([SLASH], n - 2), [SLASH]);
    }
  }

  lemma {:induction false} TrimSplits(path: Bytes) returns (b: nat)
    ensures path == TrimSlashes(path) + Repeat([SLASH], b)
    decreases |path|
  {
    b := 0;
    if path != [] && path[|path| - 1] == SLASH {
      var more := TrimSplits(path[..|path| - 1]);
      SplitLast(path);
      ConcatAssoc(TrimSlashes(path), Repeat([SLASH], more), [SLASH]);
      RepeatLast(more + 1);
      b := more + 1;
    }
  }

  lemma {:induction false} StripRepeat(a: nat, rest: Bytes)
    requires !LeadsDot(rest)
    ensures StripDots(Repeat(DOT_SLASH, a) + rest) == rest
    decreases a
  {
    var path := Repeat(DOT_SLASH, a) + rest;
    if a == 0 {
      assert path == rest;
    } else {
      ConcatAssoc(DOT_SLASH, Repeat(DOT_SLASH, a - 1), rest);
      assert path[..2] == DOT_SLASH && path[2..] == Repeat(DOT_SLASH, a - 1) + rest;
      StripRepeat(a - 1, rest);
    }
  }

  lemma {:induction false} TrimRepeat(core: Bytes, b: nat)
    requires core == [] || core[|core| - 1] != SLASH
    ensures TrimSlashes(core + Repeat([SLASH], b)) == core
    decreases b
  {
    if b == 0 {
      assert core + Repeat([SLASH], 0) == core;
    } else {
      RepeatLast(b);
      ConcatAssoc(core, Repeat([SLASH], b - 1), [SLASH]);
      TakeBeforeLast(core + Repeat([SLASH], b - 1), SLASH);
      TrimRepeat(core, b - 1);
    }
  }

  /** Dots and slashes around a path add no component `..`. */
  lemma {:induction false} NoDotsBefore(a: nat, rest: Bytes)
    requires DOTS !in Split(rest, SLASH)
    ensures DOTS !in Split(Repeat(DOT_SLASH, a) + rest, SLASH)
    decreases a
  {
    if a == 0 {
      assert Repeat(DOT_SLASH, a) + rest == rest;
    } else {
      var more := Repeat(DOT_SLASH, a - 1) + rest;
      NoDotsBefore(a - 1, rest);
      ConcatAssoc(DOT_SLASH, Repeat(DOT_SLASH, a - 1), rest);
      assert Repeat(DOT_SLASH, a) + rest == [DOT] + [SLASH] + more;
      SplitConcat([DOT], more, SLASH);
      SplitAlone([DOT], SLASH);
    }
  }

  lemma {:induction false} NoDotsBehind(core: Bytes, b: nat)
    requires DOTS !in Split(core, SLASH)
    ensures DOTS !in Split(core + Repeat([SLASH], b), SLASH)
    decreases b
  {
    if b == 0 {
      assert core + Repeat([SLASH], b) == core;
    } else {
      NoDotsBehind(core, b - 1);
      RepeatLast(b);
      ConcatAssoc(core, Repeat([SLASH], b - 1), [SLASH]);
      var most := core + Repeat([SLASH], b - 1);
      assert most + [SLASH] == most + [SLASH] + [];
      SplitConcat(most, [], SLASH);
    }
  }

  lemma CleanEnds(clean: Bytes, b: nat)
    requires clean != [] && Clean(clean)
    ensures clean[|clean| - 1] != SLASH && clean != [DOT] && !LeadsDot(clean + Repeat([SLASH], b))
  {
    var n := |clean| - 1;
    SplitAlone([DOT], SLASH);
    if clean[n] == SLASH {
      assert clean == clean[..n] + [SLASH] + [];
      SplitConcat(clean[..n], [], SLASH);
    }
    var whole := clean + Repeat([SLASH], b);
    assert clean[0] == whole[0] && (n > 0 ==> clean[1] == whole[1]);
    assert |whole| >= 2 ==> whole[..2][0] == whole[0] && whole[..2][1] == whole[1];
    assert n == 0 && clean[0] == DOT ==> clean == [DOT];
    if n > 0 && clean[0] == DOT && clean[1] == SLASH {
      assert clean == [DOT] + [SLASH] + clean[2..];
      SplitConcat([DOT], clean[2..], SLASH);
    }
  }

  lemma SpelledCleanNormalizes(path: Bytes, clean: Bytes, a: nat, b: nat)
    requires clean != [] && Clean(clean) && path == Repeat(DOT_SLASH, a) + clean + Repeat([SLASH], b)
    requires !StartsWithSlash(path)
    ensures Normalize(path) == Some(clean)
  {
    var rest := clean + Repeat([SLASH], b);
    CleanEnds(clean, b);
    ConcatAssoc(Repeat(DOT_SLASH, a), clean, Repeat([SLASH], b));
    NoDotsBehind(clean, b);
    NoDotsBefore(a, rest);
    StripRepeat(a, rest);
    TrimRepeat(clean, b);
  }

  lemma SpelledRootNormalizes(path: Bytes, a: nat, b: nat)
    requires path == Repeat(DOT_SLASH, a) + Repeat([SLASH], b) || path == Repeat(DOT_SLASH, a) + [DOT]
    requires !StartsWithSlash(path)
    ensures Normalize(path) == Some([])
  {
    SplitAlone([DOT], SLASH);
    SplitAlone([], SLASH);
    if path == Repeat(DOT_SLASH, a) + [DOT] {
      NoDotsBefore(a, [DOT]);
      StripRepeat(a, [DOT]);
    } else {
      var rest := Repeat([SLASH], b);
      assert [] + rest == rest;
      NoDotsBehind([], b);
      NoDotsBefore(a, rest);
      assert !LeadsDot(rest);
      StripRepeat(a, rest);
      TrimRepeat([], b);
    }
  }

  lemma NormalizedIsSpelled(path: Bytes) returns (a: nat, b: nat)
    requires Normalize(path).Some?
    ensures Spells(path, Normalize(path).value, a, b)
  {
    var rest := StripDots(path);
    var bare := TrimSlashes(rest);
    a := StripSplits(path);
    b := TrimSplits(rest);
    NormalizedIsClean(path);
    ConcatAssoc(Repeat(DOT_SLASH, a), bare, Repeat([SLASH], b));
    if bare == [DOT] {
      StripsAll(path);
      DotThenSlashes(b);
    } else if bare == [] {
      assert bare + Repeat([SLASH], b) == Repeat([SLASH], b);
    }
  }

  lemma DotThenSlashes(b: nat)
    ensures b == 0 || LeadsDot([DOT] + Repeat([SLASH], b))
  {
    if b > 0 {
      assert ([DOT] + Repeat([SLASH], b))[..2] == DOT_SLASH;
    }
  }

  /**
   Normalization accepts exactly the relative spellings of clean paths, with `./` in front and
   slashes behind, and yields the clean path.
   */
  lemma NormalizeIff(path: Bytes, clean: Bytes)
    ensures Normalize(path) == Some(clean) <==> !StartsWithSlash(path) && exists a, b :: Spells(path, clean, a, b)
  {
    if Normalize(path) == Some(clean) {
      var a, b := NormalizedIsSpelled(path);
    } else if !StartsWithSlash(path) {
      forall a, b ensures !Spells(path, clean, a, b) {
        SpelledNormalizes(path, clean, a, b);
      }
    }
  }

  lemma SpelledNormalizes(path: Bytes, clean: Bytes, a: nat, b: nat)
    requires !StartsWithSlash(path)
    ensures Spells(path, clean, a, b) ==> Normalize(path) == Some(clean)
  {
    if Spells(path, clean, a, b) {
      if clean == [] {
        SpelledRootNormalizes(path, a, b);
      } else {
        SpelledCleanNormalizes(path, clean, a, b);
      }
    }
  }

  lemma {:induction false} StripsAll(path: Bytes)
    ensures !LeadsDot(StripDots(path))
    decreases |path|
  {
    if LeadsDot(path) {
      StripsAll(path[2..]);
    }
  }

  // ----- Headers -----

  lemma {:induction false} SumChanges(h: Bytes, i: nat, b: byte, from: nat)
    requires i < |h| && !(148 <= i < 156) && from <= |h|
    ensures SumFrom(h[i := b], from) == SumFrom(h, from) + if from <= i then b - h[i] else 0
    decreases |h| - from
  {
    if from < |h| {
      SumChanges(h, i, b, from + 1);
    }
  }

  /** Changing any one byte of an accepted header, outside the checksum itself, makes it refused. */
  lemma OneByteChangeIsRefused(h: Bytes, i: nat, b: byte)
    requires ReadHeader(h).Some? && i < |h| && !(148 <= i < 156) && b != h[i]
    ensures ReadHeader(h[i := b]).None?
  {
    SumChanges(h, i, b, 0);
    assert h[i := b][148..156] == h[148..156];
  }

  lemma {:induction false} SumIsPlain(h: Bytes, i: nat)
    requires |h| == BLOCK && i <= BLOCK
    ensures SumFrom(h, i) == ByteSum(Put(h, 148, BLANKS), i)
    decreases BLOCK - i
  {
    var b := Put(h, 148, BLANKS);
    assert forall k :: 0 <= k < BLOCK ==> b[k] == if 148 <= k < 156 then 32 else h[k];
    SumsAgree(h, b, i);
  }

  /**
   Exactly the headers that are read: a block of one of the two formats whose checksum field holds
   the sum of its bytes with that field blanked, with numbers for size and mode and a safe name.
   */
  lemma ReadHeaderIff(h: Bytes, x: Header)
    ensures ReadHeader(h) == Some(x) <==>
      && |h| == 512
      && Octal(h[148..156]) == Some(ByteSum(Put(h, 148, BLANKS), 0))
      && (h[257..263] == Ascii("ustar\0") || (h[257..263] == Ascii("ustar ") && AllZero(h[345..500])))
      && Octal(h[124..136]) == Some(x.size) && Octal(h[100..108]) == Some(x.mode)
      && Name(h) == Some(x.name) && x.kind == h[156] && (x.plain <==> AllZero(h[157..257]))
  {
    assert Ascii("ustar\0") == USTAR && Ascii("ustar ") == GNU;
    if |h| == 512 {
      SumIsPlain(h, 0);
    }
  }

  /** An archive ends in at least two zero blocks and at most 1 MiB of zeros behind them. */
  lemma EndIs(end: Bytes)
    ensures EndOk(end) <==> AllZero(end) && 1024 <= |end| <= 1024 + 0x10_0000
  {
    if |end| >= 1024 {
      assert end == end[..1024] + end[1024..];
    }
  }
}

/** Exactly which metadata lines pass, and that a written path record renames the next member. */
module TarMetadata {
  import opened Common
  import Utf8
  import opened Tar
  import opened TarFields
  import opened TarNames
  import opened TarPrinter

  // ----- Lengths -----

  const PLUS: byte := 43
  const ZERO: byte := 48

  /** The decimal digits of a number, without leading zeros. */
  function Decimal(n: nat): (r: Bytes)
    ensures r != [] && forall i :: 0 <= i < |r| ==> 48 <= r[i] <= 57
  {
    if n < 10 then [48 + n] else Decimal(n / 10) + [48 + n % 10]
  }

  lemma {:induction false} DecimalHasValue(n: nat)
    ensures DecimalValue(Decimal(n)) == n
  {
    if n < 10 {
      assert Decimal(n)[..0] == [];
    } else {
      DecimalHasValue(n / 10);
      TakeBeforeLast(Decimal(n / 10), 48 + n % 10);
    }
  }

  function LeadingZeros(k: nat): (r: Bytes)
    ensures |r| == k && forall i :: 0 <= i < k ==> r[i] == ZERO
  {
    seq(k, _ => ZERO)
  }

  lemma {:induction false} ZerosAddNothing(k: nat, s: Bytes)
    requires forall i :: 0 <= i < |s| ==> 48 <= s[i] <= 57
    ensures DecimalValue(LeadingZeros(k) + s) == DecimalValue(s)
    decreases |s|, k
  {
    if s != [] {
      var n := |s| - 1;
      assert (LeadingZeros(k) + s)[..k + n] == LeadingZeros(k) + s[..n];
      ZerosAddNothing(k, s[..n]);
    } else if k > 0 {
      assert LeadingZeros(k) + s == LeadingZeros(k) && LeadingZeros(k)[..k - 1] == LeadingZeros(k - 1) + s;
      ZerosAddNothing(k - 1, s);
    } else {
      assert LeadingZeros(k) + s == s;
    }
  }

  lemma DigitsReadBack(n: nat, zeros: nat)
    requires n < 0x1_0000_0000_0000_0000
    ensures var digits := LeadingZeros(zeros) + Decimal(n); ParseDigits(digits) == Some(n) && digits[0] != PLUS
  {
    DecimalHasValue(n);
    ZerosAddNothing(zeros, Decimal(n));
  }

  /** A length reads back from its digits, with any leading zeros and an optional plus sign. */
  lemma LengthReadsBack(n: nat, zeros: nat)
    requires n < 0x1_0000_0000_0000_0000
    ensures ParseLength(LeadingZeros(zeros) + Decimal(n)) == Some(n)
    ensures ParseLength([PLUS] + (LeadingZeros(zeros) + Decimal(n))) == Some(n)
  {
    DigitsReadBack(n, zeros);
    TailOf(PLUS, LeadingZeros(zeros) + Decimal(n));
  }

  /** Nothing but digits after an optional plus sign is a length. */
  lemma NonDigitIsNoLength(s: Bytes, i: nat)
    requires i < |s| && !(48 <= s[i] <= 57) && !(i == 0 && s[0] == PLUS)
    ensures ParseLength(s).None?
  {
    if s[0] == PLUS {
      assert s[1..][i - 1] == s[i];
    }
  }

  // ----- Lines -----

  lemma SplitOnceAt(left: Bytes, b: byte, right: Bytes)
    requires b !in left
    ensures SplitOnce(left + [b] + right, b) == Some((left, right))
  {
    var s := left + [b] + right;
    var i := IndexOf(s, b);
    assert s[|left|] == b && b in s;
    assert forall j :: 0 <= j < |left| ==> s[j] == left[j] && left[j] in left;
    assert i == Some(|left|);
    assert s[..|left|] == left && s[|left| + 1..] == right;
  }

  /** A line cut at its first space and at the first equals sign behind it. */
  ghost predicate CutAs(line: Bytes, length: Bytes, key: Bytes, value: Bytes) {
    line == length + [SPACE] + (key + [EQUALS] + value) && SPACE !in length && EQUALS !in key
  }

  /** Which records a metadata block of this kind may carry. */
  ghost predicate MayCarry(d: Decoding, native: bool, kind: byte, key: Bytes, value: Bytes) {
    && key in {Ascii("comment"), Ascii("path"), Ascii("mtime"), Ascii("atime"), Ascii("ctime")}
    && (key == Ascii("comment") ==> kind == GLOBAL && !native)
    && (key == Ascii("path") ==> kind == EXTENDED && !native)
    && (key != Ascii("comment") && key != Ascii("path") ==> d.time(value))
  }

  ghost predicate Passes(
    d: Decoding, native: bool, kind: byte, line: Bytes, length: Bytes, key: Bytes, value: Bytes)
  {
    CutAs(line, length, key, value) && ParseLength(length) == Some(|line| + 1) && MayCarry(d, native, kind, key, value)
  }

  lemma KeysDiffer()
    ensures |Ascii("comment")| == 7 && |Ascii("path")| == 4
    ensures |Ascii("mtime")| == 5 && |Ascii("atime")| == 5 && |Ascii("ctime")| == 5
  {
  }

  /** A line passes exactly when it is its own length, a space, a key the block may carry, `=` and a value. */
  lemma LineOkIff(d: Decoding, native: bool, kind: byte, line: Bytes)
    ensures LineOk(d, native, kind, line) <==>
      exists length, key, value :: Passes(d, native, kind, line, length, key, value)
  {
    KeysDiffer();
    if LineOk(d, native, kind, line) {
      var outer := SplitOnce(line, SPACE).value;
      var inner := SplitOnce(outer.1, EQUALS).value;
      SplitOnceRejoins(line, SPACE);
      SplitOnceRejoins(outer.1, EQUALS);
      assert Passes(d, native, kind, line, outer.0, inner.0, inner.1);
    }
    if length, key, value :| Passes(d, native, kind, line, length, key, value) {
      SplitOnceAt(length, SPACE, key + [EQUALS] + value);
      SplitOnceAt(key, EQUALS, value);
    }
  }

  // ----- Path records -----

  /** One extended header record naming a path. */
  function PathLine(n: nat, path: Bytes): Bytes {
    Decimal(n) + [SPACE] + (Ascii("path") + [EQUALS] + path)
  }

  lemma OneLine(line: Bytes)
    requires NEWLINE !in line && (line == [] || line[|line| - 1] != RETURN)
    ensures Lines(line + [NEWLINE]) == [line]
  {
    var s := line + [NEWLINE];
    SplitOnceAt(line, NEWLINE, []);
    assert s == line + [NEWLINE] + [];
    var i := IndexOf(s, NEWLINE).value;
    assert s[..i] == line && s[i + 1..] == [];
  }

  /** A clean path renames to itself, however long. */
  lemma CleanRenames(path: Bytes)
    requires Clean(path) && PlainText(path) && path != []
    ensures Renamed(path) == Some(path)
  {
    NothingToTrim(path);
    if |path| < 100 {
      var h := path + Zeros(BLOCK - |path|);
      assert h[..100] == path + Zeros(100 - |path|);
      assert h[345..500] == [] + Zeros(155);
      NameJoinsPrefix(h, [], path);
    }
  }

  lemma PathLineIsPlain(n: nat, path: Bytes)
    requires PlainText(path) && path != []
    ensures var line := PathLine(n, path);
      NEWLINE !in line && line[|line| - 1] != RETURN && Utf8.Valid(line + [NEWLINE])
  {
    var head := Decimal(n) + [SPACE] + (Ascii("path") + [EQUALS]);
    var line := PathLine(n, path);
    assert line == head + path;
    assert Ascii("path") == [112, 97, 116, 104];
    assert forall i :: 0 <= i < |head| ==> 32 <= head[i] < 0x80;
    forall i | 0 <= i < |path| ensures path[i] >= 32 {
      assert !ControlAt(path, i);
    }
    Utf8.AsciiFrom(head, 0);
    Utf8.AsciiFrom([NEWLINE], 0);
    Utf8.ValidConcat(head, path);
    Utf8.ValidConcat(line, [NEWLINE]);
  }

  lemma DigitsHaveNoSpace(n: nat)
    ensures SPACE !in Decimal(n)
  {
  }

  lemma PathLineReads(n: nat, path: Bytes)
    ensures PathRecord(PathLine(n, path)) == Some(path)
    ensures CutAs(PathLine(n, path), Decimal(n), Ascii("path"), path)
  {
    var record := Ascii("path") + [EQUALS] + path;
    DigitsHaveNoSpace(n);
    SplitOnceAt(Decimal(n), SPACE, record);
    assert Ascii("path") == [112, 97, 116, 104] && Ascii("path=") == [112, 97, 116, 104, EQUALS];
    assert record[..5] == Ascii("path=") && record[5..] == path;
  }

  lemma PathLineOk(d: Decoding, n: nat, path: Bytes)
    requires n == |PathLine(n, path)| + 1 < 0x1_0000_0000_0000_0000
    ensures LineOk(d, false, EXTENDED, PathLine(n, path))
  {
    LengthReadsBack(n, 0);
    assert LeadingZeros(0) + Decimal(n) == Decimal(n);
    PathLineReads(n, path);
    KeysDiffer();
    assert Passes(d, false, EXTENDED, PathLine(n, path), Decimal(n), Ascii("path"), path);
    LineOkIff(d, false, EXTENDED, PathLine(n, path));
  }

  /** A written path record, of the length it states, passes in source mode and leaves its path for the next member. */
  lemma PathRecordReadsBack(d: Decoding, n: nat, path: Bytes)
    requires Clean(path) && PlainText(path) && path != []
    requires n == |PathLine(n, path)| + 1 < 0x1_0000_0000_0000_0000
    ensures var block := PathLine(n, path) + [NEWLINE];
      |block| == n && TarRules(d, false).metadata(EXTENDED, block) == Some(Some(path))
  {
    PathLineIsPlain(n, path);
    OneLine(PathLine(n, path));
    PathLineOk(d, n, path);
    PathLineReads(n, path);
    CleanRenames(path);
    OneRecord(PathLine(n, path), path);
    OneLineMetadata(d, PathLine(n, path) + [NEWLINE], PathLine(n, path), Some(path));
  }

  lemma OneLineMetadata(d: Decoding, block: Bytes, line: Bytes, left: Option<Bytes>)
    requires Utf8.Valid(block) && Lines(block) == [line] && LineOk(d, false, EXTENDED, line)
    requires PathRecords([line], None) == Some(left)
    ensures TarRules(d, false).metadata(EXTENDED, block) == Some(left)
  {
    assert Pending(false, EXTENDED, block) == Some(left);
    forall i | 0 <= i < |Lines(block)| ensures LineOk(d, false, EXTENDED, Lines(block)[i]) {
      assert Lines(block)[i] == line;
    }
    assert MetaOk(d, false, EXTENDED, block);
  }

  lemma OneRecord(line: Bytes, path: Bytes)
    requires PathRecord(line) == Some(path) && Renamed(path) == Some(path)
    ensures PathRecords([line], None) == Some(Some(path))
  {
    assert [line][1..] == [];
    assert PathRecords([], Some(path)) == Some(Some(path));
  }
}

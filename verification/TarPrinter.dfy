/** The header writer of `xtask/src/tar_guard.rs`, and how the inspector judges what it writes. */
module TarPrinter {
  import opened Common
  import Utf8
  import opened Tar
  import opened TarFields
  import opened TarStream
  import opened TarArchive
  import opened TarNames

  /** A member whose path may be split: `prefix` is empty or the part before a slash. Only ustar headers have one. */
  datatype Member = Member(gnu: bool, prefix: Bytes, name: Bytes, kind: byte, mode: nat, data: Bytes) {
    predicate Fits() { |name| <= 100 && |prefix| <= 155 && (gnu ==> prefix == []) }

    function Path(): Bytes { if prefix == [] then name else prefix + [SLASH] + name }
  }

  // ----- Writing -----

  function Put(h: Bytes, at: nat, field: Bytes): (r: Bytes)
    requires at + |field| <= |h|
    ensures |r| == |h|
  {
    h[..at] + field + h[at + |field|..]
  }

  /** `v` in `n` octal digits. */
  function OctalDigits(v: nat, n: nat): (r: Bytes)
    ensures |r| == n && forall i :: 0 <= i < n ==> OctalDigit(r[i])
  {
    if n == 0 then [] else OctalDigits(v / 8, n - 1) + [48 + v % 8]
  }

  const BLANKS: Bytes := [32, 32, 32, 32, 32, 32, 32, 32]

  function NameField(m: Member): Bytes
    requires m.Fits()
  {
    Put(Put(Zeros(BLOCK), 0, m.name), 345, m.prefix)
  }

  function ModeField(m: Member): Bytes
    requires m.Fits()
  {
    Put(NameField(m), 100, OctalDigits(m.mode, 7) + [0])
  }

  function SizeField(m: Member): Bytes
    requires m.Fits()
  {
    Put(ModeField(m), 124, OctalDigits(|m.data|, 11) + [0])
  }

  function KindField(m: Member): Bytes
    requires m.Fits()
  {
    Put(SizeField(m), 156, [m.kind])
  }

  function Magic(m: Member): (r: Bytes)
    ensures |r| == 6
  {
    if m.gnu then GNU else USTAR
  }

  /** The header with its checksum field filled with spaces. */
  function Unsummed(m: Member): (r: Bytes)
    requires m.Fits()
    ensures |r| == BLOCK
  {
    Put(Put(KindField(m), 257, Magic(m)), 148, BLANKS)
  }

  function ByteSum(h: Bytes, i: nat): nat
    requires i <= |h|
    decreases |h| - i
  {
    if i == |h| then 0 else h[i] + ByteSum(h, i + 1)
  }

  function PrintHeader(m: Member): (r: Bytes)
    requires m.Fits()
    ensures |r| == BLOCK
  {
    Put(Unsummed(m), 148, OctalDigits(ByteSum(Unsummed(m), 0), 6) + [0, SPACE])
  }

  function PrintRecord(m: Member): Record
    requires m.Fits()
  {
    Record(PrintHeader(m), m.data + Zeros(Padded(|m.data|) - |m.data|))
  }

  // ----- Octal fields -----

  function Pow8(n: nat): nat {
    if n == 0 then 1 else 8 * Pow8(n - 1)
  }

  lemma {:induction false} DigitsHaveValue(v: nat, n: nat)
    requires v < Pow8(n)
    ensures OctalValue(OctalDigits(v, n)) == v
    decreases n
  {
    if n > 0 {
      var r := OctalDigits(v, n);
      DigitsHaveValue(v / 8, n - 1);
      assert r[..n - 1] == OctalDigits(v / 8, n - 1);
      assert r[n - 1] == 48 + v % 8;
    }
  }

  lemma {:induction false} TrimRightFiller(s: Bytes, filler: Bytes)
    requires s != [] && !Filler(s[|s| - 1]) && forall i :: 0 <= i < |filler| ==> Filler(filler[i])
    ensures TrimRight(s + filler) == s
    decreases |filler|
  {
    if filler == [] {
      assert s + filler == s;
    } else {
      var n := |filler| - 1;
      assert (s + filler)[..|s + filler| - 1] == s + filler[..n];
      TrimRightFiller(s, filler[..n]);
    }
  }

  /** A number written in octal reads back from a field of that width. */
  lemma OctalReadsBack(v: nat, n: nat, filler: Bytes)
    requires 0 < n && v < Pow8(n) && v < 0x1_0000_0000_0000_0000 && forall i :: 0 <= i < |filler| ==> Filler(filler[i])
    ensures Octal(OctalDigits(v, n) + filler) == Some(v)
  {
    var s := OctalDigits(v, n);
    assert OctalDigit(s[0]) && OctalDigit(s[n - 1]);
    TrimRightFiller(s, filler);
    DigitsHaveValue(v, n);
  }

  lemma Pow8Values()
    ensures Pow8(6) == 262144 && Pow8(7) == 2097152 && Pow8(11) == 8589934592
  {
  }

  // ----- Fields of a written header -----

  lemma PutInside(h: Bytes, at: nat, field: Bytes)
    requires at + |field| <= |h|
    ensures Put(h, at, field)[at..at + |field|] == field
  {
  }

  lemma PutOutside(h: Bytes, at: nat, field: Bytes, i: nat, j: nat)
    requires at + |field| <= |h| && i <= j <= |h| && (j <= at || at + |field| <= i)
    ensures Put(h, at, field)[i..j] == h[i..j]
  {
  }

  lemma {:induction false} SumsAgree(h: Bytes, b: Bytes, i: nat)
    requires |h| == |b| == BLOCK && i <= BLOCK
    requires forall k :: 0 <= k < BLOCK ==> b[k] == if 148 <= k < 156 then 32 else h[k]
    ensures SumFrom(h, i) == ByteSum(b, i)
    decreases BLOCK - i
  {
    if i < BLOCK {
      SumsAgree(h, b, i + 1);
    }
  }

  lemma {:induction false} ByteSumBound(h: Bytes, i: nat)
    requires i <= |h|
    ensures ByteSum(h, i) <= 255 * (|h| - i)
    decreases |h| - i
  {
    if i < |h| {
      ByteSumBound(h, i + 1);
    }
  }

  lemma ChecksumField(m: Member)
    requires m.Fits()
    ensures var h := PrintHeader(m); Octal(h[148..156]) == Some(SumFrom(h, 0))
  {
    var b := Unsummed(m);
    var h, sum := PrintHeader(m), ByteSum(b, 0);
    ByteSumBound(b, 0);
    Pow8Values();
    OctalReadsBack(sum, 6, [0, SPACE]);
    PutInside(b, 148, OctalDigits(sum, 6) + [0, SPACE]);
    UnsummedIsBlank(m, h, OctalDigits(sum, 6) + [0, SPACE]);
    SumsAgree(h, b, 0);
  }

  lemma UnsummedIsBlank(m: Member, h: Bytes, field: Bytes)
    requires m.Fits() && |field| == 8 && h == Put(Unsummed(m), 148, field)
    ensures forall k :: 0 <= k < BLOCK ==> Unsummed(m)[k] == if 148 <= k < 156 then 32 else h[k]
  {
    Overwritten(Put(KindField(m), 257, Magic(m)), 148, BLANKS, field);
  }

  lemma Overwritten(h: Bytes, at: nat, first: Bytes, second: Bytes)
    requires |first| == |second| && at + |first| <= |h|
    ensures forall k :: 0 <= k < |h| ==>
      Put(h, at, first)[k] == if at <= k < at + |first| then first[k - at] else Put(Put(h, at, first), at, second)[k]
  {
  }

  lemma NamePart(m: Member)
    requires m.Fits()
    ensures NameField(m)[..100] == m.name + Zeros(100 - |m.name|)
    ensures NameField(m)[345..500] == m.prefix + Zeros(155 - |m.prefix|)
    ensures AllZero(NameField(m)[157..257])
  {
    var named := Put(Zeros(BLOCK), 0, m.name);
    PutOutside(named, 345, m.prefix, 0, 100);
    PutOutside(named, 345, m.prefix, 157, 257);
    PutThenZeros(Zeros(BLOCK), 0, m.name, 100);
    PutThenZeros(named, 345, m.prefix, 500);
    assert NameField(m)[..100] == NameField(m)[0..100];
    assert named[..100] == named[0..100];
  }

  /** A field put over zeros is followed by zeros. */
  lemma PutThenZeros(h: Bytes, at: nat, field: Bytes, end: nat)
    requires at + |field| <= end <= |h| && AllZero(h[at..end])
    ensures Put(h, at, field)[at..end] == field + Zeros(end - at - |field|)
  {
    var r := Put(h, at, field);
    forall k | at + |field| <= k < end ensures r[k] == 0 {
      assert h[at..end][k - at] == 0;
    }
  }

  /** Later fields leave a slice alone. */
  lemma AfterName(m: Member, i: nat, j: nat)
    requires m.Fits() && i <= j <= BLOCK
    requires j <= 100 || (157 <= i && j <= 257) || 263 <= i
    ensures PrintHeader(m)[i..j] == NameField(m)[i..j]
  {
    PutOutside(NameField(m), 100, OctalDigits(m.mode, 7) + [0], i, j);
    PutOutside(ModeField(m), 124, OctalDigits(|m.data|, 11) + [0], i, j);
    PutOutside(SizeField(m), 156, [m.kind], i, j);
    AfterKind(m, i, j);
  }

  lemma AfterKind(m: Member, i: nat, j: nat)
    requires m.Fits() && i <= j <= BLOCK && (j <= 148 || (156 <= i && j <= 257) || 263 <= i)
    ensures PrintHeader(m)[i..j] == KindField(m)[i..j]
  {
    PutOutside(KindField(m), 257, Magic(m), i, j);
    PutOutside(Put(KindField(m), 257, Magic(m)), 148, BLANKS, i, j);
    PutOutside(Unsummed(m), 148, OctalDigits(ByteSum(Unsummed(m), 0), 6) + [0, SPACE], i, j);
  }

  lemma MagicPart(m: Member)
    requires m.Fits()
    ensures PrintHeader(m)[257..263] == Magic(m)
  {
    PutInside(KindField(m), 257, Magic(m));
    PutOutside(Put(KindField(m), 257, Magic(m)), 148, BLANKS, 257, 263);
    PutOutside(Unsummed(m), 148, OctalDigits(ByteSum(Unsummed(m), 0), 6) + [0, SPACE], 257, 263);
  }

  lemma NumberParts(m: Member)
    requires m.Fits()
    ensures PrintHeader(m)[100..108] == OctalDigits(m.mode, 7) + [0]
    ensures PrintHeader(m)[124..136] == OctalDigits(|m.data|, 11) + [0]
  {
    PutInside(NameField(m), 100, OctalDigits(m.mode, 7) + [0]);
    PutOutside(ModeField(m), 124, OctalDigits(|m.data|, 11) + [0], 100, 108);
    PutInside(ModeField(m), 124, OctalDigits(|m.data|, 11) + [0]);
    PutOutside(SizeField(m), 156, [m.kind], 100, 108);
    PutOutside(SizeField(m), 156, [m.kind], 124, 136);
    AfterKind(m, 100, 108);
    AfterKind(m, 124, 136);
  }

  lemma KindPart(m: Member)
    requires m.Fits()
    ensures PrintHeader(m)[156] == m.kind
  {
    PutInside(SizeField(m), 156, [m.kind]);
    AfterKind(m, 156, 157);
    assert PrintHeader(m)[156] == PrintHeader(m)[156..157][0];
    assert KindField(m)[156..157] == [m.kind];
  }

  lemma LinkPart(m: Member)
    requires m.Fits()
    ensures AllZero(PrintHeader(m)[157..257])
  {
    AfterName(m, 157, 257);
    NamePart(m);
  }

  // ----- Names read back -----

  lemma {:induction false} UpToNulStops(name: Bytes, n: nat)
    requires 0 !in name
    ensures UpToNul(name + Zeros(n)) == name
    decreases |name|
  {
    if name != [] {
      assert (name + Zeros(n))[1..] == name[1..] + Zeros(n);
      UpToNulStops(name[1..], n);
    }
  }

  lemma CleanIsNormal(name: Bytes)
    requires Clean(name)
    ensures Normalize(name) == Some(name)
  {
    if name != [] {
      SplitAlone([DOT], SLASH);
      if LeadsDot(name) {
        assert name == [DOT] + [SLASH] + name[2..] by {
          assert name[..2] == [DOT, SLASH];
        }
        SplitConcat([DOT], name[2..], SLASH);
      }
      NothingToTrim(name);
    }
  }

  predicate PlainText(s: Bytes) {
    Utf8.Valid(s) && Printable(s)
  }

  /** A path the writer can place in a header, in the name field alone or split over both. */
  predicate WritablePath(m: Member) {
    m.Fits() && PlainText(m.prefix) && PlainText(m.name) && Clean(m.Path())
  }

  lemma TextReadsBack(field: Bytes, s: Bytes, n: nat)
    requires PlainText(s) && field == s + Zeros(n)
    ensures Text(field) == Some(s)
  {
    forall i | 0 <= i < |s| ensures s[i] != 0 {
      assert !ControlAt(s, i);
    }
    UpToNulStops(s, n);
  }

  /** Every block whose name and prefix fields are padded texts is named by both joined, if that is clean. */
  lemma NameJoinsPrefix(h: Bytes, prefix: Bytes, name: Bytes)
    requires |h| == BLOCK && |name| <= 100 && |prefix| <= 155 && PlainText(prefix) && PlainText(name)
    requires h[..100] == name + Zeros(100 - |name|) && h[345..500] == prefix + Zeros(155 - |prefix|)
    requires Clean(if prefix == [] then name else prefix + [SLASH] + name)
    ensures Name(h) == Some(if prefix == [] then name else prefix + [SLASH] + name)
  {
    TextReadsBack(h[..100], name, 100 - |name|);
    TextReadsBack(h[345..500], prefix, 155 - |prefix|);
    CleanIsNormal(if prefix == [] then name else prefix + [SLASH] + name);
  }

  lemma NameReadsBack(m: Member)
    requires WritablePath(m)
    ensures Name(PrintHeader(m)) == Some(m.Path())
  {
    AfterName(m, 0, 100);
    AfterName(m, 345, 500);
    NamePart(m);
    assert PrintHeader(m)[..100] == PrintHeader(m)[0..100];
    assert NameField(m)[..100] == NameField(m)[0..100];
    NameJoinsPrefix(PrintHeader(m), m.prefix, m.name);
  }

  /** A member the writer can print: every field fits, and it is not a metadata block. */
  predicate Writable(m: Member) {
    WritablePath(m) && m.mode < 2097152 && |m.data| < 8589934592 && m.kind != GLOBAL && m.kind != EXTENDED
  }

  function HeaderOf(m: Member): Header {
    Header(m.kind, |m.data|, m.mode, m.Path(), true)
  }

  lemma FormatReadsBack(m: Member)
    requires m.Fits()
    ensures FormatOk(PrintHeader(m)) && !AllZero(PrintHeader(m))
  {
    ChecksumField(m);
    MagicPart(m);
    AfterName(m, 345, 500);
    NamePart(m);
    assert PrintHeader(m)[257] == PrintHeader(m)[257..263][0] == 117;
  }

  lemma NumbersReadBack(m: Member)
    requires m.Fits() && m.mode < 2097152 && |m.data| < 8589934592
    ensures Mode(PrintHeader(m)) == Some(m.mode) && Size(PrintHeader(m)) == Some(|m.data|)
  {
    NumberParts(m);
    Pow8Values();
    OctalReadsBack(m.mode, 7, [0]);
    OctalReadsBack(|m.data|, 11, [0]);
  }

  /** Name, numbers, kind and checksum of a written header read back as they were written. */
  lemma HeaderReadsBack(m: Member)
    requires Writable(m)
    ensures ReadHeader(PrintHeader(m)) == Some(HeaderOf(m)) && !AllZero(PrintHeader(m))
  {
    FormatReadsBack(m);
    NumbersReadBack(m);
    NameReadsBack(m);
    KindPart(m);
    LinkPart(m);
  }

  // ----- Whole archives -----

  ghost predicate AllWritable(ms: seq<Member>) {
    forall i :: 0 <= i < |ms| ==> Writable(ms[i])
  }

  function PrintRecords(ms: seq<Member>): (r: seq<Record>)
    requires forall i :: 0 <= i < |ms| ==> ms[i].Fits()
    ensures |r| == |ms| && forall i :: 0 <= i < |ms| ==> r[i] == PrintRecord(ms[i])
  {
    seq(|ms|, i requires 0 <= i < |ms| => PrintRecord(ms[i]))
  }

  function DataTotal(ms: seq<Member>): nat {
    if ms == [] then 0 else DataTotal(ms[..|ms| - 1]) + |ms[|ms| - 1].data|
  }

  /** The rules read these records as those members. */
  ghost predicate ReadsAs(rules: Rules, rs: seq<Record>, ms: seq<Member>) {
    && |rs| == |ms| && AllShaped(rules, rs)
    && forall i :: 0 <= i < |rs| ==> rules.read(rs[i].header) == Some(HeaderOf(ms[i])) && !IsMetadata(HeaderOf(ms[i]))
  }

  lemma PrintedReadsAs(d: Decoding, native: bool, ms: seq<Member>)
    requires AllWritable(ms)
    ensures ReadsAs(TarRules(d, native), PrintRecords(ms), ms)
  {
    var rs, rules := PrintRecords(ms), TarRules(d, native);
    forall i | 0 <= i < |rs| ensures Shaped(rules, rs[i]) && rules.read(rs[i].header) == Some(HeaderOf(ms[i])) {
      assert Writable(ms[i]);
      HeaderReadsBack(ms[i]);
    }
  }

  predicate NotExecutable(mode: nat) {
    mode / 64 % 2 == 0 && mode / 8 % 8 in {0, 4} && mode % 8 in {0, 4}
  }

  /**
   Files and directories only; a directory is empty and only a directory is the root; permission
   bits only. In a native payload, nobody but the owner may write and only shipped files execute.
   */
  predicate Allowed(native: bool, m: Member) {
    && m.kind in {0, FILE, DIRECTORY} && m.mode < 512
    && (if m.kind == DIRECTORY then m.data == [] else m.Path() != [])
    && (native ==>
          && NoWrite(m.mode / 8 % 8) && NoWrite(m.mode % 8)
          && (m.kind == DIRECTORY || NotExecutable(m.mode) || ShippedExecutable(m.Path())))
  }

  lemma MemberRuleIs(native: bool, m: Member)
    ensures MemberOk(native, HeaderOf(m), m.Path()) <==> Allowed(native, m)
  {
    NativeModesAreReviewed(m.kind, m.mode, m.Path());
  }

  /** What a list of members must satisfy for its archive to be accepted. */
  ghost predicate Acceptable(native: bool, ms: seq<Member>) {
    && |ms| <= 10000 && DataTotal(ms) <= 0x8000_0000
    && (forall i :: 0 <= i < |ms| ==> Allowed(native, ms[i]))
    && (forall i, j :: 0 <= i < j < |ms| ==> ms[i].Path() != ms[j].Path())
  }

  lemma {:induction false} TotalsAgree(rules: Rules, rs: seq<Record>, ms: seq<Member>)
    requires ReadsAs(rules, rs, ms)
    ensures Total(rules, rs) == DataTotal(ms)
    decreases |rs|
  {
    if rs != [] {
      TotalsAgree(rules, rs[..|rs| - 1], ms[..|ms| - 1]);
    }
  }

  lemma PrintedPaths(rules: Rules, rs: seq<Record>, ms: seq<Member>, i: nat)
    requires ReadsAs(rules, rs, ms) && i < |rs|
    ensures MemberAt(rules, rs, i) && HeaderAt(rules, rs, i) == HeaderOf(ms[i]) && PathAt(rules, rs, i) == ms[i].Path()
  {
  }

  lemma RecordOkIffAllowed(d: Decoding, native: bool, rs: seq<Record>, ms: seq<Member>, i: nat)
    requires ReadsAs(TarRules(d, native), rs, ms) && i < |rs|
    ensures RecordOk(TarRules(d, native), rs, i) <==> Allowed(native, ms[i])
  {
    PrintedPaths(TarRules(d, native), rs, ms, i);
    MemberRuleIs(native, ms[i]);
  }

  lemma ArchiveIffAcceptable(d: Decoding, native: bool, rs: seq<Record>, ms: seq<Member>)
    requires ReadsAs(TarRules(d, native), rs, ms)
    ensures Archive(TarRules(d, native), rs) <==> Acceptable(native, ms)
  {
    var rules := TarRules(d, native);
    TotalsAgree(rules, rs, ms);
    forall i | 0 <= i < |rs| ensures RecordOk(rules, rs, i) <==> Allowed(native, ms[i]) {
      RecordOkIffAllowed(d, native, rs, ms, i);
    }
    DistinctIffDistinct(rules, rs, ms);
  }

  lemma DistinctIffDistinct(rules: Rules, rs: seq<Record>, ms: seq<Member>)
    requires ReadsAs(rules, rs, ms)
    ensures DistinctPaths(rules, rs) <==> forall i, j :: 0 <= i < j < |ms| ==> ms[i].Path() != ms[j].Path()
  {
    forall i | 0 <= i < |rs| ensures MemberAt(rules, rs, i) && PathAt(rules, rs, i) == ms[i].Path() {
      PrintedPaths(rules, rs, ms, i);
    }
  }

  lemma StreamAcceptedIff(rules: Rules, rs: seq<Record>, ms: seq<Member>, end: Bytes)
    requires ReadsAs(rules, rs, ms) && EndOk(end)
    ensures Inspect(rules, START, Flatten(rs) + end) <==> rs != [] && Archive(rules, rs)
  {
    var input := Flatten(rs) + end;
    AcceptedIffArchive(rules, input);
    if Inspect(rules, START, input) {
      var other, otherEnd :| ArchiveStream(rules, input, other, otherEnd);
      SplitIsUnique(rules, input, rs, end, other, otherEnd);
    }
    if rs != [] && Archive(rules, rs) {
      assert ArchiveStream(rules, input, rs, end);
    }
  }

  /**
   The archive written for a list of members is accepted, in either mode, exactly when the list
   is nonempty and within the limits, names nobody twice and every member is allowed.
   */
  lemma PrintedArchiveAcceptedIff(d: Decoding, native: bool, ms: seq<Member>, end: Bytes)
    requires AllWritable(ms) && EndOk(end)
    ensures Inspect(TarRules(d, native), START, Flatten(PrintRecords(ms)) + end)
       <==> ms != [] && Acceptable(native, ms)
  {
    var rules, rs := TarRules(d, native), PrintRecords(ms);
    PrintedReadsAs(d, native, ms);
    ArchiveIffAcceptable(d, native, rs, ms);
    StreamAcceptedIff(rules, rs, ms, end);
  }

  predicate OrdinaryMember(m: Member) {
    && m.mode <= 0x1FF && m.kind in {FILE, DIRECTORY}
    && if m.kind == DIRECTORY then m.data == [] else m.Path() != []
  }

  /** Two zero blocks are an end marker. */
  lemma EndMarker()
    ensures EndOk(Zeros(2 * BLOCK))
  {
    var end := Zeros(2 * BLOCK);
    assert end[..2 * BLOCK] == end && end[2 * BLOCK..] == [];
  }

  /** In source mode any distinct files and empty directories with permission bits only are accepted. */
  lemma SourceArchiveIsAccepted(d: Decoding, ms: seq<Member>, end: Bytes)
    requires AllWritable(ms) && 0 < |ms| <= MAX_ENTRIES && DataTotal(ms) <= MAX_UNPACKED
    requires forall i, j :: 0 <= i < j < |ms| ==> ms[i].Path() != ms[j].Path()
    requires (forall i :: 0 <= i < |ms| ==> OrdinaryMember(ms[i])) && EndOk(end)
    ensures Inspect(TarRules(d, false), START, Flatten(PrintRecords(ms)) + end)
  {
    PrintedArchiveAcceptedIff(d, false, ms, end);
  }

  /** In particular the archive as it is written: headers, padded data and two zero blocks. */
  lemma WrittenArchiveIsAccepted(d: Decoding, ms: seq<Member>, end: Bytes)
    requires AllWritable(ms) && 0 < |ms| <= MAX_ENTRIES && DataTotal(ms) <= MAX_UNPACKED
    requires forall i, j :: 0 <= i < j < |ms| ==> ms[i].Path() != ms[j].Path()
    requires (forall i :: 0 <= i < |ms| ==> OrdinaryMember(ms[i])) && end == Zeros(2 * BLOCK)
    ensures Inspect(TarRules(d, false), START, Flatten(PrintRecords(ms)) + end)
  {
    EndMarker();
    SourceArchiveIsAccepted(d, ms, end);
  }
}

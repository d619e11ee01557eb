/** What the field readers and the metadata checks of the archive inspector let through. */
module TarFields {
  import opened Common
  import opened Tar

  // ----- Numbers -----

  lemma {:induction false} TrimRightKeeps(s: Bytes, i: nat)
    requires i < |s| && !Filler(s[i])
    ensures i < |TrimRight(s)| && TrimRight(s)[i] == s[i]
    decreases |s|
  {
    if Filler(s[|s| - 1]) {
      TrimRightKeeps(s[..|s| - 1], i);
    }
  }

  lemma {:induction false} TrimLeftKeeps(s: Bytes, i: nat)
    requires i < |s| && !Filler(s[i])
    ensures s[i] in TrimLeft(s)
    decreases |s|
  {
    if Filler(s[0]) {
      TrimLeftKeeps(s[1..], i - 1);
    }
  }

  /** Only octal digits and filler are read as a number, so base-256 fields are refused. */
  lemma OtherBytesAreRefused(s: Bytes, i: nat)
    requires i < |s| && !Filler(s[i]) && !OctalDigit(s[i])
    ensures Octal(s).None?
  {
    var t := TrimLeft(TrimRight(s));
    TrimRightKeeps(s, i);
    TrimLeftKeeps(TrimRight(s), i);
    var j :| 0 <= j < |t| && t[j] == s[i];
    assert !OctalDigit(t[j]);
  }

  // ----- Permission bits -----

  predicate NoWrite(digit: nat) { digit in {0, 1, 4, 5} }

  /** In a native payload nobody but the owner may write, and only shipped files may be executed. */
  lemma NativeModesAreReviewed(kind: byte, mode: nat, path: Bytes)
    ensures ModeOk(true, kind, mode, path) <==>
      && mode < 512 && NoWrite(mode / 8 % 8) && NoWrite(mode % 8)
      && (kind == DIRECTORY || ShippedExecutable(path)
          || (mode / 64 % 2 == 0 && mode / 8 % 8 in {0, 4} && mode % 8 in {0, 4}))
  {
    if mode < 512 {
      var u, g, o := mode / 64, mode / 8 % 8, mode % 8;
      assert mode == 64 * u + 8 * g + o;
      DigitBits(mode, u, g, o);
      DigitSets(g);
      DigitSets(o);
    }
  }

  lemma DigitSets(x: nat)
    requires x < 8
    ensures NoWrite(x) <==> x / 2 % 2 == 0
    ensures x in {0, 4} <==> x / 2 % 2 == 0 && x % 2 == 0
  {
  }

  lemma DigitBits(mode: nat, u: nat, g: nat, o: nat)
    requires mode == 64 * u + 8 * g + o && u < 8 && g < 8 && o < 8
    ensures HasBit(mode, 64) <==> u % 2 == 1
    ensures HasBit(mode, 16) <==> g / 2 % 2 == 1
    ensures HasBit(mode, 8) <==> g % 2 == 1
    ensures HasBit(mode, 2) <==> o / 2 % 2 == 1
    ensures HasBit(mode, 1) <==> o % 2 == 1
  {
    assert mode / 64 == u;
    assert mode / 16 == 4 * u + g / 2;
    assert mode / 8 == 8 * u + g;
    assert mode / 2 == 32 * u + 4 * g + o / 2;
  }

  // ----- Metadata lines -----

  /** A checked line is its own length, a space, an allowed key, an equals sign and a value. */
  lemma OnlyAllowedKeys(d: Decoding, native: bool, kind: byte, line: Bytes)
    returns (length: Bytes, key: Bytes, value: Bytes)
    requires LineOk(d, native, kind, line)
    ensures line == length + [SPACE] + key + [EQUALS] + value
    ensures ParseLength(length) == Some(|line| + 1)
    ensures key in {Ascii("comment"), Ascii("path"), Ascii("mtime"), Ascii("atime"), Ascii("ctime")}
    ensures native ==> key in {Ascii("mtime"), Ascii("atime"), Ascii("ctime")} && d.time(value)
  {
    var outer := SplitOnce(line, SPACE).value;
    var inner := SplitOnce(outer.1, EQUALS).value;
    length, key, value := outer.0, inner.0, inner.1;
    SplitOnceRejoins(line, SPACE);
    SplitOnceRejoins(outer.1, EQUALS);
    Rejoined(line, length, outer.1, key, value);
  }

  lemma SplitOnceRejoins(s: Bytes, b: byte)
    requires SplitOnce(s, b).Some?
    ensures var r := SplitOnce(s, b).value; s == r.0 + [b] + r.1 && b !in r.0
  {
  }

  lemma Rejoined(line: Bytes, length: Bytes, record: Bytes, key: Bytes, value: Bytes)
    requires line == length + [SPACE] + record && record == key + [EQUALS] + value
    ensures line == length + [SPACE] + key + [EQUALS] + value
  {
  }

  function Unlines(lines: seq<Bytes>): Bytes {
    if lines == [] then [] else lines[0] + [NEWLINE] + Unlines(lines[1..])
  }

  /** A text with its last newline supplied if it is missing. */
  function Ended(s: Bytes): Bytes {
    if s == [] || s[|s| - 1] == NEWLINE then s else s + [NEWLINE]
  }

  /** A carriage return right before a newline, which `str::lines` drops. */
  ghost predicate DropsReturn(s: Bytes) {
    exists i: nat :: i + 1 < |s| && s[i] == RETURN && s[i + 1] == NEWLINE
  }

  /** The first newline ends a line; the rest is on its own. */
  lemma FirstLine(s: Bytes, n: nat)
    requires n < |s| && s[n] == NEWLINE && forall j :: 0 <= j < n ==> s[j] != NEWLINE
    ensures DropsReturn(s) <==> (n > 0 && s[n - 1] == RETURN) || DropsReturn(s[n + 1..])
    ensures Ended(s) == s[..n] + [NEWLINE] + Ended(s[n + 1..])
  {
    var rest := s[n + 1..];
    if i: nat :| i + 1 < |s| && s[i] == RETURN && s[i + 1] == NEWLINE {
      if i + 1 > n {
        assert rest[i - n - 1] == RETURN && rest[i - n] == NEWLINE;
      }
    }
    if i: nat :| i + 1 < |rest| && rest[i] == RETURN && rest[i + 1] == NEWLINE {
      assert s[n + 1 + i] == RETURN && s[n + 2 + i] == NEWLINE;
    }
    EndedAfter(s, n);
  }

  lemma EndedAfter(s: Bytes, n: nat)
    requires n < |s| && s[n] == NEWLINE
    ensures Ended(s) == s[..n] + [NEWLINE] + Ended(s[n + 1..])
  {
    assert s == s[..n] + [NEWLINE] + s[n + 1..];
    if s[n + 1..] != [] && s[|s| - 1] != NEWLINE {
      ConcatAssoc(s[..n] + [NEWLINE], s[n + 1..], [NEWLINE]);
    }
  }

  lemma NoFirstLine(s: Bytes)
    requires s != [] && NEWLINE !in s
    ensures !DropsReturn(s) && Ended(s) == s + [NEWLINE] && Lines(s) == [s] && Unlines(Lines(s)) == s + [NEWLINE]
  {
    assert s[|s| - 1] in s;
    assert [s][1..] == [];
    assert s + [NEWLINE] + [] == s + [NEWLINE];
  }

  lemma SameStart(a: Bytes, x: Bytes, b: Bytes, y: Bytes)
    requires |a| <= |b| && |x| <= |y|
    ensures a + [NEWLINE] + x == b + [NEWLINE] + y <==> a == b && x == y
  {
    var l, r := a + [NEWLINE] + x, b + [NEWLINE] + y;
    if l == r {
      assert |a| == |b| && |x| == |y|;
      assert l[..|a|] == a && r[..|b|] == b;
      assert l[|a| + 1..] == x && r[|b| + 1..] == y;
    }
  }

  /**
   The checked lines joined by newlines are the whole block, with its last newline supplied,
   exactly when no carriage return stands right before a newline.
   */
  lemma {:induction false} LinesRejoin(s: Bytes)
    ensures |Unlines(Lines(s))| <= |Ended(s)|
    ensures Unlines(Lines(s)) == Ended(s) <==> !DropsReturn(s)
    decreases |s|
  {
    if s != [] {
      var i := IndexOf(s, NEWLINE);
      if i.None? {
        NoFirstLine(s);
      } else {
        var n := i.value;
        var line, rest := DropReturn(s[..n]), s[n + 1..];
        FirstLine(s, n);
        LinesRejoin(rest);
        assert Lines(s)[1..] == Lines(rest);
        SameStart(line, Unlines(Lines(rest)), s[..n], Ended(rest));
      }
    }
  }

  // ----- Length-delimited records -----

  /** Extended header records as the pax format delimits them: each by its own leading length, newline included. */
  function PaxRecords(s: Bytes): Option<seq<Bytes>>
    decreases |s|
  {
    if s == [] then Some([]) else
    var head := SplitOnce(s, SPACE);
    if head.None? then None else
    var n := ParseLength(head.value.0);
    if n.None? || n.value == 0 || n.value > |s| || s[n.value - 1] != NEWLINE then None else
    var rest := PaxRecords(s[n.value..]);
    if rest.None? then None else Some([s[..n.value - 1]] + rest.value)
  }

  lemma {:induction false} IndexInPrefix(s: Bytes, n: nat, b: byte)
    requires n <= |s| && IndexOf(s[..n], b).Some?
    ensures IndexOf(s, b) == IndexOf(s[..n], b)
    decreases |s|
  {
    if s[0] != b {
      assert s[..n][1..] == s[1..][..n - 1];
      IndexInPrefix(s[1..], n - 1, b);
    }
  }

  /** A line that starts with its own length, newline included, and a space. */
  predicate LengthOk(line: Bytes) {
    var head := SplitOnce(line, SPACE);
    head.Some? && ParseLength(head.value.0) == Some(|line| + 1)
  }

  ghost predicate LengthsOk(lines: seq<Bytes>) {
    forall i :: 0 <= i < |lines| ==> LengthOk(lines[i])
  }

  /** The leading length of such a line is the length the format reads. */
  lemma LeadingLength(s: Bytes, n: nat)
    requires n <= |s| && LengthOk(s[..n])
    ensures SplitOnce(s, SPACE).Some? && ParseLength(SplitOnce(s, SPACE).value.0) == Some(n + 1)
  {
    IndexInPrefix(s, n, SPACE);
    var i := IndexOf(s, SPACE).value;
    assert s[..n][..i] == s[..i];
  }

  /** One record of exactly one line, if the newline is where the length says. */
  lemma ReadRecord(s: Bytes, n: nat)
    requires n < |s| && LengthOk(s[..n])
    ensures var rest := PaxRecords(s[n + 1..]);
      PaxRecords(s) == if s[n] != NEWLINE || rest.None? then None else Some([s[..n]] + rest.value)
  {
    LeadingLength(s, n);
  }

  /** A block splits into records exactly when it is whole: no missing newline, no dropped carriage return. */
  ghost predicate Whole(s: Bytes) {
    Ended(s) == s && !DropsReturn(s)
  }

  lemma {:induction false} LengthsDelimit(s: Bytes)
    requires LengthsOk(Lines(s))
    ensures PaxRecords(s) == if Whole(s) then Some(Lines(s)) else None
    decreases |s|
  {
    if s != [] {
      var i := IndexOf(s, NEWLINE);
      if i.None? {
        assert Lines(s)[0] == s;
        UnendedStep(s);
      } else {
        var n := i.value;
        LinesSplit(s, n);
        LengthsTail(Lines(s));
        LengthsDelimit(s[n + 1..]);
        if n > 0 && s[n - 1] == RETURN {
          DroppedStep(s, n);
        } else {
          FirstLine(s, n);
          DelimitStep(s, n);
        }
      }
    }
  }

  /** A last line without its newline is shorter than it says. */
  lemma UnendedStep(s: Bytes)
    requires s != [] && NEWLINE !in s && LengthOk(s)
    ensures PaxRecords(s) == None && !Whole(s)
  {
    NoFirstLine(s);
    assert s[..|s|] == s;
    LeadingLength(s, |s|);
  }

  /** A line whose carriage return was dropped is longer than it says. */
  lemma DroppedStep(s: Bytes, n: nat)
    requires 0 < n < |s| && s[n] == NEWLINE && s[n - 1] == RETURN && LengthOk(s[..n - 1])
    ensures PaxRecords(s) == None && !Whole(s)
  {
    ReadRecord(s, n - 1);
    assert DropsReturn(s);
  }

  lemma DelimitStep(s: Bytes, n: nat)
    requires n < |s| && s[n] == NEWLINE && LengthOk(s[..n]) && Lines(s) == [s[..n]] + Lines(s[n + 1..])
    requires PaxRecords(s[n + 1..]) == if Whole(s[n + 1..]) then Some(Lines(s[n + 1..])) else None
    requires Ended(s) == s[..n] + [NEWLINE] + Ended(s[n + 1..]) && (DropsReturn(s) <==> DropsReturn(s[n + 1..]))
    ensures PaxRecords(s) == if Whole(s) then Some(Lines(s)) else None
  {
    ReadRecord(s, n);
    WholeTail(s, n);
  }

  lemma LinesSplit(s: Bytes, n: nat)
    requires s != [] && IndexOf(s, NEWLINE) == Some(n)
    ensures Lines(s) == [if n > 0 && s[n - 1] == RETURN then s[..n - 1] else s[..n]] + Lines(s[n + 1..])
    ensures Lines(s)[1..] == Lines(s[n + 1..])
  {
    DroppedLine(s, n);
    TailOf(DropReturn(s[..n]), Lines(s[n + 1..]));
  }

  lemma DroppedLine(s: Bytes, n: nat)
    requires n <= |s|
    ensures DropReturn(s[..n]) == if n > 0 && s[n - 1] == RETURN then s[..n - 1] else s[..n]
  {
    if n > 0 {
      assert s[..n][n - 1] == s[n - 1] && s[..n][..n - 1] == s[..n - 1];
    }
  }

  lemma LengthsTail(lines: seq<Bytes>)
    requires lines != [] && LengthsOk(lines)
    ensures LengthOk(lines[0]) && LengthsOk(lines[1..])
  {
  }

  lemma WholeTail(s: Bytes, n: nat)
    requires n < |s| && s[n] == NEWLINE && Ended(s) == s[..n] + [NEWLINE] + Ended(s[n + 1..])
    ensures Ended(s) == s <==> Ended(s[n + 1..]) == s[n + 1..]
  {
    assert s == s[..n] + [NEWLINE] + s[n + 1..];
  }

  /**
   The length-delimited records of a block whose lines all pass are exactly those lines, if the
   block ends in a newline and drops no carriage return; otherwise it is no list of records.
   */
  lemma RecordsAreLines(d: Decoding, native: bool, kind: byte, meta: Bytes)
    requires MetaOk(d, native, kind, meta)
    ensures PaxRecords(meta) == if Whole(meta) then Some(Lines(meta)) else None
  {
    forall i | 0 <= i < |Lines(meta)| ensures LengthOk(Lines(meta)[i]) {
      assert LineOk(d, native, kind, Lines(meta)[i]);
    }
    LengthsDelimit(meta);
  }

  /** The renaming left by a list of lines is the last path record's, and none without one. */
  lemma {:induction false} LastPathRecordWins(lines: seq<Bytes>, pending: Option<Bytes>, k: nat)
    requires PathRecords(lines, pending).Some?
    requires k <= |lines| && forall i :: k <= i < |lines| ==> PathRecord(lines[i]).None?
    requires k > 0 ==> PathRecord(lines[k - 1]).Some?
    ensures PathRecords(lines, pending).value == if k > 0 then Renamed(PathRecord(lines[k - 1]).value) else pending
    decreases |lines|
  {
    if lines != [] {
      var value := PathRecord(lines[0]);
      var next := if value.None? then pending else Renamed(value.value);
      LastPathRecordWins(lines[1..], next, if k == 0 then 0 else k - 1);
    }
  }
}

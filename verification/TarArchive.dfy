/** An archive is accepted exactly when it is a well-formed list of records, an end marker and padding. */
module TarArchive {
  import opened Common
  import opened Tar
  import opened TarStream

  // ----- Cutting the stream -----

  ghost predicate AllShaped(rules: Rules, rs: seq<Record>) {
    forall i :: 0 <= i < |rs| ==> Shaped(rules, rs[i])
  }

  function Flatten(rs: seq<Record>): Bytes {
    if rs == [] then [] else rs[0].header + rs[0].body + Flatten(rs[1..])
  }

  function Run(rules: Rules, st: State, rs: seq<Record>): Option<State>
    requires AllShaped(rules, rs)
    decreases |rs|
  {
    if rs == [] then Some(st) else
    var next := Step(rules, st, rs[0]);
    if next.None? then None else Run(rules, next.value, rs[1..])
  }

  /** `input` is these records followed by an end. */
  ghost predicate SplitsAs(rules: Rules, st: State, input: Bytes, rs: seq<Record>, end: Bytes) {
    && input == Flatten(rs) + end && EndOk(end)
    && AllShaped(rules, rs) && Run(rules, st, rs).Some? && Run(rules, st, rs).value.count > 0
  }

  lemma EndBlockIsZero(end: Bytes)
    requires EndOk(end)
    ensures |end| >= BLOCK && AllZero(end[..BLOCK])
  {
  }

  /** The first record of a stream is its first block and the data that block announces. */
  lemma FirstRecord(rules: Rules, input: Bytes, r: Record, rest: Bytes)
    requires Shaped(rules, r) && input == r.header + r.body + rest
    ensures |input| >= BLOCK && input[..BLOCK] == r.header
    ensures input[BLOCK..][..|r.body|] == r.body && input[BLOCK..][|r.body|..] == rest
  {
  }

  lemma {:induction false} SplitAccepted(rules: Rules, st: State, input: Bytes) returns (rs: seq<Record>, end: Bytes)
    requires Inspect(rules, st, input)
    ensures SplitsAs(rules, st, input, rs, end)
    decreases |input|
  {
    var block, rest := input[..BLOCK], input[BLOCK..];
    if AllZero(block) {
      rs, end := [], input;
      assert Flatten(rs) + end == input;
    } else {
      var h := rules.read(block).value;
      var n := Padded(h.size);
      var first := Record(block, rest[..n]);
      var next := Advance(rules, st, h, rest[..n]).value;
      var more;
      more, end := SplitAccepted(rules, next, rest[n..]);
      rs := [first] + more;
      assert rs[1..] == more;
      assert input == block + rest[..n] + rest[n..];
      ConcatAssoc(block + rest[..n], Flatten(more), end);
    }
  }

  lemma {:induction false} AcceptsSplit(rules: Rules, st: State, input: Bytes, rs: seq<Record>, end: Bytes)
    requires SplitsAs(rules, st, input, rs, end)
    ensures Inspect(rules, st, input)
    decreases |rs|
  {
    if rs == [] {
      assert input == end;
      EndBlockIsZero(end);
    } else {
      var rest := Flatten(rs[1..]) + end;
      ConcatAssoc(rs[0].header + rs[0].body, Flatten(rs[1..]), end);
      FirstRecord(rules, input, rs[0], rest);
      AcceptsSplit(rules, Step(rules, st, rs[0]).value, rest, rs[1..], end);
    }
  }

  /** There is only one way to cut an accepted stream. */
  lemma {:induction false} SplitIsUnique(rules: Rules, input: Bytes, a: seq<Record>, aEnd: Bytes, b: seq<Record>,
                                         bEnd: Bytes)
    requires AllShaped(rules, a) && EndOk(aEnd) && input == Flatten(a) + aEnd
    requires AllShaped(rules, b) && EndOk(bEnd) && input == Flatten(b) + bEnd
    ensures a == b && aEnd == bEnd
    decreases |a|
  {
    EndBlockIsZero(aEnd);
    EndBlockIsZero(bEnd);
    if a == [] || b == [] {
      BothEnd(rules, input, a, aEnd, b, bEnd);
    } else {
      var aRest, bRest := Flatten(a[1..]) + aEnd, Flatten(b[1..]) + bEnd;
      ConcatAssoc(a[0].header + a[0].body, Flatten(a[1..]), aEnd);
      ConcatAssoc(b[0].header + b[0].body, Flatten(b[1..]), bEnd);
      FirstRecord(rules, input, a[0], aRest);
      FirstRecord(rules, input, b[0], bRest);
      SplitIsUnique(rules, aRest, a[1..], aEnd, b[1..], bEnd);
      assert a == [a[0]] + a[1..] && b == [b[0]] + b[1..];
    }
  }

  lemma NonEmptyStartsNonZero(rules: Rules, input: Bytes, a: seq<Record>, end: Bytes)
    requires AllShaped(rules, a) && a != [] && input == Flatten(a) + end
    ensures |input| >= BLOCK && !AllZero(input[..BLOCK])
  {
    ConcatAssoc(a[0].header + a[0].body, Flatten(a[1..]), end);
    FirstRecord(rules, input, a[0], Flatten(a[1..]) + end);
  }

  lemma BothEnd(rules: Rules, input: Bytes, a: seq<Record>, aEnd: Bytes, b: seq<Record>, bEnd: Bytes)
    requires AllShaped(rules, a) && AllShaped(rules, b) && (a == [] || b == [])
    requires |aEnd| >= BLOCK && AllZero(aEnd[..BLOCK]) && |bEnd| >= BLOCK && AllZero(bEnd[..BLOCK])
    requires input == Flatten(a) + aEnd && input == Flatten(b) + bEnd
    ensures a == b && aEnd == bEnd
  {
    if a != [] {
      NonEmptyStartsNonZero(rules, input, a, aEnd);
    }
    if b != [] {
      NonEmptyStartsNonZero(rules, input, b, bEnd);
    }
    assert a == [] ==> input == aEnd;
    assert b == [] ==> input == bEnd;
  }

  // ----- What a whole archive must satisfy -----

  function HeaderAt(rules: Rules, rs: seq<Record>, i: nat): Header
    requires AllShaped(rules, rs) && i < |rs|
  {
    rules.read(rs[i].header).value
  }

  predicate MemberAt(rules: Rules, rs: seq<Record>, i: nat)
    requires AllShaped(rules, rs) && i < |rs|
  {
    !IsMetadata(HeaderAt(rules, rs, i))
  }

  function MetadataAt(rules: Rules, rs: seq<Record>, i: nat): Option<Option<Bytes>>
    requires AllShaped(rules, rs) && i < |rs|
  {
    var h := HeaderAt(rules, rs, i);
    rules.metadata(h.kind, rs[i].body[..h.size])
  }

  /** The path that record `i` leaves for the record after it. */
  function LeftAt(rules: Rules, rs: seq<Record>, i: nat): Option<Bytes>
    requires AllShaped(rules, rs) && i < |rs|
  {
    if !MemberAt(rules, rs, i) && MetadataAt(rules, rs, i).Some? then MetadataAt(rules, rs, i).value else None
  }

  /** A record's path: its own name unless the record right before it gave another. */
  function PathAt(rules: Rules, rs: seq<Record>, i: nat): Bytes
    requires AllShaped(rules, rs) && i < |rs|
  {
    if i > 0 && LeftAt(rules, rs, i - 1).Some? then LeftAt(rules, rs, i - 1).value else HeaderAt(rules, rs, i).name
  }

  predicate RecordOk(rules: Rules, rs: seq<Record>, i: nat)
    requires AllShaped(rules, rs) && i < |rs|
  {
    var h := HeaderAt(rules, rs, i);
    if MemberAt(rules, rs, i) then rules.member(h, PathAt(rules, rs, i))
    else 1 <= h.size <= 4096 && MetadataAt(rules, rs, i).Some?
  }

  function Total(rules: Rules, rs: seq<Record>): nat
    requires AllShaped(rules, rs)
    decreases |rs|
  {
    if rs == [] then 0 else
    var n := |rs| - 1;
    Total(rules, rs[..n]) + (if MemberAt(rules, rs, n) then HeaderAt(rules, rs, n).size else 0)
  }

  ghost predicate DistinctPaths(rules: Rules, rs: seq<Record>)
    requires AllShaped(rules, rs)
  {
    forall i, j :: 0 <= i < j < |rs| && MemberAt(rules, rs, i) && MemberAt(rules, rs, j)
      ==> PathAt(rules, rs, i) != PathAt(rules, rs, j)
  }

  /** The whole condition on the records, without any running state. */
  ghost predicate Archive(rules: Rules, rs: seq<Record>) {
    && AllShaped(rules, rs) && |rs| <= 10000
    && (forall i :: 0 <= i < |rs| ==> RecordOk(rules, rs, i))
    && DistinctPaths(rules, rs)
    && Total(rules, rs) <= 0x8000_0000
  }

  /** What the loop remembers after these records. */
  ghost predicate Remembers(rules: Rules, rs: seq<Record>, st: State)
    requires AllShaped(rules, rs)
  {
    && st.count == |rs| && st.total == Total(rules, rs)
    && st.pending == (if rs == [] then None else LeftAt(rules, rs, |rs| - 1))
    && (forall i :: 0 <= i < |rs| && MemberAt(rules, rs, i) ==> PathAt(rules, rs, i) in st.seen)
    && (forall p :: p in st.seen ==> exists i :: 0 <= i < |rs| && MemberAt(rules, rs, i) && PathAt(rules, rs, i) == p)
  }

  lemma {:induction false} RunLast(rules: Rules, st: State, rs: seq<Record>)
    requires AllShaped(rules, rs) && rs != []
    ensures var before := Run(rules, st, rs[..|rs| - 1]);
      Run(rules, st, rs) == if before.None? then None else Step(rules, before.value, rs[|rs| - 1])
    decreases |rs|
  {
    if |rs| > 1 {
      var next := Step(rules, st, rs[0]);
      if next.Some? {
        RunLast(rules, next.value, rs[1..]);
        assert rs[1..][..|rs| - 2] == rs[..|rs| - 1][1..];
      }
    }
  }

  /** A record is judged by itself and its predecessor only. */
  lemma PrefixAgrees(rules: Rules, rs: seq<Record>, i: nat)
    requires AllShaped(rules, rs) && i < |rs| - 1
    ensures AllShaped(rules, rs[..|rs| - 1])
    ensures PathAt(rules, rs[..|rs| - 1], i) == PathAt(rules, rs, i)
    ensures MemberAt(rules, rs[..|rs| - 1], i) == MemberAt(rules, rs, i)
    ensures RecordOk(rules, rs[..|rs| - 1], i) == RecordOk(rules, rs, i)
    ensures LeftAt(rules, rs[..|rs| - 1], i) == LeftAt(rules, rs, i)
  {
  }

  lemma ArchivePrefix(rules: Rules, rs: seq<Record>)
    requires Archive(rules, rs) && rs != []
    ensures Archive(rules, rs[..|rs| - 1])
  {
    var before := rs[..|rs| - 1];
    forall i | 0 <= i < |before| ensures RecordOk(rules, before, i) {
      PrefixAgrees(rules, rs, i);
    }
    forall i, j | 0 <= i < j < |before| && MemberAt(rules, before, i) && MemberAt(rules, before, j)
      ensures PathAt(rules, before, i) != PathAt(rules, before, j)
    {
      PrefixAgrees(rules, rs, i);
      PrefixAgrees(rules, rs, j);
    }
  }

  /** The condition grows by exactly what the step checks. */
  ghost predicate LastFits(rules: Rules, rs: seq<Record>)
    requires AllShaped(rules, rs) && rs != []
  {
    var n := |rs| - 1;
    && RecordOk(rules, rs, n)
    && (MemberAt(rules, rs, n) ==>
         forall i :: 0 <= i < n && MemberAt(rules, rs, i) ==> PathAt(rules, rs, i) != PathAt(rules, rs, n))
  }

  lemma ArchiveGrows(rules: Rules, rs: seq<Record>)
    requires AllShaped(rules, rs) && rs != [] && Archive(rules, rs[..|rs| - 1])
    ensures Archive(rules, rs) <==> |rs| <= MAX_ENTRIES && LastFits(rules, rs) && Total(rules, rs) <= MAX_UNPACKED
  {
    var n := |rs| - 1;
    if |rs| <= MAX_ENTRIES && LastFits(rules, rs) && Total(rules, rs) <= MAX_UNPACKED {
      forall i | 0 <= i < |rs| ensures RecordOk(rules, rs, i) {
        if i < n {
          PrefixAgrees(rules, rs, i);
        }
      }
      forall i, j | 0 <= i < j < |rs| && MemberAt(rules, rs, i) && MemberAt(rules, rs, j)
        ensures PathAt(rules, rs, i) != PathAt(rules, rs, j)
      {
        PrefixAgrees(rules, rs, i);
        if j < n {
          PrefixAgrees(rules, rs, j);
        }
      }
    }
  }

  lemma SeenAgrees(rules: Rules, rs: seq<Record>, st: State, path: Bytes)
    requires AllShaped(rules, rs) && rs != [] && Remembers(rules, rs[..|rs| - 1], st)
    ensures path in st.seen <==> exists i :: 0 <= i < |rs| - 1 && MemberAt(rules, rs, i) && PathAt(rules, rs, i) == path
  {
    var before := rs[..|rs| - 1];
    if path in st.seen {
      var i :| 0 <= i < |before| && MemberAt(rules, before, i) && PathAt(rules, before, i) == path;
      PrefixAgrees(rules, rs, i);
    }
    if i :| 0 <= i < |rs| - 1 && MemberAt(rules, rs, i) && PathAt(rules, rs, i) == path {
      PrefixAgrees(rules, rs, i);
    }
  }

  /** One step checks exactly that the archive may grow by this record. */
  lemma StepChecks(rules: Rules, rs: seq<Record>, st: State)
    requires AllShaped(rules, rs) && rs != [] && Remembers(rules, rs[..|rs| - 1], st)
    ensures Step(rules, st, rs[|rs| - 1]).Some? <==>
      |rs| <= MAX_ENTRIES && LastFits(rules, rs) && (MemberAt(rules, rs, |rs| - 1) ==> Total(rules, rs) <= MAX_UNPACKED)
  {
    var n := |rs| - 1;
    SeenAgrees(rules, rs, st, PathAt(rules, rs, n));
    assert PathOf(st, HeaderAt(rules, rs, n)) == PathAt(rules, rs, n);
  }

  lemma StepRemembers(rules: Rules, rs: seq<Record>, st: State)
    requires AllShaped(rules, rs) && rs != [] && Remembers(rules, rs[..|rs| - 1], st)
    requires Step(rules, st, rs[|rs| - 1]).Some?
    ensures Remembers(rules, rs, Step(rules, st, rs[|rs| - 1]).value)
  {
    var n := |rs| - 1;
    var next := Step(rules, st, rs[n]).value;
    assert PathOf(st, HeaderAt(rules, rs, n)) == PathAt(rules, rs, n);
    forall i | 0 <= i < |rs| && MemberAt(rules, rs, i) ensures PathAt(rules, rs, i) in next.seen {
      if i < n {
        SeenAgrees(rules, rs, st, PathAt(rules, rs, i));
      }
    }
    forall p | p in next.seen ensures exists i :: 0 <= i < |rs| && MemberAt(rules, rs, i) && PathAt(rules, rs, i) == p {
      SeenAgrees(rules, rs, st, p);
      assert !(p in st.seen) ==> MemberAt(rules, rs, n) && PathAt(rules, rs, n) == p;
    }
  }

  /** The running state accepts exactly the well-formed archives. */
  lemma {:induction false} RunIffArchive(rules: Rules, rs: seq<Record>)
    requires AllShaped(rules, rs)
    ensures Run(rules, START, rs).Some? <==> Archive(rules, rs)
    ensures Run(rules, START, rs).Some? ==> Remembers(rules, rs, Run(rules, START, rs).value)
    decreases |rs|
  {
    if rs != [] {
      var before := rs[..|rs| - 1];
      RunIffArchive(rules, before);
      RunLast(rules, START, rs);
      var st := Run(rules, START, before);
      if st.Some? {
        StepChecks(rules, rs, st.value);
        ArchiveGrows(rules, rs);
        if Run(rules, START, rs).Some? {
          StepRemembers(rules, rs, st.value);
        }
      } else if Archive(rules, rs) {
        ArchivePrefix(rules, rs);
      }
    }
  }

  /** `input` is a nonempty well-formed archive followed by its end marker and padding. */
  ghost predicate ArchiveStream(rules: Rules, input: Bytes, rs: seq<Record>, end: Bytes) {
    rs != [] && Archive(rules, rs) && EndOk(end) && input == Flatten(rs) + end
  }

  /** The streaming inspection accepts exactly the streams that split into a well-formed archive. */
  lemma AcceptedIffArchive(rules: Rules, input: Bytes)
    ensures Inspect(rules, START, input) <==> exists rs, end :: ArchiveStream(rules, input, rs, end)
  {
    if Inspect(rules, START, input) {
      var rs, end := SplitAccepted(rules, START, input);
      RunIffArchive(rules, rs);
      assert ArchiveStream(rules, input, rs, end);
    }
    if rs, end :| ArchiveStream(rules, input, rs, end) {
      RunIffArchive(rules, rs);
      AcceptsSplit(rules, START, input, rs, end);
    }
  }
}

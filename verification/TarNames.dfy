/** Every member of an accepted archive has a clean relative path. */
module TarNames {
  import opened Common
  import opened Tar
  import opened TarStream
  import opened TarArchive

  /** A clean path without control characters. */
  predicate Shown(path: Bytes) {
    Clean(path) && Printable(path)
  }

  /** The empty root name, or components none of which is empty, `.` or `..`. */
  predicate Clean(path: Bytes) {
    path == [] || (!StartsWithSlash(path) && [] !in Split(path, SLASH) && [DOT] !in Split(path, SLASH) &&
      DOTS !in Split(path, SLASH))
  }

  lemma {:induction false} StripKeepsComponents(path: Bytes, c: Bytes)
    requires c in Split(StripDots(path), SLASH)
    ensures c in Split(path, SLASH)
    decreases |path|
  {
    if LeadsDot(path) {
      StripKeepsComponents(path[2..], c);
      assert path == [DOT] + [SLASH] + path[2..] by {
        assert path[..2] == [DOT, SLASH];
      }
      SplitConcat([DOT], path[2..], SLASH);
    }
  }

  lemma {:induction false} TrimKeepsComponents(path: Bytes, c: Bytes)
    requires c in Split(TrimSlashes(path), SLASH)
    ensures c in Split(path, SLASH)
    decreases |path|
  {
    if path != [] && path[|path| - 1] == SLASH {
      var n := |path| - 1;
      TrimKeepsComponents(path[..n], c);
      assert path == path[..n] + [SLASH] + [];
      SplitConcat(path[..n], [], SLASH);
    }
  }

  lemma NoLeadingSlash(path: Bytes)
    requires [] !in Split(path, SLASH)
    ensures !StartsWithSlash(path)
  {
  }

  /** Normalization yields only clean paths. */
  lemma NormalizedIsClean(path: Bytes)
    requires Normalize(path).Some?
    ensures Clean(Normalize(path).value)
  {
    var bare := TrimSlashes(StripDots(path));
    if Normalize(path).value != [] {
      if DOTS in Split(bare, SLASH) {
        TrimKeepsComponents(StripDots(path), DOTS);
        StripKeepsComponents(path, DOTS);
      }
      NoLeadingSlash(bare);
    }
  }

  lemma {:induction false} NothingToTrim(path: Bytes)
    requires [] !in Split(path, SLASH)
    ensures TrimSlashes(path) == path
  {
    if path != [] && path[|path| - 1] == SLASH {
      var n := |path| - 1;
      assert path == path[..n] + [SLASH] + [];
      SplitConcat(path[..n], [], SLASH);
    }
  }

  lemma RenamedIsShown(value: Bytes)
    requires Renamed(value).Some?
    ensures Shown(Renamed(value).value)
  {
    if |value| >= 100 {
      NothingToTrim(value);
    } else {
      NameIsShown(value + Zeros(BLOCK - |value|));
    }
  }

  lemma NameIsShown(h: Bytes)
    requires |h| == BLOCK && Name(h).Some?
    ensures Shown(Name(h).value)
  {
    var path, prefix := Text(h[..100]).value, Text(h[345..500]).value;
    var joined := if prefix != [] then prefix + [SLASH] + path else path;
    JoinedIsPrintable(prefix, path);
    NormalizedIsClean(joined);
    NormalizedIsPrintable(joined);
  }

  lemma {:induction false} RecordsAreShown(lines: seq<Bytes>, pending: Option<Bytes>)
    requires PathRecords(lines, pending).Some? && (pending.Some? ==> Shown(pending.value))
    ensures var left := PathRecords(lines, pending).value; left.Some? ==> Shown(left.value)
    decreases |lines|
  {
    if lines != [] {
      var value := PathRecord(lines[0]);
      if value.None? {
        RecordsAreShown(lines[1..], pending);
      } else {
        RenamedIsShown(value.value);
        RecordsAreShown(lines[1..], Renamed(value.value));
      }
    }
  }

  lemma PartIsPrintable(s: Bytes, part: Bytes, at: nat)
    requires Printable(s) && at + |part| <= |s| && part == s[at..at + |part|]
    ensures Printable(part)
  {
    forall i | 0 <= i < |part| ensures !ControlAt(part, i) {
      assert !ControlAt(s, at + i);
    }
  }

  lemma {:induction false} StripKeepsPrintable(path: Bytes)
    requires Printable(path)
    ensures Printable(StripDots(path))
    decreases |path|
  {
    if LeadsDot(path) {
      PartIsPrintable(path, path[2..], 2);
      StripKeepsPrintable(path[2..]);
    }
  }

  lemma {:induction false} TrimKeepsPrintable(path: Bytes)
    requires Printable(path)
    ensures Printable(TrimSlashes(path))
    decreases |path|
  {
    if path != [] && path[|path| - 1] == SLASH {
      PartIsPrintable(path, path[..|path| - 1], 0);
      TrimKeepsPrintable(path[..|path| - 1]);
    }
  }

  lemma NormalizedIsPrintable(path: Bytes)
    requires Printable(path) && Normalize(path).Some?
    ensures Printable(Normalize(path).value)
  {
    StripKeepsPrintable(path);
    TrimKeepsPrintable(StripDots(path));
  }

  lemma JoinedIsPrintable(prefix: Bytes, name: Bytes)
    requires Printable(prefix) && Printable(name)
    ensures Printable(prefix + [SLASH] + name)
  {
    var s := prefix + [SLASH] + name;
    forall i | 0 <= i < |s| ensures !ControlAt(s, i) {
      if i < |prefix| {
        assert !ControlAt(prefix, i);
      } else if i > |prefix| {
        assert !ControlAt(name, i - |prefix| - 1);
      }
    }
  }

  /** Rules under which every path a header or a metadata block yields is clean and printable. */
  ghost predicate ShownRules(rules: Rules) {
    && (forall h :: rules.read(h).Some? ==> Shown(rules.read(h).value.name))
    && (forall kind, meta :: ShownLeft(rules.metadata(kind, meta)))
  }

  predicate ShownLeft(left: Option<Option<Bytes>>) {
    left.Some? && left.value.Some? ==> Shown(left.value.value)
  }

  lemma MetadataIsShown(d: Decoding, native: bool, kind: byte, meta: Bytes)
    ensures ShownLeft(TarRules(d, native).metadata(kind, meta))
  {
    if MetaOk(d, native, kind, meta) && kind == EXTENDED && !native {
      RecordsAreShown(Lines(meta), None);
    }
  }

  lemma TarRulesAreShown(d: Decoding, native: bool)
    ensures ShownRules(TarRules(d, native))
  {
    forall h | TarRules(d, native).read(h).Some? ensures Shown(TarRules(d, native).read(h).value.name) {
      NameIsShown(h);
    }
    forall kind, meta ensures ShownLeft(TarRules(d, native).metadata(kind, meta)) {
      MetadataIsShown(d, native, kind, meta);
    }
  }

  lemma PathIsShown(rules: Rules, rs: seq<Record>, i: nat)
    requires ShownRules(rules) && AllShaped(rules, rs) && i < |rs|
    ensures Shown(PathAt(rules, rs, i))
  {
  }

  /** No other member has this one's path. */
  ghost predicate OnlyAt(rules: Rules, rs: seq<Record>, i: nat)
    requires AllShaped(rules, rs) && i < |rs|
  {
    forall j :: 0 <= j < |rs| && j != i && MemberAt(rules, rs, j) ==> PathAt(rules, rs, j) != PathAt(rules, rs, i)
  }

  /** A member of a well-formed archive passed the member rule, and no other member has its path. */
  lemma MemberPassed(rules: Rules, rs: seq<Record>, i: nat)
    requires Archive(rules, rs) && i < |rs| && MemberAt(rules, rs, i)
    ensures rules.member(HeaderAt(rules, rs, i), PathAt(rules, rs, i))
    ensures OnlyAt(rules, rs, i)
    ensures |rs[i].body| == Padded(HeaderAt(rules, rs, i).size)
  {
    assert RecordOk(rules, rs, i);
    assert Shaped(rules, rs[i]);
  }

  ghost predicate SafeMember(h: Header, path: Bytes, body: Bytes) {
    && Shown(path) && (path == [] ==> h.kind == DIRECTORY)
    && h.kind in {0, FILE, DIRECTORY} && h.mode <= 0x1FF
    && |body| == Padded(h.size) && (h.kind == DIRECTORY ==> body == [])
  }

  lemma PassedIsSafe(native: bool, h: Header, path: Bytes, body: Bytes)
    requires MemberOk(native, h, path) && Shown(path) && |body| == Padded(h.size)
    ensures SafeMember(h, path, body)
  {
  }

  /** What an accepted archive holds: ordinary files and directories under distinct clean, printable paths. */
  lemma AcceptedMembersAreSafe(d: Decoding, native: bool, rs: seq<Record>, i: nat)
    requires Archive(TarRules(d, native), rs) && i < |rs| && MemberAt(TarRules(d, native), rs, i)
    ensures SafeMember(HeaderAt(TarRules(d, native), rs, i), PathAt(TarRules(d, native), rs, i), rs[i].body)
    ensures OnlyAt(TarRules(d, native), rs, i)
  {
    var rules := TarRules(d, native);
    MemberPassed(rules, rs, i);
    TarRulesAreShown(d, native);
    PathIsShown(rules, rs, i);
    PassedIsSafe(native, HeaderAt(rules, rs, i), PathAt(rules, rs, i), rs[i].body);
  }
}

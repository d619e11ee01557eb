/**
 The header fields and metadata records of `xtask/src/tar_guard.rs`. Which
 text is a finite non-negative decimal number is given by a `Decoding`.
 */
module Tar {
  import opened Common
  import Utf8

  type Bytes = seq<byte>

  datatype Decoding = Decoding(time: Bytes -> bool)

  const BLOCK: nat := 512

  const SLASH: byte := 47
  const DOT: byte := 46
  const SPACE: byte := 32
  const NEWLINE: byte := 10
  const RETURN: byte := 13
  const EQUALS: byte := 61
  const FILE: byte := 48
  const DIRECTORY: byte := 53
  const GLOBAL: byte := 103
  const EXTENDED: byte := 120

  function Ascii(s: string): (r: Bytes)
    ensures |r| == |s|
  {
    seq(|s|, i requires 0 <= i < |s| => (s[i] as int) % 256)
  }

  predicate AllZero(s: Bytes) {
    forall i :: 0 <= i < |s| ==> s[i] == 0
  }

  function Zeros(n: nat): (r: Bytes)
    ensures |r| == n && AllZero(r)
  {
    seq(n, i => 0)
  }

  // ----- Numbers and text -----

  predicate Filler(b: byte) { b == 0 || b == SPACE }

  function TrimLeft(s: Bytes): Bytes
    decreases |s|
  {
    if s != [] && Filler(s[0]) then TrimLeft(s[1..]) else s
  }

  function TrimRight(s: Bytes): Bytes
    decreases |s|
  {
    if s != [] && Filler(s[|s| - 1]) then TrimRight(s[..|s| - 1]) else s
  }

  predicate OctalDigit(b: byte) { 48 <= b <= 55 }

  function OctalValue(s: Bytes): nat
    requires forall i :: 0 <= i < |s| ==> OctalDigit(s[i])
    decreases |s|
  {
    if s == [] then 0 else
    var last := s[|s| - 1];
    assert OctalDigit(last);
    OctalValue(s[..|s| - 1]) * 8 + (last - 48)
  }

  /** `octal`: a blank field is zero. Fields of digits and filler are ASCII, so the text check adds nothing. */
  function Octal(s: Bytes): Option<nat> {
    var t := TrimLeft(TrimRight(s));
    if t == [] then Some(0)
    else if !(forall i :: 0 <= i < |t| ==> OctalDigit(t[i])) then None
    else if OctalValue(t) >= 0x1_0000_0000_0000_0000 then None
    else Some(OctalValue(t))
  }

  function UpToNul(s: Bytes): Bytes
    decreases |s|
  {
    if s == [] || s[0] == 0 then [] else [s[0]] + UpToNul(s[1..])
  }

  /** A control character of UTF-8 text: C0, delete, or C1 after its lead byte. */
  predicate ControlAt(s: Bytes, i: nat)
    requires i < |s|
  {
    s[i] < 32 || s[i] == 127 || (s[i] == 0xC2 && i + 1 < |s| && 0x80 <= s[i + 1] < 0xA0)
  }

  predicate Printable(s: Bytes) {
    forall i :: 0 <= i < |s| ==> !ControlAt(s, i)
  }

  /** `text` */
  function Text(field: Bytes): Option<Bytes> {
    var t := UpToNul(field);
    if Utf8.Valid(t) && Printable(t) then Some(t) else None
  }

  // ----- Names -----

  const DOTS: Bytes := [DOT, DOT]

  predicate LeadsDot(path: Bytes) {
    StartsWith(path, [DOT, SLASH])
  }

  function StripDots(path: Bytes): Bytes
    decreases |path|
  {
    if LeadsDot(path) then StripDots(path[2..]) else path
  }

  function TrimSlashes(path: Bytes): Bytes
    decreases |path|
  {
    if path != [] && path[|path| - 1] == SLASH then TrimSlashes(path[..|path| - 1]) else path
  }

  predicate StartsWithSlash(path: Bytes) {
    path != [] && path[0] == SLASH
  }

  /** The checks and normalization of one joined path. */
  function Normalize(path: Bytes): Option<Bytes> {
    if StartsWithSlash(path) || DOTS in Split(path, SLASH) then None else
    var bare := TrimSlashes(StripDots(path));
    if bare == [DOT] || bare == [] then Some([])
    else if [] in Split(bare, SLASH) || [DOT] in Split(bare, SLASH) then None
    else Some(bare)
  }

  /** `name` */
  function Name(h: Bytes): Option<Bytes>
    requires |h| == BLOCK
  {
    var path, prefix := Text(h[..100]), Text(h[345..500]);
    if path.None? || prefix.None? then None
    else Normalize(if prefix.value != [] then prefix.value + [SLASH] + path.value else path.value)
  }

  method ReadName(h: Bytes) returns (r: Option<Bytes>)
    requires |h| == BLOCK
    ensures r == Name(h)
  {
    var first, prefix := Text(h[..100]), Text(h[345..500]);
    if first.None? || prefix.None? {
      return None;
    }
    var path := first.value;
    if prefix.value != [] {
      path := prefix.value + [SLASH] + path;
    }
    if StartsWithSlash(path) || DOTS in Split(path, SLASH) {
      return None;
    }
    ghost var whole := path;
    while LeadsDot(path)
      invariant StripDots(path) == StripDots(whole)
      decreases |path|
    {
      path := path[2..];
    }
    path := TrimSlashes(path);
    if path == [DOT] || path == [] {
      return Some([]);
    }
    if [] in Split(path, SLASH) || [DOT] in Split(path, SLASH) {
      return None;
    }
    return Some(path);
  }

  // ----- Extended metadata -----

  function IndexOf(s: Bytes, b: byte): (r: Option<nat>)
    ensures r.Some? ==> r.value < |s| && s[r.value] == b && forall j :: 0 <= j < r.value ==> s[j] != b
    ensures r.None? ==> b !in s
    decreases |s|
  {
    if s == [] then None
    else if s[0] == b then Some(0)
    else var r := IndexOf(s[1..], b); if r.None? then None else Some(r.value + 1)
  }

  /** `split_once` */
  function SplitOnce(s: Bytes, b: byte): Option<(Bytes, Bytes)> {
    var i := IndexOf(s, b);
    if i.None? then None else Some((s[..i.value], s[i.value + 1..]))
  }

  function DropReturn(s: Bytes): Bytes {
    if s != [] && s[|s| - 1] == RETURN then s[..|s| - 1] else s
  }

  /** `str::lines` */
  function Lines(s: Bytes): seq<Bytes>
    decreases |s|
  {
    if s == [] then [] else
    var i := IndexOf(s, NEWLINE);
    if i.None? then [s] else [DropReturn(s[..i.value])] + Lines(s[i.value + 1..])
  }

  function DecimalValue(s: Bytes): nat
    requires forall i :: 0 <= i < |s| ==> 48 <= s[i] <= 57
    decreases |s|
  {
    if s == [] then 0 else DecimalValue(s[..|s| - 1]) * 10 + (s[|s| - 1] - 48)
  }

  function ParseDigits(s: Bytes): Option<nat> {
    if s == [] || !(forall i :: 0 <= i < |s| ==> 48 <= s[i] <= 57) then None
    else if DecimalValue(s) >= 0x1_0000_0000_0000_0000 then None
    else Some(DecimalValue(s))
  }

  /** `parse::<usize>`, which also takes a leading plus. */
  function ParseLength(s: Bytes): Option<nat> {
    ParseDigits(if s != [] && s[0] == 43 then s[1..] else s)
  }

  predicate KeyOk(d: Decoding, native: bool, kind: byte, key: Bytes, value: Bytes) {
    || (kind == GLOBAL && !native && key == Ascii("comment"))
    || (kind == EXTENDED && !native && key == Ascii("path"))
    || (key in {Ascii("mtime"), Ascii("atime"), Ascii("ctime")} && d.time(value))
  }

  predicate LineOk(d: Decoding, native: bool, kind: byte, line: Bytes) {
    var outer := SplitOnce(line, SPACE);
    && outer.Some?
    && ParseLength(outer.value.0) == Some(|line| + 1)
    && var inner := SplitOnce(outer.value.1, EQUALS);
       inner.Some? && KeyOk(d, native, kind, inner.value.0, inner.value.1)
  }

  /** The value of a line's path record, if it has one. */
  function PathRecord(line: Bytes): Option<Bytes> {
    var outer := SplitOnce(line, SPACE);
    if outer.Some? && StartsWith(outer.value.1, Ascii("path=")) then Some(outer.value.1[5..]) else None
  }

  /** What a path record renames the next member to. */
  function Renamed(value: Bytes): Option<Bytes> {
    if |value| >= 100 then
      if StartsWithSlash(value) || !Printable(value)
         || DOTS in Split(value, SLASH) || [] in Split(value, SLASH) || [DOT] in Split(value, SLASH) then None
      else Some(TrimSlashes(value))
    else Name(value + Zeros(BLOCK - |value|))
  }

  /** The last path record wins; `None` when one of them is refused. */
  function PathRecords(lines: seq<Bytes>, pending: Option<Bytes>): Option<Option<Bytes>>
    decreases |lines|
  {
    if lines == [] then Some(pending) else
    var value := PathRecord(lines[0]);
    if value.None? then PathRecords(lines[1..], pending) else
    var path := Renamed(value.value);
    if path.None? then None else PathRecords(lines[1..], path)
  }

  method ReadPathRecords(lines: seq<Bytes>) returns (r: Option<Option<Bytes>>)
    ensures r == PathRecords(lines, None)
  {
    var pending: Option<Bytes> := None;
    for i := 0 to |lines|
      invariant PathRecords(lines, None) == PathRecords(lines[i..], pending)
    {
      assert lines[i..][1..] == lines[i + 1..];
      var value := PathRecord(lines[i]);
      if value.Some? {
        var path := Renamed(value.value);
        if path.None? {
          return None;
        }
        pending := path;
      }
    }
    return Some(pending);
  }

  /** The path an accepted metadata block leaves for the next header, if any. */
  function Pending(native: bool, kind: byte, meta: Bytes): Option<Option<Bytes>> {
    if kind == EXTENDED && !native then PathRecords(Lines(meta), None) else Some(None)
  }

  predicate MetaOk(d: Decoding, native: bool, kind: byte, meta: Bytes) {
    && Utf8.Valid(meta) && Pending(native, kind, meta).Some?
    && forall i :: 0 <= i < |Lines(meta)| ==> LineOk(d, native, kind, Lines(meta)[i])
  }

  // ----- Headers -----

  /** The sum of the header's bytes from `i`, its checksum field read as spaces. */
  function SumFrom(h: Bytes, i: nat): nat
    requires i <= |h|
    decreases |h| - i
  {
    if i == |h| then 0 else (if 148 <= i < 156 then 32 else h[i]) + SumFrom(h, i + 1)
  }

  const USTAR: Bytes := [117, 115, 116, 97, 114, 0]
  const GNU: Bytes := [117, 115, 116, 97, 114, 32]

  /** Checksum, format and GNU extension area. */
  predicate FormatOk(h: Bytes)
    requires |h| == BLOCK
  {
    && Octal(h[148..156]) == Some(SumFrom(h, 0))
    && (h[257..263] == USTAR || (h[257..263] == GNU && AllZero(h[345..500])))
  }

  function Size(h: Bytes): Option<nat>
    requires |h| == BLOCK
  {
    Octal(h[124..136])
  }

  function Mode(h: Bytes): Option<nat>
    requires |h| == BLOCK
  {
    Octal(h[100..108])
  }

  function Kind(h: Bytes): byte
    requires |h| == BLOCK
  {
    h[156]
  }

  predicate HasBit(mode: nat, bit: nat)
    requires bit > 0
  {
    mode / bit % 2 == 1
  }

  const EXECUTABLES: set<string> := {
    "bin/agent-run", "bin/agent-run-tui", "bin/agent-run-deploy", "collectors/codex.sh", "collectors/claude.sh",
    "collectors/glm.sh", "systemd/agent-run-service.sh"}

  predicate ShippedExecutable(path: Bytes) {
    exists s :: s in EXECUTABLES && path == Ascii(s)
  }

  predicate ModeOk(native: bool, kind: byte, mode: nat, path: Bytes) {
    && mode <= 0x1FF
    && (native ==> !HasBit(mode, 16) && !HasBit(mode, 2))
    && (native && kind != DIRECTORY && (HasBit(mode, 64) || HasBit(mode, 8) || HasBit(mode, 1)) ==>
         ShippedExecutable(path))
  }

  /** What a header block says; `plain` when its link field is empty. */
  datatype Header = Header(kind: byte, size: nat, mode: nat, name: Bytes, plain: bool)

  function ReadHeader(h: Bytes): Option<Header> {
    if |h| != BLOCK || !FormatOk(h) then None else
    var size, mode, name := Size(h), Mode(h), Name(h);
    if size.None? || mode.None? || name.None? then None
    else Some(Header(Kind(h), size.value, mode.value, name.value, AllZero(h[157..257])))
  }

  /** An ordinary file or directory that carries nothing else. */
  predicate MemberOk(native: bool, h: Header, path: Bytes) {
    && h.kind in {0, FILE, DIRECTORY} && h.plain
    && (path == [] ==> h.kind == DIRECTORY)
    && ModeOk(native, h.kind, h.mode, path)
    && (h.kind == DIRECTORY ==> h.size == 0)
  }

  /** How headers, metadata blocks and members are judged, apart from how the stream is cut into them. */
  datatype Rules = Rules(
    read: Bytes -> Option<Header>,
    metadata: (byte, Bytes) -> Option<Option<Bytes>>,
    member: (Header, Bytes) -> bool)

  /** The inspector's own rules. */
  function TarRules(d: Decoding, native: bool): Rules {
    Rules(
      h => ReadHeader(h),
      (kind, meta) => if MetaOk(d, native, kind, meta) then Pending(native, kind, meta) else None,
      (h, path) => MemberOk(native, h, path))
  }
}

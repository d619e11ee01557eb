/**
 The inspection loop of `xtask/src/tar_guard.rs`: how a byte stream is cut into headers, data, an
 end marker and padding, and what is remembered from one header to the next.
 */
module TarStream {
  import opened Common
  import opened Tar

  const MAX_ENTRIES: nat := 10000
  const MAX_UNPACKED: nat := 2 * 1024 * 1024 * 1024
  const MAX_METADATA: nat := 4096
  const MAX_PADDING: nat := 1024 * 1024
  const CHUNK: nat := 8192

  function Padded(size: nat): (r: nat)
    ensures size <= r < size + BLOCK && r % BLOCK == 0
  {
    (size + 511) / 512 * 512
  }

  datatype State = State(count: nat, seen: set<Bytes>, pending: Option<Bytes>, total: nat)

  const START := State(0, {}, None, 0)

  datatype Record = Record(header: Bytes, body: Bytes)

  predicate IsMetadata(h: Header) {
    h.kind == GLOBAL || h.kind == EXTENDED
  }

  /** A header block that ends nothing, with as many data blocks as it announces. */
  predicate Shaped(rules: Rules, r: Record) {
    && |r.header| == BLOCK && !AllZero(r.header) && rules.read(r.header).Some?
    && |r.body| == Padded(rules.read(r.header).value.size)
  }

  function PathOf(st: State, h: Header): Bytes {
    if st.pending.Some? then st.pending.value else h.name
  }

  /** One header and its data; `None` refuses the archive. */
  function Advance(rules: Rules, st: State, h: Header, body: Bytes): Option<State>
    requires |body| == Padded(h.size)
  {
    if st.count >= MAX_ENTRIES then None
    else if IsMetadata(h) then
      if 1 <= h.size <= MAX_METADATA && rules.metadata(h.kind, body[..h.size]).Some? then
        Some(State(st.count + 1, st.seen, rules.metadata(h.kind, body[..h.size]).value, st.total))
      else None
    else
      var path := PathOf(st, h);
      if rules.member(h, path) && path !in st.seen && st.total + h.size <= MAX_UNPACKED then
        Some(State(st.count + 1, st.seen + {path}, None, st.total + h.size))
      else None
  }

  function Step(rules: Rules, st: State, r: Record): Option<State>
    requires Shaped(rules, r)
  {
    Advance(rules, st, rules.read(r.header).value, r.body)
  }

  predicate PaddingOk(s: Bytes) {
    |s| <= MAX_PADDING && AllZero(s)
  }

  /** Two zero blocks, then zero padding up to the limit. */
  predicate EndOk(s: Bytes) {
    |s| >= 2 * BLOCK && AllZero(s[..2 * BLOCK]) && PaddingOk(s[2 * BLOCK..])
  }

  /** Whether the rest of a stream is accepted. */
  predicate Inspect(rules: Rules, st: State, input: Bytes)
    decreases |input|
  {
    |input| >= BLOCK &&
    if AllZero(input[..BLOCK]) then EndOk(input) && st.count > 0
    else
      var read, rest := rules.read(input[..BLOCK]), input[BLOCK..];
      && read.Some? && |rest| >= Padded(read.value.size)
      && var n := Padded(read.value.size);
         var next := Advance(rules, st, read.value, rest[..n]);
         next.Some? && Inspect(rules, next.value, rest[n..])
  }

  // ----- The loop -----

  /** Reads the rest in chunks of any size the reader hands out; how it is cut does not matter. */
  method ReadPadding(rest: Bytes, sizes: nat -> nat) returns (ok: bool)
    ensures ok <==> PaddingOk(rest)
  {
    var remaining, at, calls := MAX_PADDING, 0, 0;
    while at < |rest|
      invariant 0 <= at <= |rest| && at + remaining == MAX_PADDING && 0 <= remaining && AllZero(rest[..at])
    {
      var wanted := if sizes(calls) == 0 then 1 else if sizes(calls) < CHUNK then sizes(calls) else CHUNK;
      var read := if wanted < |rest| - at then wanted else |rest| - at;
      if read > remaining {
        return false;
      }
      remaining := remaining - read;
      var chunk := rest[at..at + read];
      if !AllZero(chunk) {
        ghost var i :| 0 <= i < |chunk| && chunk[i] != 0;
        assert rest[at + i] != 0;
        return false;
      }
      assert rest[..at + read] == rest[..at] + chunk;
      at, calls := at + read, calls + 1;
    }
    assert rest[..at] == rest;
    return true;
  }

  method ReadEnd(input: Bytes, sizes: nat -> nat) returns (ok: bool)
    requires |input| >= BLOCK && AllZero(input[..BLOCK])
    ensures ok <==> EndOk(input)
  {
    var rest := input[BLOCK..];
    if |rest| < BLOCK {
      return false;
    }
    assert input[..2 * BLOCK] == input[..BLOCK] + rest[..BLOCK] && input[2 * BLOCK..] == rest[BLOCK..];
    if !AllZero(rest[..BLOCK]) {
      return false;
    }
    ok := ReadPadding(rest[BLOCK..], sizes);
  }

  /** One turn of the loop: judges the next header and skips its data; `None` refuses the archive. */
  method TakeRecord(rules: Rules, st: State, input: Bytes) returns (next: Option<(State, Bytes)>)
    requires |input| >= BLOCK && !AllZero(input[..BLOCK])
    ensures next.None? ==> !Inspect(rules, st, input)
    ensures next.Some? ==> |next.value.1| < |input|
    ensures next.Some? ==> Inspect(rules, st, input) == Inspect(rules, next.value.0, next.value.1)
  {
    var read, rest := rules.read(input[..BLOCK]), input[BLOCK..];
    if st.count >= MAX_ENTRIES || read.None? {
      return None;
    }
    var h := read.value;
    var length := Padded(h.size);
    if IsMetadata(h) {
      if h.size == 0 || h.size > MAX_METADATA || |rest| < h.size {
        return None;
      }
      MetadataTurn(rules, st, input, h);
      var meta := rules.metadata(h.kind, rest[..h.size]);
      if meta.None? {
        return None;
      }
      return Some((State(st.count + 1, st.seen, meta.value, st.total), if |rest| < length then [] else rest[length..]));
    }
    MemberTurn(rules, st, input, h);
    var path := if st.pending.Some? then st.pending.value else h.name;
    if !rules.member(h, path) || path in st.seen || st.total + h.size > MAX_UNPACKED || |rest| < length {
      return None;
    }
    return Some((State(st.count + 1, st.seen + {path}, None, st.total + h.size), rest[length..]));
  }

  /** `inspect_stream`: the stream is consumed record by record. */
  method InspectStream(rules: Rules, stream: Bytes, sizes: nat -> nat) returns (ok: bool)
    ensures ok <==> Inspect(rules, START, stream)
  {
    var st, input := START, stream;
    while |input| >= BLOCK
      invariant Inspect(rules, START, stream) == Inspect(rules, st, input)
      decreases |input|
    {
      if AllZero(input[..BLOCK]) {
        ok := ReadEnd(input, sizes);
        return ok && st.count > 0;
      }
      var next := TakeRecord(rules, st, input);
      if next.None? {
        return false;
      }
      st, input := next.value.0, next.value.1;
    }
    return false;
  }

  ghost predicate AtHeader(rules: Rules, st: State, input: Bytes, h: Header) {
    |input| >= BLOCK && !AllZero(input[..BLOCK]) && rules.read(input[..BLOCK]) == Some(h) && st.count < MAX_ENTRIES
  }

  /** A metadata block's padding is skipped unchecked; a stream cut within it is refused at the next header. */
  lemma MetadataTurn(rules: Rules, st: State, input: Bytes, h: Header)
    requires AtHeader(rules, st, input, h) && IsMetadata(h) && 1 <= h.size <= MAX_METADATA && h.size <= |input| - BLOCK
    ensures var rest := input[BLOCK..];
      var meta := rules.metadata(h.kind, rest[..h.size]);
      Inspect(rules, st, input) <==>
        && meta.Some?
        && Inspect(rules, State(st.count + 1, st.seen, meta.value, st.total),
                   if |rest| < Padded(h.size) then [] else rest[Padded(h.size)..])
  {
    var rest := input[BLOCK..];
    if |rest| >= Padded(h.size) {
      assert rest[..Padded(h.size)][..h.size] == rest[..h.size];
    }
  }

  lemma MemberTurn(rules: Rules, st: State, input: Bytes, h: Header)
    requires AtHeader(rules, st, input, h) && !IsMetadata(h)
    ensures var rest, path := input[BLOCK..], PathOf(st, h);
      Inspect(rules, st, input) <==>
        && rules.member(h, path) && path !in st.seen && st.total + h.size <= MAX_UNPACKED && |rest| >= Padded(h.size)
        && Inspect(rules, State(st.count + 1, st.seen + {path}, None, st.total + h.size), rest[Padded(h.size)..])
  {
  }
}

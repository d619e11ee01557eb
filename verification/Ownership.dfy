/**
 Ownership persistence of `Process` in `crates/agent-run-adapters/src/io.rs`: one
 write in flight at a time, kept across cancellation of the call that started it.
 What happens while a call waits is its script; a script that runs out is a
 cancelled checkpoint (or, in `observing`, finished work).
 */
module Ownership {
  import opened Common

  /** Members copied by one delta at most (`snapshot_since`). */
  const DELTA_LIMIT: nat := 512

  datatype Member = Member(pid: nat, token: string)

  datatype Stage = Initial | Streaming | Final | Observation

  datatype Failure = Failure(stage: Stage, cause: string)

  /** An append-only capture: how many members, and whether a live root was ever observed. */
  datatype Revision = Revision(count: nat, observed: bool)

  datatype Status = InFlight | Acknowledged | Refused(cause: string)

  /** A started write: the capture slice it carries, and what became of it. */
  datatype Write = Write(start: nat, members: seq<Member>, stage: Stage, status: Status)

  datatype Pending = Pending(revision: Revision, stage: Stage)

  /** `log` records the writes started since the sink was installed; no step reads it. */
  datatype State = State(
    root: bool,
    captured: seq<Member>,
    observed: bool,
    sink: bool,
    revision: Option<Revision>,
    pending: Option<Pending>,
    failure: Option<Failure>,
    log: seq<Write>)

  datatype Input =
    | Resolve(ok: bool, cause: string)
    | Grow(members: seq<Member>, observed: bool)
    | ObserveFails(cause: string)

  datatype Verdict = Persisted | Failed(failure: Failure) | Cancelled

  datatype Checked = Checked(state: State, verdict: Verdict)

  function Capture(s: State): Revision {
    Revision(|s.captured|, s.observed)
  }

  function Offset(s: State): nat {
    if s.revision.Some? then s.revision.value.count else 0
  }

  function Grown(s: State, members: seq<Member>, observed: bool): State {
    s.(captured := s.captured + members, observed := s.observed || observed)
  }

  /** `snapshot_since` gives nothing without a root or past the end of the capture. */
  predicate CanStart(s: State) {
    s.root && Offset(s) <= |s.captured|
  }

  function DeltaEnd(s: State): nat {
    if Offset(s) + DELTA_LIMIT <= |s.captured| then Offset(s) + DELTA_LIMIT else |s.captured|
  }

  /** `start_ownership` */
  function Started(s: State, stage: Stage): State
    requires CanStart(s)
  {
    s.(pending := Some(Pending(Revision(DeltaEnd(s), s.observed), stage)),
       log := s.log + [Write(Offset(s), s.captured[Offset(s)..DeltaEnd(s)], stage, InFlight)])
  }

  function Unavailable(stage: Stage): Failure {
    Failure(stage, "process root identity is unavailable")
  }

  function Marked(log: seq<Write>, status: Status): seq<Write> {
    if log == [] then log else log[..|log| - 1] + [log[|log| - 1].(status := status)]
  }

  /** `finish_ownership`: success records the revision, the first failure is kept. */
  function Finished(s: State, ok: bool, cause: string): State {
    if s.pending.None? then s
    else if ok then
      s.(pending := None, revision := Some(s.pending.value.revision), log := Marked(s.log, Acknowledged))
    else
      s.(pending := None,
         failure := if s.failure.Some? then s.failure else Some(Failure(s.pending.value.stage, cause)),
         log := Marked(s.log, Refused(cause)))
  }

  /** `install_ownership_sink` drops whatever the previous sink had started. */
  function Installed(s: State): State {
    s.(sink := true, revision := None, pending := None, failure := None, log := [])
  }

  /** The outer loop of `checkpoint_ownership_ready`. */
  function CheckLoop(s: State, stage: Stage, inherited: bool, inputs: seq<Input>): Checked
    decreases |inputs|, 1
  {
    if s.failure.Some? then Checked(s.(failure := None), Failed(s.failure.value))
    else if inputs != [] && inputs[0].ObserveFails? then Checked(s, Failed(Failure(Observation, inputs[0].cause)))
    else if s.pending.Some? then Await(s, stage, inherited, inputs)
    else if !s.sink || s.revision == Some(Capture(s)) then Checked(s, Persisted)
    else if !CanStart(s) then Checked(s, Failed(Unavailable(stage)))
    else Await(Started(s, stage), stage, inherited, inputs)
  }

  /** The inner loop: poll the write, and observe at every tick. */
  function Await(s: State, stage: Stage, inherited: bool, inputs: seq<Input>): Checked
    decreases |inputs|, 0
  {
    if inputs == [] then Checked(s, Cancelled) else
    match inputs[0]
    case Resolve(ok, cause) =>
      var f := Finished(s, ok, cause);
      CheckLoop(if inherited then f.(failure := None) else f, stage, false, inputs[1..])
    case Grow(members, observed) => Await(Grown(s, members, observed), stage, inherited, inputs[1..])
    case ObserveFails(cause) => Checked(s, Failed(Failure(Observation, cause)))
  }

  /** `checkpoint_ownership_ready` */
  function Checkpoint(s: State, stage: Stage, inputs: seq<Input>): Checked {
    if stage.Final? then CheckLoop(s.(failure := None), stage, s.pending.Some?, inputs)
    else CheckLoop(s, stage, false, inputs)
  }

  /** The head of the `observing` loop: start persisting a new capture without waiting for it. */
  function Launch(s: State): State {
    if s.pending.None? && s.failure.None? && s.sink && s.revision != Some(Capture(s))
    then if CanStart(s) then Started(s, Streaming) else s.(failure := Some(Unavailable(Streaming)))
    else s
  }

  function Observed(s: State, input: Input): State {
    match input
    case Resolve(ok, cause) => Finished(s, ok, cause)
    case Grow(members, observed) => Grown(s, members, observed)
    case ObserveFails(cause) =>
      if s.failure.None? then s.(failure := Some(Failure(Observation, cause))) else s
  }

  /** `observing` */
  function Observing(s: State, inputs: seq<Input>): State
    decreases |inputs|
  {
    if inputs == [] then Launch(s) else Observing(Observed(Launch(s), inputs[0]), inputs[1..])
  }

  datatype Call =
    | Install
    | Capturing(members: seq<Member>, observed: bool)
    | CheckpointCall(stage: Stage, inputs: seq<Input>)
    | ObservingCall(inputs: seq<Input>)

  function Perform(s: State, call: Call): State {
    match call
    case Install => Installed(s)
    case Capturing(members, observed) => Grown(s, members, observed)
    case CheckpointCall(stage, inputs) => Checkpoint(s, stage, inputs).state
    case ObservingCall(inputs) => Observing(s, inputs)
  }

  function Performed(s: State, calls: seq<Call>): State
    decreases |calls|
  {
    if calls == [] then s else Performed(Perform(s, calls[0]), calls[1..])
  }

  function Spawned(root: bool, captured: seq<Member>, observed: bool): State {
    State(root, captured, observed, false, None, None, None, [])
  }

  // ----- What every call keeps -----

  /** The members of the acknowledged writes, in the order they were started. */
  function Covered(log: seq<Write>): seq<Member>
    decreases |log|
  {
    if log == [] then [] else
    var last := log[|log| - 1];
    Covered(log[..|log| - 1]) + if last.status.Acknowledged? then last.members else []
  }

  /** Only the last write of the log can be in flight, and it is exactly when one is pending. */
  ghost predicate OneInFlight(s: State) {
    && (forall i :: 0 <= i < |s.log| - 1 ==> !s.log[i].status.InFlight?)
    && (s.pending.Some? <==> s.log != [] && s.log[|s.log| - 1].status.InFlight?)
  }

  /** The write in flight carries the slice from the persisted offset to the revision it would record. */
  ghost predicate PendingContinues(s: State) {
    s.pending.Some? && s.log != [] ==>
      var w := s.log[|s.log| - 1];
      && w.start == Offset(s)
      && w.start <= s.pending.value.revision.count <= |s.captured|
      && w.members == s.captured[w.start..s.pending.value.revision.count]
      && w.stage == s.pending.value.stage
  }

  ghost predicate Inv(s: State) {
    && OneInFlight(s)
    && PendingContinues(s)
    && Offset(s) <= |s.captured|
    && Covered(s.log) == s.captured[..Offset(s)]
  }

  lemma CoveredAppend(log: seq<Write>, w: Write)
    ensures Covered(log + [w]) == Covered(log) + if w.status.Acknowledged? then w.members else []
  {
    TakeBeforeLast(log, w);
  }

  lemma StartKeepsInv(s: State, stage: Stage)
    requires Inv(s) && s.pending.None? && CanStart(s)
    ensures Inv(Started(s, stage))
  {
    CoveredAppend(s.log, Started(s, stage).log[|s.log|]);
  }

  lemma MarkedCovers(log: seq<Write>, status: Status)
    requires log != [] && log[|log| - 1].status.InFlight?
    ensures Covered(Marked(log, status)) == Covered(log) + if status.Acknowledged? then log[|log| - 1].members else []
  {
    var n := |log| - 1;
    SplitLast(log);
    CoveredAppend(log[..n], log[n]);
    CoveredAppend(log[..n], log[n].(status := status));
  }

  lemma FinishKeepsInv(s: State, ok: bool, cause: string)
    requires Inv(s)
    ensures Inv(Finished(s, ok, cause))
  {
    if s.pending.Some? {
      MarkedCovers(s.log, if ok then Acknowledged else Refused(cause));
      var w, e := s.log[|s.log| - 1], s.pending.value.revision.count;
      SliceJoin(s.captured, w.start, e);
      assert OneInFlight(Finished(s, ok, cause));
    }
  }

  lemma GrowKeepsInv(s: State, members: seq<Member>, observed: bool)
    requires Inv(s)
    ensures Inv(Grown(s, members, observed))
  {
  }

  lemma {:induction false} CheckLoopKeepsInv(s: State, stage: Stage, inherited: bool, inputs: seq<Input>)
    requires Inv(s)
    ensures Inv(CheckLoop(s, stage, inherited, inputs).state)
    decreases |inputs|, 1
  {
    if s.failure.None? && !(inputs != [] && inputs[0].ObserveFails?) {
      if s.pending.Some? {
        AwaitKeepsInv(s, stage, inherited, inputs);
      } else if s.sink && s.revision != Some(Capture(s)) && CanStart(s) {
        StartKeepsInv(s, stage);
        AwaitKeepsInv(Started(s, stage), stage, inherited, inputs);
      }
    }
  }

  lemma {:induction false} AwaitKeepsInv(s: State, stage: Stage, inherited: bool, inputs: seq<Input>)
    requires Inv(s)
    ensures Inv(Await(s, stage, inherited, inputs).state)
    decreases |inputs|, 0
  {
    if inputs != [] {
      match inputs[0]
      case Resolve(ok, cause) =>
        FinishKeepsInv(s, ok, cause);
        var f := Finished(s, ok, cause);
        CheckLoopKeepsInv(if inherited then f.(failure := None) else f, stage, false, inputs[1..]);
      case Grow(members, observed) =>
        GrowKeepsInv(s, members, observed);
        AwaitKeepsInv(Grown(s, members, observed), stage, inherited, inputs[1..]);
      case ObserveFails(_) =>
    }
  }

  lemma LaunchKeepsInv(s: State)
    requires Inv(s)
    ensures Inv(Launch(s))
  {
    if s.pending.None? && CanStart(s) {
      StartKeepsInv(s, Streaming);
    }
  }

  lemma ObservedKeepsInv(s: State, input: Input)
    requires Inv(s)
    ensures Inv(Observed(s, input))
  {
    match input
    case Resolve(ok, cause) => FinishKeepsInv(s, ok, cause);
    case Grow(members, observed) => GrowKeepsInv(s, members, observed);
    case ObserveFails(_) =>
  }

  lemma {:induction false} ObservingKeepsInv(s: State, inputs: seq<Input>)
    requires Inv(s)
    ensures Inv(Observing(s, inputs))
    decreases |inputs|
  {
    LaunchKeepsInv(s);
    if inputs != [] {
      ObservedKeepsInv(Launch(s), inputs[0]);
      ObservingKeepsInv(Observed(Launch(s), inputs[0]), inputs[1..]);
    }
  }

  lemma {:induction false} PerformedKeepsInv(s: State, calls: seq<Call>)
    requires Inv(s)
    ensures Inv(Performed(s, calls))
    decreases |calls|
  {
    if calls != [] {
      match calls[0] {
        case Install =>
        case Capturing(members, observed) => GrowKeepsInv(s, members, observed);
        case CheckpointCall(stage, inputs) =>
          var start := if stage.Final? then s.(failure := None) else s;
          CheckLoopKeepsInv(start, stage, stage.Final? && s.pending.Some?, inputs);
        case ObservingCall(inputs) => ObservingKeepsInv(s, inputs);
      }
      PerformedKeepsInv(Perform(s, calls[0]), calls[1..]);
    }
  }

  /**
   Over every sequence of installs, captures, checkpoints (cancelled or not) and observed work:
   at most one write is in flight, and the members of the acknowledged writes, joined in the
   order they were started, are exactly the captured prefix recorded as persisted. A refused
   write is in the log and not in that prefix, so it advances nothing.
   */
  lemma PersistenceIsGapFree(root: bool, captured: seq<Member>, observed: bool, calls: seq<Call>)
    ensures var s := Performed(Spawned(root, captured, observed), calls);
      && OneInFlight(s)
      && Offset(s) <= |s.captured|
      && Covered(s.log) == s.captured[..Offset(s)]
      && (s.pending.Some? ==> s.log[|s.log| - 1].start == Offset(s))
  {
    PerformedKeepsInv(Spawned(root, captured, observed), calls);
  }

  // ----- What a checkpoint's answer means -----

  lemma {:induction false} PersistedMeansCurrent(s: State, stage: Stage, inherited: bool, inputs: seq<Input>)
    ensures var c := CheckLoop(s, stage, inherited, inputs);
      c.verdict.Persisted? ==> c.state.pending.None? && (!c.state.sink || c.state.revision == Some(Capture(c.state)))
    decreases |inputs|, 1
  {
    if s.failure.None? && !(inputs != [] && inputs[0].ObserveFails?) {
      if s.pending.Some? {
        AwaitedMeansCurrent(s, stage, inherited, inputs);
      } else if s.sink && s.revision != Some(Capture(s)) && CanStart(s) {
        AwaitedMeansCurrent(Started(s, stage), stage, inherited, inputs);
      }
    }
  }

  lemma {:induction false} AwaitedMeansCurrent(s: State, stage: Stage, inherited: bool, inputs: seq<Input>)
    ensures var c := Await(s, stage, inherited, inputs);
      c.verdict.Persisted? ==> c.state.pending.None? && (!c.state.sink || c.state.revision == Some(Capture(c.state)))
    decreases |inputs|, 0
  {
    if inputs != [] {
      match inputs[0]
      case Resolve(ok, cause) =>
        var f := Finished(s, ok, cause);
        PersistedMeansCurrent(if inherited then f.(failure := None) else f, stage, false, inputs[1..]);
      case Grow(members, observed) => AwaitedMeansCurrent(Grown(s, members, observed), stage, inherited, inputs[1..]);
      case ObserveFails(_) =>
    }
  }

  /** A checkpoint that succeeds leaves everything captured so far acknowledged. */
  lemma SuccessfulCheckpointIsComplete(s: State, stage: Stage, inputs: seq<Input>)
    requires Inv(s)
    ensures var c := Checkpoint(s, stage, inputs);
      c.verdict.Persisted? && c.state.sink ==>
        c.state.revision == Some(Capture(c.state)) && Covered(c.state.log) == c.state.captured
  {
    var s1 := if stage.Final? then s.(failure := None) else s;
    var inherited := stage.Final? && s.pending.Some?;
    PersistedMeansCurrent(s1, stage, inherited, inputs);
    CheckLoopKeepsInv(s1, stage, inherited, inputs);
    var t := CheckLoop(s1, stage, inherited, inputs).state;
    assert t.captured[..|t.captured|] == t.captured;
  }

  /** The last write is not one of the first `n`, was refused, and is the one this failure is about. */
  ghost predicate BlamesOwnWrite(log: seq<Write>, n: nat, failure: Failure) {
    |log| > n && log[|log| - 1].status == Refused(failure.cause) && log[|log| - 1].stage == failure.stage
  }

  /** Why a checkpoint may fail: observation, a missing root, or the last write, which is its own. */
  ghost predicate OwnFault(c: Checked, n: nat) {
    c.verdict.Failed? ==>
      || c.verdict.failure.stage.Observation?
      || !c.state.root
      || Offset(c.state) > |c.state.captured|
      || BlamesOwnWrite(c.state.log, n, c.verdict.failure)
  }

  /** `n` writes are older than the call; the one in flight is one of them exactly when inherited. */
  ghost predicate Owns(s: State, inherited: bool, n: nat) {
    && n <= |s.log|
    && (s.pending.Some? ==>
          s.log != [] && (inherited <==> |s.log| == n) && s.log[|s.log| - 1].stage == s.pending.value.stage)
    && (s.failure.Some? ==> BlamesOwnWrite(s.log, n, s.failure.value))
  }

  lemma {:induction false} CheckLoopOwnFault(s: State, stage: Stage, inherited: bool, inputs: seq<Input>, n: nat)
    requires Owns(s, inherited, n) && (s.pending.None? ==> !inherited)
    ensures OwnFault(CheckLoop(s, stage, inherited, inputs), n)
    decreases |inputs|, 1
  {
    if s.failure.None? && !(inputs != [] && inputs[0].ObserveFails?) {
      if s.pending.Some? {
        AwaitOwnFault(s, stage, inherited, inputs, n);
      } else if s.sink && s.revision != Some(Capture(s)) && CanStart(s) {
        AwaitOwnFault(Started(s, stage), stage, inherited, inputs, n);
      }
    }
  }

  lemma {:induction false} AwaitOwnFault(s: State, stage: Stage, inherited: bool, inputs: seq<Input>, n: nat)
    requires Owns(s, inherited, n) && s.failure.None? && s.pending.Some?
    ensures OwnFault(Await(s, stage, inherited, inputs), n)
    decreases |inputs|, 0
  {
    if inputs != [] {
      match inputs[0]
      case Resolve(ok, cause) =>
        var f := Finished(s, ok, cause);
        var g := if inherited then f.(failure := None) else f;
        if !inherited && !ok {
          assert g.log[|g.log| - 1].status == Refused(cause);
        }
        CheckLoopOwnFault(g, stage, false, inputs[1..], n);
      case Grow(members, observed) => AwaitOwnFault(Grown(s, members, observed), stage, inherited, inputs[1..], n);
      case ObserveFails(_) =>
    }
  }

  /**
   A final checkpoint never fails because of a write started before it, whether that write
   had already failed, or was still in flight and failed while the checkpoint waited: with a
   root and working observation, what it reports is the refusal of the last write, its own.
   */
  lemma FinalCheckpointJudgesItself(s: State, inputs: seq<Input>)
    requires Inv(s)
    ensures var c := Checkpoint(s, Final, inputs);
      c.verdict.Failed? && !c.verdict.failure.stage.Observation? && c.state.root ==>
        BlamesOwnWrite(c.state.log, |s.log|, c.verdict.failure)
  {
    CheckLoopOwnFault(s.(failure := None), Final, s.pending.Some?, inputs, |s.log|);
    CheckLoopKeepsInv(s.(failure := None), Final, s.pending.Some?, inputs);
  }

  /** The writes that were over before a call. */
  function Settled(s: State): nat {
    if s.pending.Some? && s.log != [] then |s.log| - 1 else |s.log|
  }

  /**
   A failure stored earlier is reported by the next checkpoint that is not final, and only
   once: what any checkpoint after that reports is a write that was not over by then.
   */
  lemma StoredFailureIsReportedOnce(s: State, stage: Stage, inputs: seq<Input>, again: Stage, more: seq<Input>)
    requires Inv(s) && s.failure.Some? && !stage.Final?
    ensures var first := Checkpoint(s, stage, inputs);
      var second := Checkpoint(first.state, again, more);
      && first == Checked(s.(failure := None), Failed(s.failure.value))
      && (second.verdict.Failed? && !second.verdict.failure.stage.Observation? && second.state.root ==>
            BlamesOwnWrite(second.state.log, Settled(s), second.verdict.failure))
  {
    var cleared := s.(failure := None);
    assert Checkpoint(s, stage, inputs).state == cleared;
    var inherited := again.Final? && s.pending.Some?;
    CheckLoopOwnFault(cleared, again, inherited, more, if inherited then |s.log| else Settled(s));
    CheckLoopKeepsInv(cleared, again, inherited, more);
  }

  // ----- Bounded deltas still get there -----

  function Accepted(n: nat): (inputs: seq<Input>)
    ensures |inputs| == n && forall i :: 0 <= i < n ==> inputs[i] == Resolve(true, "")
  {
    seq(n, _ => Resolve(true, ""))
  }

  /** With every write accepted, one write per started delta is enough. */
  lemma {:induction false} CheckpointConverges(s: State, stage: Stage, n: nat)
    requires Inv(s) && s.root && s.sink && s.failure.None? && s.pending.None?
    requires |s.captured| - Offset(s) < n * DELTA_LIMIT
    ensures Checkpoint(s, stage, Accepted(n)).verdict.Persisted?
    decreases n
  {
    assert s.(failure := None) == s;
    if s.revision != Some(Capture(s)) {
      var started := Started(s, stage);
      var f := Finished(started, true, "");
      StartKeepsInv(s, stage);
      FinishKeepsInv(started, true, "");
      assert Accepted(n)[1..] == Accepted(n - 1);
      assert Await(started, stage, false, Accepted(n)) == CheckLoop(f, stage, false, Accepted(n - 1));
      if |s.captured| - Offset(s) < DELTA_LIMIT {
        assert f.revision == Some(Capture(f));
      } else {
        CheckpointConverges(f, stage, n - 1);
        assert f.(failure := None) == f;
      }
    }
  }

  /** The ownership fields of the process object; `log` is their history. */
  class Recorder {
    const root: bool
    var captured: seq<Member>
    var observed: bool
    var sink: bool
    var revision: Option<Revision>
    var pending: Option<Pending>
    var failure: Option<Failure>
    ghost var log: seq<Write>

    constructor (root: bool, captured: seq<Member>, observed: bool)
      ensures Snapshot() == Spawned(root, captured, observed)
    {
      this.root, this.captured, this.observed := root, captured, observed;
      sink, revision, pending, failure, log := false, None, None, None, [];
    }

    ghost function Snapshot(): State
      reads this
    {
      State(root, captured, observed, sink, revision, pending, failure, log)
    }

    method InstallSink()
      modifies this
      ensures Snapshot() == Installed(old(Snapshot()))
    {
      sink, revision, pending, failure, log := true, None, None, None, [];
    }

    method Refresh(members: seq<Member>, seen: bool)
      modifies this`captured, this`observed
      ensures Snapshot() == Grown(old(Snapshot()), members, seen)
    {
      captured, observed := captured + members, observed || seen;
    }

    method Start(stage: Stage) returns (error: Option<Failure>)
      modifies this`pending, this`log
      ensures error.None? <==> CanStart(old(Snapshot()))
      ensures error.None? ==> Snapshot() == Started(old(Snapshot()), stage)
      ensures error.Some? ==> Snapshot() == old(Snapshot()) && error.value == Unavailable(stage)
    {
      var after := if revision.Some? then revision.value.count else 0;
      if !root || after > |captured| {
        return Some(Unavailable(stage));
      }
      var end := if after + DELTA_LIMIT <= |captured| then after + DELTA_LIMIT else |captured|;
      pending := Some(Pending(Revision(end, observed), stage));
      log := log + [Write(after, captured[after..end], stage, InFlight)];
      error := None;
    }

    method Finish(ok: bool, cause: string)
      modifies this`pending, this`revision, this`failure, this`log
      ensures Snapshot() == Finished(old(Snapshot()), ok, cause)
    {
      if pending.None? {
        return;
      }
      var done := pending.value;
      pending := None;
      if ok {
        revision := Some(done.revision);
        log := Marked(log, Acknowledged);
      } else {
        if failure.None? {
          failure := Some(Failure.Failure(done.stage, cause));
        }
        log := Marked(log, Refused(cause));
      }
    }

    method CheckpointReady(stage: Stage, inputs: seq<Input>) returns (verdict: Verdict)
      modifies this
      ensures Checked(Snapshot(), verdict) == Checkpoint(old(Snapshot()), stage, inputs)
    {
      var inherited := false;
      if stage.Final? {
        failure := None;
        inherited := pending.Some?;
      }
      var rest := inputs;
      while true
        invariant CheckLoop(Snapshot(), stage, inherited, rest) == Checkpoint(old(Snapshot()), stage, inputs)
        decreases |rest|
      {
        ghost var unread := rest;
        if failure.Some? {
          var error := failure.value;
          failure := None;
          return Failed(error);
        }
        if rest != [] && rest[0].ObserveFails? {
          return Failed(Failure.Failure(Observation, rest[0].cause));
        }
        if pending.None? {
          if !sink || revision == Some(Revision(|captured|, observed)) {
            return Persisted;
          }
          var error := Start(stage);
          if error.Some? {
            return Failed(error.value);
          }
        }
        var resolved := false;
        while !resolved
          invariant |rest| <= |unread| && (resolved ==> |rest| < |unread|)
          invariant !resolved ==>
            Await(Snapshot(), stage, inherited, rest) == Checkpoint(old(Snapshot()), stage, inputs)
          invariant resolved ==>
            CheckLoop(Snapshot(), stage, inherited, rest) == Checkpoint(old(Snapshot()), stage, inputs)
          decreases |rest|, !resolved
        {
          if rest == [] {
            return Cancelled;
          }
          match rest[0] {
            case Resolve(ok, cause) =>
              Finish(ok, cause);
              if inherited {
                inherited := false;
                failure := None;
              }
              resolved := true;
            case Grow(members, seen) => Refresh(members, seen);
            case ObserveFails(cause) => return Failed(Failure.Failure(Observation, cause));
          }
          rest := rest[1..];
        }
      }
    }

    method ObserveWork(inputs: seq<Input>)
      modifies this
      ensures Snapshot() == Observing(old(Snapshot()), inputs)
    {
      var rest := inputs;
      while true
        invariant Observing(Snapshot(), rest) == Observing(old(Snapshot()), inputs)
        decreases |rest|
      {
        if pending.None? && failure.None? && sink && revision != Some(Revision(|captured|, observed)) {
          var error := Start(Streaming);
          if error.Some? {
            failure := error;
          }
        }
        if rest == [] {
          return;
        }
        match rest[0] {
          case Resolve(ok, cause) => Finish(ok, cause);
          case Grow(members, seen) => Refresh(members, seen);
          case ObserveFails(cause) =>
            if failure.None? {
              failure := Some(Failure.Failure(Observation, cause));
            }
        }
        rest := rest[1..];
      }
    }
  }
}

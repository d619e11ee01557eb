/** What becomes of a write's resolution: told by the script, the log and the answers of checkpoints. */
module OwnershipReports {
  import opened Common
  import opened Ownership

  // ----- A waiting checkpoint goes on where it stopped -----

  lemma {:induction false} CheckLoopResumes(
    s: State, stage: Stage, inherited: bool, early: seq<Input>, ok: bool, cause: string, late: seq<Input>, n: nat)
    requires CheckLoop(s, stage, inherited, early).verdict.Cancelled?
    requires Owns(s, inherited, n) && (s.pending.None? ==> !inherited) && s.failure.None?
    ensures var w := CheckLoop(s, stage, inherited, early).state;
      var still := inherited && |w.log| == n;
      && w.pending.Some? && w.failure.None? && Owns(w, still, n)
      && CheckLoop(s, stage, inherited, early + [Resolve(ok, cause)] + late)
         == Await(w, stage, still, [Resolve(ok, cause)] + late)
    decreases |early|, 1
  {
    var inputs := early + [Resolve(ok, cause)] + late;
    assert early != [] ==> inputs[0] == early[0];
    if s.pending.Some? {
      AwaitResumes(s, stage, inherited, early, ok, cause, late, n);
    } else {
      AwaitResumes(Started(s, stage), stage, inherited, early, ok, cause, late, n);
    }
  }

  lemma {:induction false} AwaitResumes(
    s: State, stage: Stage, inherited: bool, early: seq<Input>, ok: bool, cause: string, late: seq<Input>, n: nat)
    requires Await(s, stage, inherited, early).verdict.Cancelled?
    requires Owns(s, inherited, n) && s.failure.None? && s.pending.Some?
    ensures var w := Await(s, stage, inherited, early).state;
      var still := inherited && |w.log| == n;
      && w.pending.Some? && w.failure.None? && Owns(w, still, n)
      && Await(s, stage, inherited, early + [Resolve(ok, cause)] + late)
         == Await(w, stage, still, [Resolve(ok, cause)] + late)
    decreases |early|, 0
  {
    var inputs := early + [Resolve(ok, cause)] + late;
    if early == [] {
      assert inputs == [Resolve(ok, cause)] + late;
    } else {
      assert inputs[1..] == early[1..] + [Resolve(ok, cause)] + late && inputs[0] == early[0];
      match early[0]
      case Resolve(done, why) =>
        var f := Finished(s, done, why);
        var g := if inherited then f.(failure := None) else f;
        CheckLoopResumes(g, stage, false, early[1..], ok, cause, late, n);
      case Grow(members, observed) =>
        AwaitResumes(Grown(s, members, observed), stage, inherited, early[1..], ok, cause, late, n);
    }
  }

  /** This state once its write in flight was resolved this way. */
  function Resolved(s: State, status: Status): State
    requires s.log != []
  {
    var last := |s.log| - 1;
    s.(pending := None, log := s.log[..last] + [s.log[last].(status := status)])
  }

  /** The write a final checkpoint waits for was in flight before it began. */
  ghost predicate Inherited(s: State, stage: Stage, w: State) {
    stage.Final? && s.pending.Some? && |w.log| == |s.log|
  }

  /** Any checkpoint still waiting after `early` is waiting for the last write of its log. */
  lemma CheckpointResumes(s: State, stage: Stage, early: seq<Input>, ok: bool, cause: string, late: seq<Input>)
    requires Inv(s) && Checkpoint(s, stage, early).verdict.Cancelled?
    ensures var w := Checkpoint(s, stage, early).state;
      && Inv(w) && w.pending.Some? && w.failure.None? && w.log != []
      && w.log[|w.log| - 1].status.InFlight? && w.log[|w.log| - 1].stage == w.pending.value.stage
      && Checkpoint(s, stage, early + [Resolve(ok, cause)] + late)
         == Await(w, stage, Inherited(s, stage, w), [Resolve(ok, cause)] + late)
  {
    var s1 := if stage.Final? then s.(failure := None) else s;
    var inherited := stage.Final? && s.pending.Some?;
    var n := if s.pending.Some? && !inherited then |s.log| - 1 else |s.log|;
    CheckLoopKeepsInv(s1, stage, inherited, early);
    CheckLoopResumes(s1, stage, inherited, early, ok, cause, late, n);
  }

  /**
   A write refused while a checkpoint waits for it ends that checkpoint, with the write's stage and
   the refusal's cause, and nothing is recorded as persisted. Only a final checkpoint that found the
   write in flight goes on as if it had never been started.
   */
  lemma RefusalEndsCheckpoint(s: State, stage: Stage, early: seq<Input>, cause: string, late: seq<Input>)
    requires Inv(s) && Checkpoint(s, stage, early).verdict.Cancelled?
    ensures var w := Checkpoint(s, stage, early).state;
      var c := Checkpoint(s, stage, early + [Resolve(false, cause)] + late);
      && w.log != []
      && c == if Inherited(s, stage, w) then Checkpoint(Resolved(w, Refused(cause)), Final, late)
              else Checked(Resolved(w, Refused(cause)), Failed(Failure(w.log[|w.log| - 1].stage, cause)))
  {
    CheckpointResumes(s, stage, early, false, cause, late);
    var w := Checkpoint(s, stage, early).state;
    assert ([Resolve(false, cause)] + late)[1..] == late;
  }

  /** A write accepted while a checkpoint waits for it is recorded, and the checkpoint goes on from there. */
  lemma AcceptanceAdvancesCheckpoint(s: State, stage: Stage, early: seq<Input>, cause: string, late: seq<Input>)
    requires Inv(s) && Checkpoint(s, stage, early).verdict.Cancelled?
    ensures var w := Checkpoint(s, stage, early).state;
      && w.log != [] && w.pending.Some?
      && var recorded := Resolved(w, Acknowledged).(revision := Some(w.pending.value.revision));
         Checkpoint(s, stage, early + [Resolve(true, cause)] + late) == Checkpoint(recorded, stage, late)
  {
    CheckpointResumes(s, stage, early, true, cause, late);
    assert ([Resolve(true, cause)] + late)[1..] == late;
  }

  /**
   A checkpoint with nothing stored and no write in flight: with no sink or nothing new it succeeds
   at once; without a root it fails and says so; otherwise it starts one write, of at most 512
   members from the persisted offset on, under its own stage, and waits for it.
   */
  lemma CheckpointStartsOneWrite(s: State, stage: Stage)
    requires Inv(s) && s.failure.None? && s.pending.None?
    ensures var c := Checkpoint(s, stage, []);
      var now := Revision(|s.captured|, s.observed);
      if !s.sink || s.revision == Some(now) then c == Checked(s, Persisted)
      else if !s.root then c == Checked(s, Failed(Failure(stage, "process root identity is unavailable")))
      else
        var start := if s.revision.Some? then s.revision.value.count else 0;
        var end := if |s.captured| < start + 512 then |s.captured| else start + 512;
        && start <= end <= |s.captured|
        && c == Checked(s.(pending := Some(Pending(Revision(end, s.observed), stage)),
                           log := s.log + [Write(start, s.captured[start..end], stage, InFlight)]), Cancelled)
  {
    assert s.(failure := None) == s;
  }

  /**
   A newly installed sink owes nothing to the one before: whatever was stored, in flight or
   persisted, enough accepted writes hand it everything captured.
   */
  lemma InstalledSinkGetsEverything(s: State, stage: Stage, n: nat)
    requires s.root && |s.captured| < n * DELTA_LIMIT
    ensures var c := Checkpoint(Installed(s), stage, Accepted(n));
      c.verdict.Persisted? && c.state.sink && c.state.captured == s.captured && Covered(c.state.log) == s.captured
  {
    CheckpointConverges(Installed(s), stage, n);
    SuccessfulCheckpointIsComplete(Installed(s), stage, Accepted(n));
    var t := Installed(s);
    CheckLoopKeepsCapture(t, stage, false, Accepted(n));
    assert t.(failure := None) == t;
  }

  ghost predicate OnlyResolves(inputs: seq<Input>) {
    forall i :: 0 <= i < |inputs| ==> inputs[i].Resolve?
  }

  /** Without new captures a checkpoint changes neither the capture nor the sink. */
  lemma {:induction false} CheckLoopKeepsCapture(s: State, stage: Stage, inherited: bool, inputs: seq<Input>)
    requires OnlyResolves(inputs)
    ensures var t := CheckLoop(s, stage, inherited, inputs).state; t.captured == s.captured && t.sink == s.sink
    decreases |inputs|, 1
  {
    if s.failure.None? {
      if s.pending.Some? {
        AwaitKeepsCapture(s, stage, inherited, inputs);
      } else if CanStart(s) {
        AwaitKeepsCapture(Started(s, stage), stage, inherited, inputs);
      }
    }
  }

  lemma {:induction false} AwaitKeepsCapture(s: State, stage: Stage, inherited: bool, inputs: seq<Input>)
    requires OnlyResolves(inputs)
    ensures var t := Await(s, stage, inherited, inputs).state; t.captured == s.captured && t.sink == s.sink
    decreases |inputs|, 0
  {
    if inputs != [] {
      var f := Finished(s, inputs[0].ok, inputs[0].cause);
      CheckLoopKeepsCapture(if inherited then f.(failure := None) else f, stage, false, inputs[1..]);
    }
  }

  // ----- No refusal goes unreported -----

  /** Every refusal from the `n`-th write on is this failure. */
  ghost predicate Reported(log: seq<Write>, n: nat, failure: Option<Failure>) {
    forall i :: n <= i < |log| && log[i].status.Refused? ==> failure == Some(Failure(log[i].stage, log[i].status.cause))
  }

  function ReportOf(verdict: Verdict): Option<Failure> {
    if verdict.Failed? then Some(verdict.failure) else None
  }

  lemma {:induction false} CheckLoopReports(s: State, stage: Stage, inherited: bool, inputs: seq<Input>, n: nat)
    requires Owns(s, inherited, n) && (s.pending.None? ==> !inherited) && Reported(s.log, n, s.failure)
    ensures var c := CheckLoop(s, stage, inherited, inputs); Reported(c.state.log, n, ReportOf(c.verdict))
    decreases |inputs|, 1
  {
    if s.failure.None? && !(inputs != [] && inputs[0].ObserveFails?) {
      if s.pending.Some? {
        AwaitReports(s, stage, inherited, inputs, n);
      } else if s.sink && s.revision != Some(Capture(s)) && CanStart(s) {
        AwaitReports(Started(s, stage), stage, inherited, inputs, n);
      }
    }
  }

  lemma {:induction false} AwaitReports(s: State, stage: Stage, inherited: bool, inputs: seq<Input>, n: nat)
    requires Owns(s, inherited, n) && s.failure.None? && s.pending.Some? && Reported(s.log, n, None)
    ensures var c := Await(s, stage, inherited, inputs); Reported(c.state.log, n, ReportOf(c.verdict))
    decreases |inputs|, 0
  {
    if inputs != [] {
      match inputs[0]
      case Resolve(ok, cause) =>
        var f := Finished(s, ok, cause);
        var g := if inherited then f.(failure := None) else f;
        CheckLoopReports(g, stage, false, inputs[1..], n);
      case Grow(members, observed) => AwaitReports(Grown(s, members, observed), stage, inherited, inputs[1..], n);
      case ObserveFails(_) =>
    }
  }

  /**
   Whatever its script: a checkpoint with nothing stored that ends with one of its own writes
   refused in the log has failed with that write's stage and cause.
   */
  lemma RefusedWriteIsReported(s: State, stage: Stage, inputs: seq<Input>, i: nat)
    requires Inv(s) && s.failure.None?
    requires Settled(s) <= i && (stage.Final? ==> |s.log| <= i)
    ensures var c := Checkpoint(s, stage, inputs);
      i < |c.state.log| && c.state.log[i].status.Refused? ==>
        c.verdict == Failed(Failure(c.state.log[i].stage, c.state.log[i].status.cause))
  {
    var inherited := stage.Final? && s.pending.Some?;
    var n := if stage.Final? then |s.log| else Settled(s);
    assert s.(failure := None) == s;
    CheckLoopReports(s, stage, inherited, inputs, n);
  }

  // ----- Observing -----

  lemma {:induction false} ObservingResumes(s: State, early: seq<Input>, input: Input, late: seq<Input>)
    ensures Observing(s, early + [input] + late) == Observing(Observed(Observing(s, early), input), late)
    decreases |early|
  {
    var inputs := early + [input] + late;
    if early == [] {
      assert inputs[0] == input && inputs[1..] == late;
    } else {
      assert inputs[0] == early[0] && inputs[1..] == early[1..] + [input] + late;
      ObservingResumes(Observed(Launch(s), early[0]), early[1..], input, late);
    }
  }

  lemma {:induction false} FirstFailureStays(s: State, inputs: seq<Input>)
    requires s.failure.Some?
    ensures Observing(s, inputs).failure == s.failure
    decreases |inputs|
  {
    if inputs != [] {
      FirstFailureStays(Observed(Launch(s), inputs[0]), inputs[1..]);
    }
  }

  /**
   The first thing to go wrong during observed work, a refused write or a failed observation,
   is what the next checkpoint that is not final reports, whatever happened in between.
   */
  lemma FirstFailureIsReported(
    s: State, early: seq<Input>, input: Input, late: seq<Input>, stage: Stage, inputs: seq<Input>)
    requires Inv(s) && Observing(s, early).failure.None? && !stage.Final?
    requires input.ObserveFails? || (input.Resolve? && !input.ok && Observing(s, early).pending.Some?)
    ensures var w := Observing(s, early);
      var o := Observing(s, early + [input] + late);
      && (input.Resolve? ==> w.log != [] && w.log[|w.log| - 1].status.InFlight?)
      && var stored := Failure(if input.Resolve? then w.log[|w.log| - 1].stage else Observation, input.cause);
         && o.failure == Some(stored)
         && Checkpoint(o, stage, inputs).verdict == Failed(stored)
  {
    var w := Observing(s, early);
    ObservingKeepsInv(s, early);
    ObservingResumes(s, early, input, late);
    FirstFailureStays(Observed(w, input), late);
  }

  /** A write accepted during observed work is recorded as persisted. */
  lemma AcceptanceIsRecorded(s: State, early: seq<Input>, cause: string, late: seq<Input>)
    requires Inv(s) && Observing(s, early).pending.Some?
    ensures var w := Observing(s, early);
      && w.log != []
      && var recorded := Resolved(w, Acknowledged).(revision := Some(w.pending.value.revision));
         Observing(s, early + [Resolve(true, cause)] + late) == Observing(recorded, late)
  {
    ObservingKeepsInv(s, early);
    ObservingResumes(s, early, Resolve(true, cause), late);
  }

  /** Observed work starts writing any new capture at once, and stores a missing root as its failure. */
  lemma ObservingStartsWrites(s: State, inputs: seq<Input>)
    ensures var o := Observing(s, inputs);
      o.pending.Some? || o.failure.Some? || !o.sink || o.revision == Some(Revision(|o.captured|, o.observed))
  {
    ObservingIsLaunched(s, inputs);
  }

  lemma {:induction false} ObservingIsLaunched(s: State, inputs: seq<Input>)
    ensures exists before :: Observing(s, inputs) == Launch(before)
    decreases |inputs|
  {
    if inputs == [] {
      assert Observing(s, inputs) == Launch(s);
    } else {
      ObservingIsLaunched(Observed(Launch(s), inputs[0]), inputs[1..]);
    }
  }
}

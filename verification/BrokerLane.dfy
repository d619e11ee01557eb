/**
 The broker's producer lanes: `crates/agent-run-core/src/broker_writer.rs`, with the
 retry helpers it takes from `crates/agent-run-core/src/storage_client.rs`.
 */
module BrokerLane {
  import opened Common

  datatype NotEnqueuedReason =
    | RetentionGate | QueueFull | BytesFull | ProducerFull | ReservedForCritical
    | AdmissionsClosed | Draining | Degraded | DeadlineExpired | DeadlineBeforeStart

  datatype UnknownCause = CommitUncertain | RollbackUncertain | DeadlineDuringExecution | WriterStopped | TransportLost

  datatype RejectCode = StorageUnavailable | OtherCode(name: string)

  datatype Rejection = Rejection(code: RejectCode, durable: bool)

  datatype SubmitResult =
    | Committed(receipt: nat)
    | Rejected(rejection: Rejection)
    | NotEnqueued(reason: NotEnqueuedReason)
    | Unknown(cause: UnknownCause)

  predicate Transient(reason: NotEnqueuedReason) {
    reason in {RetentionGate, QueueFull, BytesFull, ProducerFull, ReservedForCritical, Degraded}
  }

  function Expired(uncertain: Option<UnknownCause>): SubmitResult {
    if uncertain.Some? then Unknown(uncertain.value) else NotEnqueued(DeadlineExpired)
  }

  /**
   One submission of the envelope: the writer's answer, and whether this submission
   ever applies the operation, be it after the answer.
   */
  datatype Attempt = Attempt(answer: SubmitResult, applies: bool)

  datatype Refusals = Refusals(rejection: Option<Rejection>, notEnqueued: Option<NotEnqueuedReason>)

  /** What one answer does: end the operation, or go round again with `uncertain` and the diagnostics updated. */
  datatype Turn = Done(result: SubmitResult) | Again(uncertain: Option<UnknownCause>, last: Refusals)

  function Judge(answer: SubmitResult, uncertain: Option<UnknownCause>, last: Refusals): Turn {
    match answer
    case Committed(_) => Done(answer)
    case Rejected(r) =>
      if r.durable then Done(answer)
      else if r.code.StorageUnavailable? then Again(uncertain, Refusals(Some(r), None))
      else Done(if uncertain.None? then answer else Unknown(uncertain.value))
    case NotEnqueued(reason) =>
      if Transient(reason) then Again(uncertain, Refusals(None, Some(reason)))
      else Done(if uncertain.None? then answer else Unknown(uncertain.value))
    case Unknown(cause) => Again(Some(cause), last)
  }

  datatype Finish = Finish(result: SubmitResult, attempts: nat, last: Refusals)

  /** The retry loop: `attempts` are the answers still to come before the deadline. */
  function Retry(attempts: seq<Attempt>, uncertain: Option<UnknownCause>, last: Refusals): (f: Finish)
    ensures f.attempts <= |attempts|
    decreases |attempts|
  {
    if attempts == [] then Finish(Expired(uncertain), 0, last) else
    match Judge(attempts[0].answer, uncertain, last)
    case Done(result) => Finish(result, 1, last)
    case Again(uncertain', last') =>
      var f := Retry(attempts[1..], uncertain', last');
      f.(attempts := f.attempts + 1)
  }

  const NO_REFUSAL := Refusals(None, None)

  /** `drive` after its envelope was built. */
  function Drive(attempts: seq<Attempt>): Finish {
    Retry(attempts, None, NO_REFUSAL)
  }

  // ----- Honest outcomes -----

  predicate DurablyRejected(answer: SubmitResult) {
    answer.Rejected? && answer.rejection.durable
  }

  predicate Definitive(answer: SubmitResult) {
    answer.Committed? || DurablyRejected(answer)
  }

  ghost predicate AppliedIsAdmitted(attempts: seq<Attempt>) {
    forall i :: 0 <= i < |attempts| && attempts[i].applies ==>
      attempts[i].answer.Committed? || attempts[i].answer.Unknown?
  }

  ghost predicate CommittedIsApplied(attempts: seq<Attempt>) {
    forall k :: 0 <= k < |attempts| && attempts[k].answer.Committed? ==>
      exists i :: 0 <= i <= k && attempts[i].applies
  }

  ghost predicate DurableRejectionHolds(attempts: seq<Attempt>) {
    forall k, i :: 0 <= k < |attempts| && 0 <= i < |attempts| && DurablyRejected(attempts[k].answer) ==>
      !attempts[i].applies
  }

  /**
   What the writer promises about the submissions of one operation identity: it applies
   the operation only where it answers that it did or might have, it says committed only
   of an applied operation, and a durable rejection means no submission is ever applied.
   */
  ghost predicate WriterKeepsWord(attempts: seq<Attempt>) {
    AppliedIsAdmitted(attempts) && CommittedIsApplied(attempts) && DurableRejectionHolds(attempts)
  }

  ghost predicate Applied(attempts: seq<Attempt>) {
    exists i :: 0 <= i < |attempts| && attempts[i].applies
  }

  /** An answer that asks for another attempt. */
  predicate Retryable(answer: SubmitResult) {
    match answer
    case Committed(_) => false
    case Rejected(r) => !r.durable && r.code.StorageUnavailable?
    case NotEnqueued(reason) => reason !in {AdmissionsClosed, Draining, DeadlineExpired, DeadlineBeforeStart}
    case Unknown(_) => true
  }

  /** The cause of the last unknown answer. */
  function LastUnknown(attempts: seq<Attempt>, before: Option<UnknownCause>): Option<UnknownCause>
    decreases |attempts|
  {
    if attempts == [] then before
    else LastUnknown(attempts[1..], if attempts[0].answer.Unknown? then Some(attempts[0].answer.cause) else before)
  }

  /** Every answer before the last asked for another attempt. */
  ghost predicate RetriedThrough(used: seq<Attempt>) {
    forall i :: 0 <= i < |used| - 1 ==> Retryable(used[i].answer)
  }

  /**
   The outcome is the last answer if that is definitive, else the last unknown cause, else the
   permanent refusal the loop stopped at, else the expired deadline.
   */
  ghost predicate Follows(result: SubmitResult, used: seq<Attempt>, before: Option<UnknownCause>) {
    var unknown := LastUnknown(used, before);
    if used != [] && Definitive(used[|used| - 1].answer) then result == used[|used| - 1].answer
    else if unknown.Some? then result == Unknown(unknown.value)
    else if used != [] && !Retryable(used[|used| - 1].answer) then result == used[|used| - 1].answer
    else result == NotEnqueued(DeadlineExpired)
  }

  /** The diagnostics name the last refusal that was retried. */
  function LastRetried(attempts: seq<Attempt>, before: Refusals): Refusals
    decreases |attempts|
  {
    if attempts == [] then before else
    var answer := attempts[|attempts| - 1].answer;
    if !Retryable(answer) || answer.Unknown? then LastRetried(attempts[..|attempts| - 1], before)
    else if answer.Rejected? then Refusals(Some(answer.rejection), None)
    else Refusals(None, Some(answer.reason))
  }

  /**
   Every answer before the last asked for another attempt, a loop that stops with attempts left
   stops at an answer that does not, and the outcome follows from that answer and what was unknown.
   */
  lemma {:induction false} RetryShape(attempts: seq<Attempt>, uncertain: Option<UnknownCause>, last: Refusals)
    ensures var f := Retry(attempts, uncertain, last);
      var used := attempts[..f.attempts];
      && RetriedThrough(used)
      && (f.attempts < |attempts| ==> used != [] && !Retryable(used[|used| - 1].answer))
      && Follows(f.result, used, uncertain)
      && f.last == LastRetried(used, last)
    decreases |attempts|
  {
    if attempts != [] {
      var turn := Judge(attempts[0].answer, uncertain, last);
      JudgedByRetryable(attempts[0], uncertain, last);
      if turn.Again? {
        RetryShape(attempts[1..], turn.uncertain, turn.last);
        var n := Retry(attempts[1..], turn.uncertain, turn.last).attempts;
        assert attempts[..n + 1] == [attempts[0]] + attempts[1..][..n];
        FollowsLater(attempts[0], attempts[1..][..n], Retry(attempts, uncertain, last).result, uncertain);
        RetriedFirst(attempts[0], attempts[1..][..n], last);
      } else {
        assert attempts[..1] == [attempts[0]];
      }
    }
  }

  function Remembered(answer: SubmitResult, before: Option<UnknownCause>): Option<UnknownCause> {
    if answer.Unknown? then Some(answer.cause) else before
  }

  /** One answer: it goes round again exactly when it is retryable, remembering what it must. */
  lemma JudgedByRetryable(first: Attempt, uncertain: Option<UnknownCause>, last: Refusals)
    ensures var turn := Judge(first.answer, uncertain, last);
      && (turn.Again? <==> Retryable(first.answer))
      && (turn.Again? ==>
            turn.uncertain == Remembered(first.answer, uncertain) && turn.last == LastRetried([first], last))
      && (turn.Done? ==> Follows(turn.result, [first], uncertain) && LastRetried([first], last) == last)
  {
    assert [first][1..] == [] && [first][..0] == [];
    if first.answer.NotEnqueued? {
      TransientIsRetryable(first.answer.reason);
    }
    assert LastUnknown([first], uncertain) == Remembered(first.answer, uncertain);
  }

  lemma TransientIsRetryable(reason: NotEnqueuedReason)
    ensures Transient(reason) <==> Retryable(NotEnqueued(reason))
  {
    match reason
    case RetentionGate => case QueueFull => case BytesFull => case ProducerFull => case ReservedForCritical =>
    case AdmissionsClosed => case Draining => case Degraded => case DeadlineExpired => case DeadlineBeforeStart =>
  }

  /** A retryable answer in front changes the outcome only by what it makes unknown. */
  lemma FollowsLater(first: Attempt, rest: seq<Attempt>, result: SubmitResult, before: Option<UnknownCause>)
    requires Retryable(first.answer) && Follows(result, rest, Remembered(first.answer, before))
    ensures Follows(result, [first] + rest, before)
  {
    assert ([first] + rest)[1..] == rest;
  }

  lemma {:induction false} RetriedFirst(first: Attempt, rest: seq<Attempt>, before: Refusals)
    ensures LastRetried([first] + rest, before) == LastRetried(rest, LastRetried([first], before))
    decreases |rest|
  {
    if rest == [] {
      assert [first] + rest == [first];
    } else {
      assert ([first] + rest)[..|rest|] == [first] + rest[..|rest| - 1];
      RetriedFirst(first, rest[..|rest| - 1], before);
    }
  }

  lemma {:induction false} UnknownIsRemembered(attempts: seq<Attempt>, before: Option<UnknownCause>)
    ensures LastUnknown(attempts, before).Some? <==>
      before.Some? || exists i :: 0 <= i < |attempts| && attempts[i].answer.Unknown?
    decreases |attempts|
  {
    if attempts != [] {
      var next := if attempts[0].answer.Unknown? then Some(attempts[0].answer.cause) else before;
      UnknownIsRemembered(attempts[1..], next);
      assert forall i :: 0 < i < |attempts| ==> attempts[i] == attempts[1..][i - 1];
      assert forall i :: 0 <= i < |attempts| - 1 ==> attempts[1..][i] == attempts[i + 1];
    }
  }

  /** Unknown exactly when some attempt was unknown and nothing definitive followed. */
  ghost predicate UnknownIff(result: SubmitResult, used: seq<Attempt>) {
    result.Unknown? <==>
      && (exists i :: 0 <= i < |used| && used[i].answer.Unknown?)
      && (forall i :: 0 <= i < |used| ==> !Definitive(used[i].answer))
  }

  lemma UnknownIsExact(result: SubmitResult, used: seq<Attempt>)
    requires RetriedThrough(used) && Follows(result, used, None)
    ensures UnknownIff(result, used)
  {
    UnknownIsRemembered(used, None);
    if used != [] && !Definitive(used[|used| - 1].answer) {
      assert forall i :: 0 <= i < |used| ==> !Definitive(used[i].answer);
    }
  }

  lemma CommittedIsHonest(result: SubmitResult, used: seq<Attempt>)
    requires CommittedIsApplied(used) && Follows(result, used, None) && result.Committed?
    ensures Applied(used)
  {
    assert used[|used| - 1].answer.Committed?;
  }

  lemma RefusalIsHonest(result: SubmitResult, used: seq<Attempt>)
    requires AppliedIsAdmitted(used) && DurableRejectionHolds(used)
    requires RetriedThrough(used) && Follows(result, used, None) && (result.NotEnqueued? || result.Rejected?)
    ensures !Applied(used)
  {
    UnknownIsRemembered(used, None);
  }

  /**
   For every sequence of answers of a writer that keeps its word, the final outcome is honest
   about the attempts made: committed only if the operation was applied; any refusal, durable
   or not, only if no attempt was ever applied; and unknown exactly when some attempt was
   unknown and nothing definitive followed.
   */
  lemma OutcomeIsHonest(attempts: seq<Attempt>)
    requires WriterKeepsWord(attempts[..Drive(attempts).attempts])
    ensures var f := Drive(attempts);
      var used := attempts[..f.attempts];
      && (f.result.Committed? ==> Applied(used))
      && (f.result.NotEnqueued? || f.result.Rejected? ==> !Applied(used))
      && UnknownIff(f.result, used)
  {
    RetryShape(attempts, None, NO_REFUSAL);
    var f := Drive(attempts);
    UnknownIsExact(f.result, attempts[..f.attempts]);
    if f.result.Committed? {
      CommittedIsHonest(f.result, attempts[..f.attempts]);
    } else if !f.result.Unknown? {
      RefusalIsHonest(f.result, attempts[..f.attempts]);
    }
  }

  // ----- Ordinals over every interleaving of callers -----

  /** An envelope is built once per operation; retries resubmit the identical value. */
  datatype Envelope = Envelope(operation: nat, ordinal: nat, deadline: nat, payload: string)

  datatype Lane = Lane(head: nat, holder: Option<Envelope>)

  datatype Submission = Submission(scope: string, envelope: Envelope)

  /** All lanes of one broker and every submission made, in order. */
  datatype Broker = Broker(lanes: map<string, Lane>, log: seq<Submission>)

  datatype Step =
    | Open(scope: string)
    | Enter(scope: string, operation: nat, deadline: nat, payload: string)
    | Submit(scope: string)
    | Leave(scope: string)

  /**
   `Enter` takes the head lock, allocates the ordinal and builds the envelope; `Leave`
   releases the lock at a final outcome, after a failed build or by cancellation.
   */
  function Apply(b: Broker, step: Step): Broker {
    match step
    case Open(scope) => if scope in b.lanes then b else b.(lanes := b.lanes[scope := Lane(1, None)])
    case Enter(scope, operation, deadline, payload) =>
      if scope in b.lanes && b.lanes[scope].holder.None? then
        var lane := b.lanes[scope];
        b.(lanes := b.lanes[scope := Lane(lane.head + 1, Some(Envelope(operation, lane.head, deadline, payload)))])
      else b
    case Submit(scope) =>
      if scope in b.lanes && b.lanes[scope].holder.Some?
      then b.(log := b.log + [Submission(scope, b.lanes[scope].holder.value)])
      else b
    case Leave(scope) =>
      if scope in b.lanes then b.(lanes := b.lanes[scope := b.lanes[scope].(holder := None)]) else b
  }

  function Run(b: Broker, steps: seq<Step>): Broker
    decreases |steps|
  {
    if steps == [] then b else Run(Apply(b, steps[0]), steps[1..])
  }

  /** Within one lane ordinals never go back, and an ordinal names one envelope. */
  ghost predicate Ordered(log: seq<Submission>) {
    forall i, j :: 0 <= i < j < |log| && log[i].scope == log[j].scope ==>
      && log[i].envelope.ordinal <= log[j].envelope.ordinal
      && (log[i].envelope.ordinal == log[j].envelope.ordinal ==> log[i].envelope == log[j].envelope)
  }

  ghost predicate LaneInv(b: Broker, scope: string, lane: Lane) {
    && (lane.holder.Some? ==> lane.holder.value.ordinal == lane.head - 1)
    && forall i :: 0 <= i < |b.log| && b.log[i].scope == scope ==>
         && b.log[i].envelope.ordinal < lane.head
         && (lane.holder.Some? && b.log[i].envelope.ordinal == lane.head - 1 ==> b.log[i].envelope == lane.holder.value)
  }

  ghost predicate Inv(b: Broker) {
    && Ordered(b.log)
    && (forall i :: 0 <= i < |b.log| ==> b.log[i].scope in b.lanes)
    && (forall scope :: scope in b.lanes ==> LaneInv(b, scope, b.lanes[scope]))
  }

  /** Only a submission changes the log, and its lane knows how it compares with every earlier one. */
  lemma ApplyKeepsOrder(b: Broker, step: Step)
    requires Inv(b)
    ensures Ordered(Apply(b, step).log)
    ensures forall i :: 0 <= i < |Apply(b, step).log| ==> Apply(b, step).log[i].scope in Apply(b, step).lanes
  {
    if step.Submit? && step.scope in b.lanes {
      assert LaneInv(b, step.scope, b.lanes[step.scope]);
    }
  }

  lemma ApplyKeepsLane(b: Broker, step: Step, scope: string)
    requires Inv(b) && scope in Apply(b, step).lanes
    ensures LaneInv(Apply(b, step), scope, Apply(b, step).lanes[scope])
  {
    if scope in b.lanes {
      assert LaneInv(b, scope, b.lanes[scope]);
    }
  }

  lemma ApplyKeepsInv(b: Broker, step: Step)
    requires Inv(b)
    ensures Inv(Apply(b, step))
  {
    ApplyKeepsOrder(b, step);
    var b' := Apply(b, step);
    forall scope | scope in b'.lanes ensures LaneInv(b', scope, b'.lanes[scope]) {
      ApplyKeepsLane(b, step, scope);
    }
  }

  lemma {:induction false} RunKeepsInv(b: Broker, steps: seq<Step>)
    requires Inv(b)
    ensures Inv(Run(b, steps))
    decreases |steps|
  {
    if steps != [] {
      ApplyKeepsInv(b, steps[0]);
      RunKeepsInv(Apply(b, steps[0]), steps[1..]);
    }
  }

  /**
   For every interleaving of callers, cancelled or not: within one subsystem submitted ordinals
   never decrease, and two submissions share an ordinal only as identical retries of one operation.
   */
  lemma OrdinalsAreOrdered(steps: seq<Step>)
    ensures Ordered(Run(Broker(map[], []), steps).log)
  {
    RunKeepsInv(Broker(map[], []), steps);
  }

  /** This step's caller, if it gets the lane's head lock. */
  function Got(b: Broker, step: Step, scope: string): seq<Step> {
    if step.Enter? && step.scope == scope && scope in b.lanes && b.lanes[scope].holder.None? then [step] else []
  }

  /** The callers that get the lane's head lock, in order. */
  function Callers(b: Broker, steps: seq<Step>, scope: string): seq<Step>
    decreases |steps|
  {
    if steps == [] then [] else Got(b, steps[0], scope) + Callers(Apply(b, steps[0]), steps[1..], scope)
  }

  /** An envelope with ordinal `o` is that of the `o`-th caller. */
  ghost predicate Numbered(e: Envelope, callers: seq<Step>, scope: string) {
    1 <= e.ordinal <= |callers| && callers[e.ordinal - 1] == Enter(scope, e.operation, e.deadline, e.payload)
  }

  ghost predicate AllNumbered(b: Broker, callers: seq<Step>, scope: string) {
    && (forall i :: 0 <= i < |b.log| && b.log[i].scope == scope ==> Numbered(b.log[i].envelope, callers, scope))
    && (scope in b.lanes ==>
          && b.lanes[scope].head == |callers| + 1
          && (b.lanes[scope].holder.Some? ==> Numbered(b.lanes[scope].holder.value, callers, scope)))
    && (scope !in b.lanes ==> callers == [])
  }

  lemma StaysNumbered(e: Envelope, callers: seq<Step>, scope: string, more: seq<Step>)
    requires Numbered(e, callers, scope)
    ensures Numbered(e, callers + more, scope)
  {
  }

  lemma ApplyNumbers(b: Broker, step: Step, scope: string, callers: seq<Step>)
    requires AllNumbered(b, callers, scope)
    ensures AllNumbered(Apply(b, step), callers + Got(b, step, scope), scope)
  {
    var b', all := Apply(b, step), callers + Got(b, step, scope);
    forall i | 0 <= i < |b'.log| && b'.log[i].scope == scope ensures Numbered(b'.log[i].envelope, all, scope) {
      StaysNumbered(b'.log[i].envelope, callers, scope, Got(b, step, scope));
    }
    if scope in b.lanes && b.lanes[scope].holder.Some? {
      StaysNumbered(b.lanes[scope].holder.value, callers, scope, Got(b, step, scope));
    }
  }

  lemma {:induction false} RunNumbers(b: Broker, steps: seq<Step>, scope: string, callers: seq<Step>)
    requires AllNumbered(b, callers, scope)
    ensures AllNumbered(Run(b, steps), callers + Callers(b, steps, scope), scope)
    decreases |steps|
  {
    if steps == [] {
      assert callers + [] == callers;
    } else {
      var got, next := Got(b, steps[0], scope), Apply(b, steps[0]);
      ApplyNumbers(b, steps[0], scope, callers);
      RunNumbers(next, steps[1..], scope, callers + got);
      ConcatAssoc(callers, got, Callers(next, steps[1..], scope));
    }
  }

  /**
   Ordinals are given out from one on without gaps: over every interleaving, the submission with
   ordinal `o` in a lane carries the operation, deadline and payload of the `o`-th caller that got
   the lane's lock.
   */
  lemma OrdinalsNumberCallers(steps: seq<Step>, scope: string)
    ensures var b := Broker(map[], []); AllNumbered(Run(b, steps), Callers(b, steps, scope), scope)
  {
    var callers := Callers(Broker(map[], []), steps, scope);
    RunNumbers(Broker(map[], []), steps, scope, []);
    assert [] + callers == callers;
  }

  /** A freed lane admits the next caller, whose envelope is what is submitted; meanwhile it admits nobody else. */
  lemma LaneTakesTurns(b: Broker, scope: string, operation: nat, deadline: nat, payload: string, other: Step)
    requires scope in b.lanes && other.Enter? && other.scope == scope
    ensures var held := Apply(Apply(b, Leave(scope)), Enter(scope, operation, deadline, payload));
      var envelope := Envelope(operation, b.lanes[scope].head, deadline, payload);
      && Apply(held, other) == held
      && Apply(held, Submit(scope)) == held.(log := b.log + [Submission(scope, envelope)])
      && held.lanes == b.lanes[scope := held.lanes[scope]]
  {
  }

  // ----- The lane object -----

  datatype Totals = Totals(attempts: nat, last: Refusals)

  class ProducerLane {
    const scope: string
    var head: nat

    constructor (scope: string)
      ensures this.scope == scope && head == 1
    {
      this.scope, this.head := scope, 1;
    }

    /**
     Runs one operation to its final outcome. `built` is false when the clock or the envelope
     fails, which uses up the ordinal and reaches no writer.
     */
    method RunOperation(built: bool, gate: Rejection, attempts: seq<Attempt>)
      returns (ordinal: nat, result: SubmitResult, totals: Totals)
      modifies this`head
      ensures ordinal == old(head) && head == ordinal + 1
      ensures !built ==> result == Rejected(gate) && totals == Totals(0, NO_REFUSAL)
      ensures built ==> Finish(result, totals.attempts, totals.last) == Drive(attempts)
    {
      ordinal := head;
      head := head + 1;
      totals := Totals(0, NO_REFUSAL);
      if !built {
        return ordinal, Rejected(gate), totals;
      }
      var uncertain: Option<UnknownCause> := None;
      while totals.attempts < |attempts|
        invariant totals.attempts <= |attempts|
        invariant var f := Retry(attempts[totals.attempts..], uncertain, totals.last);
          Drive(attempts) == f.(attempts := f.attempts + totals.attempts)
      {
        var answer := attempts[totals.attempts].answer;
        assert attempts[totals.attempts..][1..] == attempts[totals.attempts + 1..];
        totals := totals.(attempts := totals.attempts + 1);
        match answer {
          case Committed(_) => return ordinal, answer, totals;
          case Rejected(r) =>
            if r.durable {
              return ordinal, answer, totals;
            } else if r.code.StorageUnavailable? {
              totals := totals.(last := Refusals(Some(r), None));
            } else {
              return ordinal, if uncertain.None? then answer else Unknown(uncertain.value), totals;
            }
          case NotEnqueued(reason) =>
            if Transient(reason) {
              totals := totals.(last := Refusals(None, Some(reason)));
            } else {
              return ordinal, if uncertain.None? then answer else Unknown(uncertain.value), totals;
            }
          case Unknown(cause) => uncertain := Some(cause);
        }
      }
      result := Expired(uncertain);
    }
  }

  /** One lane per subsystem name: every caller of a name shares its head. */
  class BrokerWriter {
    var lanes: map<string, ProducerLane>

    constructor ()
      ensures lanes == map[]
    {
      lanes := map[];
    }

    method OpenLane(scope: string) returns (lane: ProducerLane)
      modifies this
      ensures scope in lanes && lanes[scope] == lane
      ensures scope in old(lanes) ==> lanes == old(lanes)
      ensures scope !in old(lanes) ==>
        fresh(lane) && lane.head == 1 && lane.scope == scope && lanes == old(lanes)[scope := lane]
    {
      if scope in lanes {
        return lanes[scope];
      }
      lane := new ProducerLane(scope);
      lanes := lanes[scope := lane];
    }
  }
}

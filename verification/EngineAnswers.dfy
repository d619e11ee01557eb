/** How the exchanges and `next` calls of `EngineRpc` answer, told by envelope members, scripts and queues. */
module EngineAnswers {
  import opened Common
  import opened EngineRpc

  // ----- Waiting -----

  function ArrivalsIn(inputs: seq<Input>): seq<Event>
    decreases |inputs|
  {
    if inputs == [] then [] else
    (if inputs[0].Arrive? then [inputs[0].event] else []) + ArrivalsIn(inputs[1..])
  }

  /** What is unread once the first `k` inputs have happened and nothing was taken. */
  function Unread(c: Conduit, inputs: seq<Input>, k: nat): seq<Event>
    requires k <= |inputs|
  {
    c.channel + ArrivalsIn(inputs[..k])
  }

  /** The `k`-th input ends a wait that nothing ended before. */
  predicate Wakes(c: Conduit, inputs: seq<Input>, k: nat)
    requires k < |inputs|
  {
    match inputs[k]
    case Arrive(_) => false
    case Take => Unread(c, inputs, k) != []
    case Close => Unread(c, inputs, k) == []
    case Break(_) => true
    case Expire => true
    case Jam(_) => false
  }

  /** The conduit of a wait after `k` inputs. */
  function Waited(c: Conduit, inputs: seq<Input>, k: nat): Conduit
    requires k <= |inputs|
  {
    c.(channel := Unread(c, inputs, k), arrived := c.arrived + ArrivalsIn(inputs[..k]))
  }

  lemma ArrivalsUpTo(inputs: seq<Input>, k: nat)
    requires 0 < k <= |inputs|
    ensures ArrivalsIn(inputs[..k])
         == (if inputs[0].Arrive? then [inputs[0].event] else []) + ArrivalsIn(inputs[1..][..k - 1])
  {
    assert inputs[..k][1..] == inputs[1..][..k - 1];
  }

  lemma FirstWaited(c: Conduit, inputs: seq<Input>)
    requires inputs != []
    ensures Waited(c, inputs, 0) == c
    ensures Waited(c, inputs, 1) == if inputs[0].Arrive? then Arriving(c, inputs[0].event) else c
  {
    assert inputs[..0] == [];
    assert inputs[..1] == [inputs[0]];
    assert inputs[..1][1..] == [];
  }

  /** One input later, the same wait goes on from a conduit that has seen it. */
  lemma WaitedLater(c: Conduit, inputs: seq<Input>, k: nat)
    requires 0 < k <= |inputs|
    ensures var next := Waited(c, inputs, 1); Waited(c, inputs, k) == Waited(next, inputs[1..], k - 1)
  {
    var first := if inputs[0].Arrive? then [inputs[0].event] else [];
    ArrivalsUpTo(inputs, 1);
    ArrivalsUpTo(inputs, k);
    assert inputs[1..][..0] == [];
    assert ArrivalsIn(inputs[..1]) == first;
    ConcatAssoc(c.channel, first, ArrivalsIn(inputs[1..][..k - 1]));
    ConcatAssoc(c.arrived, first, ArrivalsIn(inputs[1..][..k - 1]));
  }

  /**
   A receive ends at the first input that wakes it: it takes the oldest unread event, sees the
   end of a drained channel, an ownership failure or the deadline; without such an input it
   runs out, having taken nothing.
   */
  lemma {:induction false} ReceiveWakesFirst(c: Conduit, inputs: seq<Input>) returns (k: nat)
    ensures k <= |inputs| && forall i :: 0 <= i < k ==> !Wakes(c, inputs, i)
    ensures k == |inputs| ==> Receive(c, inputs) == Received(Waited(c, inputs, k), Nothing, [])
    ensures k < |inputs| ==> Wakes(c, inputs, k) && Receive(c, inputs) == Woken(Waited(c, inputs, k), inputs, k)
    decreases |inputs|
  {
    assert inputs[..0] == [];
    assert Waited(c, inputs, 0) == c;
    if inputs == [] || Wakes(c, inputs, 0) {
      k := 0;
    } else {
      var next := Waited(c, inputs, 1);
      FirstWaited(c, inputs);
      assert Receive(c, inputs) == Receive(next, inputs[1..]);
      var j := ReceiveWakesFirst(next, inputs[1..]);
      k := j + 1;
      forall i | 0 < i < |inputs| ensures Wakes(c, inputs, i) == Wakes(next, inputs[1..], i - 1) {
        WaitedLater(c, inputs, i);
      }
      WaitedLater(c, inputs, k);
    }
  }

  /** What a receive gives when input `k` wakes it in conduit `w`. */
  function Woken(w: Conduit, inputs: seq<Input>, k: nat): Received
    requires k < |inputs| && (inputs[k].Take? ==> w.channel != [])
  {
    var rest := inputs[k + 1..];
    match inputs[k]
    case Take => Received(w.(channel := w.channel[1..]), Native(w.channel[0]), rest)
    case Close => Received(w, Synthetic(Engine(Eof)), rest)
    case Break(cause) => Received(w, Synthetic(Ownership(cause)), rest)
    case _ => Received(w, Nothing, rest)
  }

  // ----- Exchanges -----

  /** What becomes of an event that a wait for reply `id` takes, by its members. */
  ghost predicate RightFate(t: Taken, id: nat) {
    if !t.event.Json? then t.fate == Terminal else
    var v := t.event.v;
    if v.id == Some(Number(id)) && v.verb.None? then t.fate == Answered(id)
    else if v.id.Some? && v.verb.Some? then t.fate == Denied
    else t.fate == Kept
  }

  /** The answer an envelope gives, by its members. */
  ghost predicate RightAnswer(d: Disposition, v: Envelope) {
    && (forall x :: d == Replied(x) <==> v.result == Some(x) && v.error.None?)
    && (d.Rejected? <==> v.result.None? && v.error.Some? && v.error.value.code.Some?)
    && (d.Rejected? ==> d.code <= v.error.value.code.value && |d.code| == Least(64, |v.error.value.code.value|))
    && (d == Uncertain(MalformedReply) <==>
          || (v.result.Some? && v.error.Some?)
          || (v.result.None? && v.error.None?)
          || (v.error.Some? && v.error.value.code.None?))
  }

  function Least(a: nat, b: nat): nat {
    if a <= b then a else b
  }

  lemma ReplyIsRight(v: Envelope)
    ensures RightAnswer(ReplyOf(v), v)
  {
  }

  /** Whatever was taken since `before` has its right fate, and only the last of it can have ended the wait. */
  ghost predicate TakenRightly(before: seq<Taken>, after: seq<Taken>, id: nat) {
    && before <= after
    && (forall i :: |before| <= i < |after| ==> RightFate(after[i], id))
    && (forall i :: |before| <= i < |after| - 1 ==> after[i].fate.Kept? || after[i].fate.Denied?)
  }

  /** What a wait that ends in `o` after taking these events answers. */
  ghost predicate AnsweredRightly(before: seq<Taken>, o: Outcome) {
    var after := o.conduit.taken;
    var ended := |after| > |before| && !after[|after| - 1].fate.Kept? && !after[|after| - 1].fate.Denied?;
    if !ended then !o.disposition.Replied? && !o.disposition.Rejected? else
    match after[|after| - 1].event
    case Json(v) => RightAnswer(o.disposition, v)
    case Eof => o.disposition == Uncertain(Closed)
    case Failure(kind) => o.disposition == Uncertain(Transport(kind))
  }

  lemma ReceiveTakesNothingElse(c: Conduit, inputs: seq<Input>)
    ensures Receive(c, inputs).conduit.taken == c.taken && Receive(c, inputs).conduit.backlog == c.backlog
  {
    var _ := ReceiveWakesFirst(c, inputs);
  }

  lemma TurnAnswers(c: Conduit, id: nat, inputs: seq<Input>)
    ensures var t := WaitTurn(c, id, inputs);
      && TakenRightly(c.taken, t.conduit.taken, id)
      && (t.verdict.Some? ==> AnsweredRightly(c.taken, Outcome(t.conduit, t.verdict.value)))
      && (t.verdict.None? ==>
            && |t.conduit.taken| == |c.taken| + 1
            && (t.conduit.taken[|c.taken|].fate.Kept? || t.conduit.taken[|c.taken|].fate.Denied?))
  {
    ReceiveTakesNothingElse(c, inputs);
    var r := Receive(c, inputs);
    if r.got.Native? && r.got.event.Json? {
      ReplyIsRight(r.got.event.v);
    }
  }

  lemma {:induction false} WaitAnswers(c: Conduit, id: nat, inputs: seq<Input>)
    ensures var o := Wait(c, id, inputs);
      TakenRightly(c.taken, o.conduit.taken, id) && AnsweredRightly(c.taken, o)
    decreases |inputs|
  {
    TurnAnswers(c, id, inputs);
    var t := WaitTurn(c, id, inputs);
    if t.verdict.None? {
      WaitAnswers(t.conduit, id, t.rest);
    }
  }

  /**
   For every conduit and script: an exchange denies engine requests and keeps other messages, and
   the first reply carrying its own id, or the first event that is no message, ends it. A reply is
   answered by its members; nothing else gives an answer. In particular an exchange that takes its
   reply answers with it.
   */
  lemma ExchangeAnswers(c: Conduit, inputs: seq<Input>)
    ensures var o := Exchange(c, inputs);
      TakenRightly(c.taken, o.conduit.taken, c.nextId) && AnsweredRightly(c.taken, o)
  {
    WaitAnswers(c.(nextId := c.nextId + 1), c.nextId, inputs);
  }

  /** Why a wait that read `n` inputs ended as it did. */
  ghost predicate EndedBy(o: Outcome, inputs: seq<Input>, n: nat)
    requires n <= |inputs|
  {
    || (o.disposition == Uncertain(Pressure) && |o.conduit.backlog| >= BACKLOG_LIMIT)
    || (o.disposition == Uncertain(Timeout) && n == |inputs|)
    || (n > 0 && match inputs[n - 1]
          case Expire => o.disposition == Uncertain(Timeout)
          case Close => o.disposition == Uncertain(Closed) && o.conduit.channel == []
          case Break(cause) =>
            && o.disposition == Uncertain(Transport("engine_ownership_checkpoint_failed"))
            && o.conduit.backlog != [] && o.conduit.backlog[0] == Ownership(cause)
          case Jam(reason) => o.disposition == Uncertain(reason)
          case Take =>
            && o.conduit.taken != []
            && var fate := o.conduit.taken[|o.conduit.taken| - 1].fate; fate.Answered? || fate.Terminal?
          case Arrive(_) => false)
  }

  lemma {:induction false} ArrivalsConcat(a: seq<Input>, b: seq<Input>)
    ensures ArrivalsIn(a + b) == ArrivalsIn(a) + ArrivalsIn(b)
    decreases |a|
  {
    if a == [] {
      assert a + b == b;
    } else {
      assert (a + b)[1..] == a[1..] + b;
      ArrivalsConcat(a[1..], b);
      ConcatAssoc(if a[0].Arrive? then [a[0].event] else [], ArrivalsIn(a[1..]), ArrivalsIn(b));
    }
  }

  /** Inputs up to and including `k`, which is no arrival, and then `n` more. */
  lemma ArrivalsAcross(inputs: seq<Input>, k: nat, n: nat)
    requires k < |inputs| && !inputs[k].Arrive? && k + 1 + n <= |inputs|
    ensures ArrivalsIn(inputs[..k + 1 + n]) == ArrivalsIn(inputs[..k]) + ArrivalsIn(inputs[k + 1..][..n])
  {
    assert inputs[..k + 1 + n] == inputs[..k] + ([inputs[k]] + inputs[k + 1..][..n]);
    assert ([inputs[k]] + inputs[k + 1..][..n])[1..] == inputs[k + 1..][..n];
    ArrivalsConcat(inputs[..k], [inputs[k]] + inputs[k + 1..][..n]);
  }

  lemma ArrivalsPast(inputs: seq<Input>, k: nat)
    requires k < |inputs| && !inputs[k].Arrive?
    ensures ArrivalsIn(inputs[..k + 1]) == ArrivalsIn(inputs[..k])
  {
    ArrivalsAcross(inputs, k, 0);
    assert inputs[k + 1..][..0] == [];
  }

  /** A turn of a wait has read the first `n` inputs: up to what woke it, and a failed denial. */
  ghost predicate ReadsTo(c: Conduit, t: Turn, inputs: seq<Input>, n: nat) {
    && n <= |inputs| && t.rest == inputs[n..]
    && t.conduit.arrived == c.arrived + ArrivalsIn(inputs[..n])
    && (t.verdict.Some? ==> EndedBy(Outcome(t.conduit, t.verdict.value), inputs, n))
    && (t.verdict.None? ==> n > 0 && inputs[n - 1] == Take)
  }

  lemma TakeReads(c: Conduit, w: Conduit, e: Event, id: nat, inputs: seq<Input>, k: nat) returns (n: nat)
    requires k < |inputs| && inputs[k].Take? && w.arrived == c.arrived + ArrivalsIn(inputs[..k])
    ensures ReadsTo(c, TakeTurn(w, e, id, inputs[k + 1..]), inputs, n)
  {
    n := k + 1;
    ArrivalsPast(inputs, k);
    if n < |inputs| && inputs[n].Jam? && !Correlated(e, id) && ServerRequest(e) {
      ArrivalsPast(inputs, n);
      assert inputs[n..][0] == inputs[n] && inputs[n..][1..] == inputs[n + 1..];
      n := k + 2;
    }
  }

  lemma TurnReads(c: Conduit, id: nat, inputs: seq<Input>) returns (n: nat)
    ensures ReadsTo(c, WaitTurn(c, id, inputs), inputs, n)
  {
    if |c.backlog| >= BACKLOG_LIMIT {
      assert inputs[..0] == [] && inputs[0..] == inputs;
      return 0;
    }
    n := ReceiveWakesFirst(c, inputs);
    if n < |inputs| {
      if inputs[n].Take? {
        var r := Receive(c, inputs);
        n := TakeReads(c, r.conduit, r.got.event, id, inputs, n);
      } else {
        ArrivalsPast(inputs, n);
        n := n + 1;
      }
    }
  }

  lemma {:induction false} WaitEnds(c: Conduit, id: nat, inputs: seq<Input>) returns (n: nat)
    ensures n <= |inputs| && EndedBy(Wait(c, id, inputs), inputs, n)
    ensures Wait(c, id, inputs).conduit.arrived == c.arrived + ArrivalsIn(inputs[..n])
    decreases |inputs|
  {
    n := TurnReads(c, id, inputs);
    var t := WaitTurn(c, id, inputs);
    if t.verdict.None? {
      var more := WaitEnds(t.conduit, id, t.rest);
      ArrivalsJoin(c.arrived, inputs, n, more);
      EndedLater(Wait(t.conduit, id, t.rest), inputs, n, more);
      n := n + more;
    }
  }

  lemma ArrivalsJoin(before: seq<Event>, inputs: seq<Input>, n: nat, more: nat)
    requires n + more <= |inputs|
    ensures before + ArrivalsIn(inputs[..n]) + ArrivalsIn(inputs[n..][..more])
         == before + ArrivalsIn(inputs[..n + more])
  {
    assert inputs[..n + more] == inputs[..n] + inputs[n..][..more];
    ArrivalsConcat(inputs[..n], inputs[n..][..more]);
    ConcatAssoc(before, ArrivalsIn(inputs[..n]), ArrivalsIn(inputs[n..][..more]));
  }

  lemma EndedLater(o: Outcome, inputs: seq<Input>, n: nat, more: nat)
    requires 0 < n <= n + more <= |inputs| && EndedBy(o, inputs[n..], more)
    ensures EndedBy(o, inputs, n + more)
  {
    if more > 0 {
      assert inputs[n..][more - 1] == inputs[n + more - 1];
    }
  }

  /**
   Every exchange that was not refused for pressure ends for a reason its script shows: a failed
   write, a full backlog, the deadline, the end of the channel, an ownership failure that is put
   in front of the backlog, or an event it took. The inputs read by then are all that arrived.
   */
  lemma ExchangeEnds(c: Conduit, inputs: seq<Input>) returns (n: nat)
    requires |c.backlog| < BACKLOG_LIMIT
    ensures n <= |inputs| && EndedBy(Exchange(c, inputs), inputs, n)
    ensures Exchange(c, inputs).conduit.arrived == c.arrived + ArrivalsIn(inputs[..n])
  {
    if inputs != [] && inputs[0].Jam? {
      assert inputs[..1] == [inputs[0]];
      assert inputs[..1][1..] == [];
      n := 1;
    } else {
      n := WaitEnds(c.(nextId := c.nextId + 1), c.nextId, inputs);
    }
  }

  // ----- A reply that is there is found -----

  function Takes(n: nat): (inputs: seq<Input>)
    ensures |inputs| == n && forall i :: 0 <= i < n ==> inputs[i] == Take
  {
    seq(n, _ => Take)
  }

  /** Messages a wait for reply `id` passes over. */
  ghost predicate PassedOver(events: seq<Event>, id: nat) {
    forall i :: 0 <= i < |events| ==> events[i].Json? && !(events[i].v.id == Some(Number(id)) && events[i].v.verb.None?)
  }

  /** The messages among these that are not requests of the engine, as backlog items. */
  function Notices(events: seq<Event>): seq<Item>
    decreases |events|
  {
    if events == [] then [] else
    var e := events[0];
    (if e.Json? && e.v.id.Some? && e.v.verb.Some? then [] else [Engine(e)]) + Notices(events[1..])
  }

  lemma {:induction false} QueuedReplyIsFound(
    c: Conduit, id: nat, before: seq<Event>, v: Envelope, later: seq<Event>, more: seq<Input>)
    requires c.channel == before + [Json(v)] + later && PassedOver(before, id)
    requires v.id == Some(Number(id)) && v.verb.None?
    requires |c.backlog| + |Notices(before)| < BACKLOG_LIMIT
    ensures var o := Wait(c, id, Takes(|before| + 1) + more);
      && RightAnswer(o.disposition, v)
      && o.conduit.channel == later && o.conduit.backlog == c.backlog + Notices(before)
    decreases |before|
  {
    var inputs := Takes(|before| + 1) + more;
    assert inputs[1..] == Takes(|before|) + more;
    if before == [] {
      assert c.channel[0] == Json(v) && c.channel[1..] == later;
      ReplyIsRight(v);
    } else {
      var e := before[0];
      assert c.channel[0] == e && c.channel[1..] == before[1..] + [Json(v)] + later;
      var t := WaitTurn(c, id, inputs);
      var kept := if ServerRequest(e) then [] else [Engine(e)];
      assert t.verdict.None? && t.rest == inputs[1..] && t.conduit.channel == c.channel[1..];
      assert t.conduit.backlog == c.backlog + kept;
      QueuedReplyIsFound(t.conduit, id, before[1..], v, later, more);
      ConcatAssoc(c.backlog, kept, Notices(before[1..]));
    }
  }

  /**
   If the reply is in the channel behind any messages that leave room in the backlog, as many
   takes as there are messages up to it answer the exchange by it; the passed messages that are
   not requests are in the backlog in order, and what came later is unread.
   */
  lemma QueuedReplyIsAnswered(
    c: Conduit, before: seq<Event>, v: Envelope, later: seq<Event>, more: seq<Input>)
    requires c.channel == before + [Json(v)] + later && PassedOver(before, c.nextId)
    requires v.id == Some(Number(c.nextId)) && v.verb.None?
    requires |c.backlog| + |Notices(before)| < BACKLOG_LIMIT
    ensures var o := Exchange(c, Takes(|before| + 1) + more);
      && RightAnswer(o.disposition, v)
      && o.conduit.channel == later && o.conduit.backlog == c.backlog + Notices(before)
  {
    QueuedReplyIsFound(c.(nextId := c.nextId + 1), c.nextId, before, v, later, more);
  }

  // ----- Next -----

  /** What `next` hands out when its backlog is empty and input `k` is the first to wake it. */
  ghost predicate PulledFromChannel(c: Conduit, inputs: seq<Input>, k: nat, p: Pulled)
    requires k <= |inputs|
  {
    if k == |inputs| || inputs[k].Expire? then p.item.None?
    else match inputs[k]
      case Take => Unread(c, inputs, k) != [] && p.item == Some(Engine(Unread(c, inputs, k)[0]))
      case Close => Unread(c, inputs, k) == [] && p.item == Some(Engine(Eof))
      case Break(cause) => p.item == Some(Ownership(cause))
      case _ => false
  }

  /**
   `next` hands out the front of its backlog, unless an ownership failure comes first; with an
   empty backlog, the oldest unread event, the end of the drained channel or an ownership failure,
   whichever its first waking input brings. The record of delivered events grows by exactly the
   event handed out, and does not grow for an ownership failure, the channel's end or nothing.
   */
  lemma NextHandsOut(c: Conduit, inputs: seq<Input>) returns (k: nat)
    ensures k <= |inputs| && forall i :: 0 <= i < k ==> !Wakes(c, inputs, i)
    ensures var p := Next(c, inputs);
      var broken := inputs != [] && inputs[0].Break?;
      && (c.backlog != [] && c.backlog[0].Engine? && broken ==> p == Pulled(c, Some(Ownership(inputs[0].cause))))
      && (c.backlog != [] && !(c.backlog[0].Engine? && broken) ==>
            p.item == Some(c.backlog[0]) && p.conduit.backlog == c.backlog[1..] && p.conduit.channel == c.channel)
      && (c.backlog == [] ==> PulledFromChannel(c, inputs, k, p))
    ensures var p := Next(c, inputs);
      var drained := c.backlog == [] && k < |inputs| && inputs[k].Close?;
      if p.item.Some? && p.item.value.Engine? && !drained
      then p.conduit.delivered == c.delivered + [p.item.value.event]
      else p.conduit.delivered == c.delivered
  {
    k := ReceiveWakesFirst(c, inputs);
  }
}

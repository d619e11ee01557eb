/**
 Event delivery and request correlation of `Process` in
 `crates/agent-run-adapters/src/io.rs`: a bounded backlog in front of a FIFO
 channel. What the asynchronous world does while a call waits is its script of
 inputs; a script that runs out is a deadline.
 */
module EngineRpc {
  import opened Common

  /** `RPC_BACKLOG_LIMIT` */
  const BACKLOG_LIMIT: nat := 64

  /** A JSON id: a number a request could carry, or anything else. */
  datatype Id = Number(n: nat) | Other(text: string)

  /** `code` is the printed code when it is an integer or a bounded nonblank string. */
  datatype Rejection = Rejection(code: Option<string>)

  /** The envelope members the exchange looks at; `verb` is the `method` member. */
  datatype Envelope = Envelope(id: Option<Id>, verb: Option<string>, result: Option<string>, error: Option<Rejection>)

  /** What the stdout reader puts into the channel. */
  datatype Event = Json(v: Envelope) | Eof | Failure(kind: string)

  /** What `next` hands out: an engine event or the process's own ownership failure. */
  datatype Item = Engine(event: Event) | Ownership(cause: string)

  datatype Uncertainty = Timeout | Pressure | Closed | Transport(kind: string) | MalformedReply | Send

  datatype Disposition =
    | Replied(value: string)
    | Rejected(code: string)
    | UnsentPressure
    | Uncertain(reason: Uncertainty)

  datatype Input =
    | Arrive(event: Event)
    | Take
    | Close
    | Break(cause: string)
    | Expire
    | Jam(reason: Uncertainty)

  /** Why an event read from the channel is not for `next`. */
  datatype Fate = Kept | Answered(id: nat) | Denied | Terminal

  datatype Taken = Taken(event: Event, fate: Fate)

  /** `arrived`, `taken` and `delivered` are history variables: no step reads them. */
  datatype Conduit = Conduit(
    backlog: seq<Item>,
    channel: seq<Event>,
    nextId: nat,
    arrived: seq<Event>,
    taken: seq<Taken>,
    delivered: seq<Event>)

  datatype Got = Native(event: Event) | Synthetic(item: Item) | Nothing

  datatype Received = Received(conduit: Conduit, got: Got, rest: seq<Input>)

  function Arriving(c: Conduit, e: Event): Conduit {
    c.(channel := c.channel + [e], arrived := c.arrived + [e])
  }

  /** `receive`: waits for the channel, its end, an ownership failure or the deadline. */
  function Receive(c: Conduit, inputs: seq<Input>): (r: Received)
    ensures |r.rest| <= |inputs| && (!r.got.Nothing? ==> |r.rest| < |inputs|)
    decreases |inputs|
  {
    if inputs == [] then Received(c, Nothing, []) else
    match inputs[0]
    case Arrive(e) => Receive(Arriving(c, e), inputs[1..])
    case Take =>
      if c.channel == [] then Receive(c, inputs[1..])
      else Received(c.(channel := c.channel[1..]), Native(c.channel[0]), inputs[1..])
    case Close =>
      if c.channel == [] then Received(c, Synthetic(Engine(Eof)), inputs[1..])
      else Receive(c, inputs[1..])
    case Break(cause) => Received(c, Synthetic(Ownership(cause)), inputs[1..])
    case Expire => Received(c, Nothing, inputs[1..])
    case Jam(_) => Receive(c, inputs[1..])
  }

  function Noted(c: Conduit, e: Event, fate: Fate): Conduit {
    c.(taken := c.taken + [Taken(e, fate)])
  }

  /** A reply to request `id`: same numeric id and no method. */
  predicate Correlated(e: Event, id: nat) {
    e.Json? && e.v.id == Some(Number(id)) && e.v.verb.None?
  }

  /** A request the engine makes of us. */
  predicate ServerRequest(e: Event) {
    e.Json? && e.v.verb.Some? && e.v.id.Some?
  }

  function Bounded(code: string): string {
    if |code| <= 64 then code else code[..64]
  }

  function ReplyOf(v: Envelope): Disposition {
    if v.error.Some? then
      if v.result.Some? || v.error.value.code.None? then Uncertain(MalformedReply)
      else Rejected(Bounded(v.error.value.code.value))
    else if v.result.Some? then Replied(v.result.value)
    else Uncertain(MalformedReply)
  }

  datatype Outcome = Outcome(conduit: Conduit, disposition: Disposition)

  /** One turn of the wait for request `id`: `None` goes round again. */
  datatype Turn = Turn(conduit: Conduit, verdict: Option<Disposition>, rest: seq<Input>)

  /** What the wait does with an event taken from the channel. */
  function TakeTurn(c: Conduit, e: Event, id: nat, rest: seq<Input>): (t: Turn)
    ensures |t.rest| <= |rest|
  {
    if Correlated(e, id) then Turn(Noted(c, e, Answered(id)), Some(ReplyOf(e.v)), rest)
    else if ServerRequest(e) then
      var noted := Noted(c, e, Denied);
      if rest != [] && rest[0].Jam? then Turn(noted, Some(Uncertain(rest[0].reason)), rest[1..])
      else Turn(noted, None, rest)
    else match e
      case Json(_) => Turn(Noted(c, e, Kept).(backlog := c.backlog + [Engine(e)]), None, rest)
      case Eof => Turn(Noted(c, e, Terminal), Some(Uncertain(Closed)), rest)
      case Failure(kind) => Turn(Noted(c, e, Terminal), Some(Uncertain(Transport(kind))), rest)
  }

  function WaitTurn(c: Conduit, id: nat, inputs: seq<Input>): (t: Turn)
    ensures t.verdict.None? ==> |t.rest| < |inputs|
  {
    if |c.backlog| >= BACKLOG_LIMIT then Turn(c, Some(Uncertain(Pressure)), inputs) else
    var r := Receive(c, inputs);
    match r.got
    case Nothing => Turn(r.conduit, Some(Uncertain(Timeout)), r.rest)
    case Synthetic(Ownership(cause)) =>
      Turn(r.conduit.(backlog := [Ownership(cause)] + r.conduit.backlog),
           Some(Uncertain(Transport("engine_ownership_checkpoint_failed"))), r.rest)
    case Synthetic(Engine(_)) => Turn(r.conduit, Some(Uncertain(Closed)), r.rest)
    case Native(e) => TakeTurn(r.conduit, e, id, r.rest)
  }

  function Wait(c: Conduit, id: nat, inputs: seq<Input>): Outcome
    decreases |inputs|
  {
    var t := WaitTurn(c, id, inputs);
    if t.verdict.Some? then Outcome(t.conduit, t.verdict.value) else Wait(t.conduit, id, t.rest)
  }

  /** `rpc_exchange_until` */
  function Exchange(c: Conduit, inputs: seq<Input>): Outcome {
    if |c.backlog| >= BACKLOG_LIMIT then Outcome(c, UnsentPressure) else
    var sent := c.(nextId := c.nextId + 1);
    if inputs != [] && inputs[0].Jam? then Outcome(sent, Uncertain(inputs[0].reason))
    else Wait(sent, c.nextId, inputs)
  }

  datatype Pulled = Pulled(conduit: Conduit, item: Option<Item>)

  /** `next`; no item means the call was cancelled while waiting. */
  function Next(c: Conduit, inputs: seq<Input>): Pulled {
    if c.backlog != [] && c.backlog[0].Ownership? then
      Pulled(c.(backlog := c.backlog[1..]), Some(c.backlog[0]))
    else if c.backlog != [] then
      if inputs != [] && inputs[0].Break? then Pulled(c, Some(Ownership(inputs[0].cause)))
      else Pulled(c.(backlog := c.backlog[1..], delivered := c.delivered + [c.backlog[0].event]), Some(c.backlog[0]))
    else
      var r := Receive(c, inputs);
      match r.got
      case Nothing => Pulled(r.conduit, None)
      case Synthetic(item) => Pulled(r.conduit, Some(item))
      case Native(e) => Pulled(Noted(r.conduit, e, Kept).(delivered := r.conduit.delivered + [e]), Some(Engine(e)))
  }

  datatype Call = Arrival(event: Event) | NextCall(inputs: seq<Input>) | ExchangeCall(inputs: seq<Input>)

  function Perform(c: Conduit, call: Call): Conduit {
    match call
    case Arrival(e) => Arriving(c, e)
    case NextCall(inputs) => Next(c, inputs).conduit
    case ExchangeCall(inputs) => Exchange(c, inputs).conduit
  }

  function Performed(c: Conduit, calls: seq<Call>): Conduit
    decreases |calls|
  {
    if calls == [] then c else Performed(Perform(c, calls[0]), calls[1..])
  }

  function Spawned(): Conduit {
    Conduit([], [], 1, [], [], [])
  }

  // ----- Conservation -----

  function EventsOf(taken: seq<Taken>): seq<Event>
    decreases |taken|
  {
    if taken == [] then [] else EventsOf(taken[..|taken| - 1]) + [taken[|taken| - 1].event]
  }

  function KeptOf(taken: seq<Taken>): seq<Event>
    decreases |taken|
  {
    if taken == [] then [] else
    var last := taken[|taken| - 1];
    KeptOf(taken[..|taken| - 1]) + if last.fate.Kept? then [last.event] else []
  }

  /** The engine events of a backlog, in order. */
  function NativeOf(items: seq<Item>): seq<Event>
    decreases |items|
  {
    if items == [] then [] else
    (if items[0].Engine? then [items[0].event] else []) + NativeOf(items[1..])
  }

  /** An event may be withheld from `next` only for one of three reasons. */
  predicate FateFits(t: Taken, nextId: nat) {
    match t.fate
    case Kept => true
    case Answered(id) => Correlated(t.event, id) && id < nextId
    case Denied => ServerRequest(t.event)
    case Terminal => !t.event.Json?
  }

  ghost predicate Inv(c: Conduit) {
    && c.arrived == EventsOf(c.taken) + c.channel
    && KeptOf(c.taken) == c.delivered + NativeOf(c.backlog)
    && (forall i :: 0 <= i < |c.taken| ==> FateFits(c.taken[i], c.nextId))
    && |c.backlog| <= BACKLOG_LIMIT
    && AnsweredOnce(c.taken)
  }

  /** No request id is answered twice. */
  ghost predicate AnsweredOnce(taken: seq<Taken>) {
    forall i, j :: 0 <= i < j < |taken| && taken[i].fate.Answered? && taken[j].fate.Answered? ==>
      taken[i].fate.id < taken[j].fate.id
  }

  lemma {:induction false} NativeAppend(items: seq<Item>, e: Event)
    ensures NativeOf(items + [Engine(e)]) == NativeOf(items) + [e]
    decreases |items|
  {
    if items != [] {
      assert (items + [Engine(e)])[1..] == items[1..] + [Engine(e)];
      NativeAppend(items[1..], e);
    }
  }

  lemma NativePrepend(items: seq<Item>, cause: string)
    ensures NativeOf([Ownership(cause)] + items) == NativeOf(items)
  {
  }

  lemma TakenAppend(taken: seq<Taken>, t: Taken)
    ensures EventsOf(taken + [t]) == EventsOf(taken) + [t.event]
    ensures KeptOf(taken + [t]) == KeptOf(taken) + if t.fate.Kept? then [t.event] else []
  {
  }

  /** A receive only moves arrivals along; what it took from the channel is the next unread arrival. */
  lemma {:induction false} ReceiveConserves(c: Conduit, inputs: seq<Input>)
    requires Inv(c)
    ensures var r := Receive(c, inputs);
      && r.conduit == c.(channel := r.conduit.channel, arrived := r.conduit.arrived)
      && r.conduit.arrived == EventsOf(c.taken) + (if r.got.Native? then [r.got.event] else []) + r.conduit.channel
    decreases |inputs|
  {
    if inputs != [] {
      match inputs[0]
      case Arrive(e) =>
        ConcatAssoc(EventsOf(c.taken), c.channel, [e]);
        ReceiveConserves(Arriving(c, e), inputs[1..]);
      case Take =>
        if c.channel == [] {
          ReceiveConserves(c, inputs[1..]);
        } else {
          assert c.channel == [c.channel[0]] + c.channel[1..];
          ConcatAssoc(EventsOf(c.taken), [c.channel[0]], c.channel[1..]);
        }
      case Close => if c.channel != [] { ReceiveConserves(c, inputs[1..]); }
      case Break(_) =>
      case Expire =>
      case Jam(_) => ReceiveConserves(c, inputs[1..]);
    }
  }

  /** Reading one event and recording a fitting fate keeps the books. */
  lemma NotedKeepsInv(c: Conduit, r: Conduit, e: Event, fate: Fate)
    requires Inv(c) && r == c.(channel := r.channel, arrived := r.arrived)
    requires r.arrived == EventsOf(c.taken) + [e] + r.channel
    requires !fate.Kept? && FateFits(Taken(e, fate), c.nextId)
    requires fate.Answered? ==> forall i :: 0 <= i < |c.taken| && c.taken[i].fate.Answered? ==>
      c.taken[i].fate.id < fate.id
    ensures Inv(Noted(r, e, fate))
  {
    TakenAppend(c.taken, Taken(e, fate));
  }

  lemma KeptKeepsInv(c: Conduit, r: Conduit, e: Event)
    requires Inv(c) && r == c.(channel := r.channel, arrived := r.arrived)
    requires r.arrived == EventsOf(c.taken) + [e] + r.channel
    ensures |c.backlog| < BACKLOG_LIMIT ==> Inv(Noted(r, e, Kept).(backlog := r.backlog + [Engine(e)]))
    ensures c.backlog == [] ==> Inv(Noted(r, e, Kept).(delivered := c.delivered + [e]))
  {
    TakenAppend(c.taken, Taken(e, Kept));
    NativeAppend(c.backlog, e);
    ConcatAssoc(c.delivered, NativeOf(c.backlog), [e]);
  }

  /** Nothing answered so far carries `id`. */
  ghost predicate Unanswered(c: Conduit, id: nat) {
    id < c.nextId && forall i :: 0 <= i < |c.taken| && c.taken[i].fate.Answered? ==> c.taken[i].fate.id < id
  }

  lemma TakeTurnKeepsInv(c: Conduit, r: Conduit, e: Event, id: nat, rest: seq<Input>)
    requires Inv(c) && Unanswered(c, id) && |c.backlog| < BACKLOG_LIMIT
    requires r == c.(channel := r.channel, arrived := r.arrived) && r.arrived == EventsOf(c.taken) + [e] + r.channel
    ensures var t := TakeTurn(r, e, id, rest);
      Inv(t.conduit) && (t.verdict.None? ==> Unanswered(t.conduit, id)) && t.conduit.nextId == c.nextId
  {
    if Correlated(e, id) {
      NotedKeepsInv(c, r, e, Answered(id));
    } else if ServerRequest(e) {
      NotedKeepsInv(c, r, e, Denied);
    } else if e.Json? {
      KeptKeepsInv(c, r, e);
    } else {
      NotedKeepsInv(c, r, e, Terminal);
    }
  }

  /**
   A receive that took nothing from the channel keeps the books, with or without an ownership
   failure put in front.
   */
  lemma WakeKeepsInv(c: Conduit, r: Conduit, cause: string)
    requires Inv(c) && r == c.(channel := r.channel, arrived := r.arrived)
    requires r.arrived == EventsOf(c.taken) + [] + r.channel
    ensures Inv(r)
    ensures |c.backlog| < BACKLOG_LIMIT ==> Inv(r.(backlog := [Ownership(cause)] + r.backlog))
  {
    assert EventsOf(c.taken) + [] == EventsOf(c.taken);
    NativePrepend(c.backlog, cause);
  }

  lemma WaitTurnKeepsInv(c: Conduit, id: nat, inputs: seq<Input>)
    requires Inv(c) && Unanswered(c, id)
    ensures var t := WaitTurn(c, id, inputs); Inv(t.conduit) && (t.verdict.None? ==> Unanswered(t.conduit, id))
    ensures WaitTurn(c, id, inputs).conduit.nextId == c.nextId
  {
    if |c.backlog| < BACKLOG_LIMIT {
      ReceiveConserves(c, inputs);
      var r := Receive(c, inputs);
      match r.got
      case Nothing => WakeKeepsInv(c, r.conduit, "");
      case Synthetic(item) => WakeKeepsInv(c, r.conduit, if item.Ownership? then item.cause else "");
      case Native(e) => TakeTurnKeepsInv(c, r.conduit, e, id, r.rest);
    }
  }

  lemma {:induction false} WaitKeepsInv(c: Conduit, id: nat, inputs: seq<Input>)
    requires Inv(c) && Unanswered(c, id)
    ensures Inv(Wait(c, id, inputs).conduit) && Wait(c, id, inputs).conduit.nextId == c.nextId
    decreases |inputs|
  {
    WaitTurnKeepsInv(c, id, inputs);
    var t := WaitTurn(c, id, inputs);
    if t.verdict.None? {
      WaitKeepsInv(t.conduit, id, t.rest);
    }
  }

  lemma ExchangeKeepsInv(c: Conduit, inputs: seq<Input>)
    requires Inv(c)
    ensures Inv(Exchange(c, inputs).conduit)
  {
    if |c.backlog| < BACKLOG_LIMIT {
      var sent := c.(nextId := c.nextId + 1);
      assert Inv(sent) && Unanswered(sent, c.nextId);
      WaitKeepsInv(sent, c.nextId, inputs);
    }
  }

  lemma NextKeepsInv(c: Conduit, inputs: seq<Input>)
    requires Inv(c)
    ensures Inv(Next(c, inputs).conduit)
  {
    if c.backlog != [] {
      assert NativeOf(c.backlog) ==
        (if c.backlog[0].Engine? then [c.backlog[0].event] else []) + NativeOf(c.backlog[1..]);
      if c.backlog[0].Engine? {
        ConcatAssoc(c.delivered, [c.backlog[0].event], NativeOf(c.backlog[1..]));
      }
    } else {
      ReceiveConserves(c, inputs);
      var r := Receive(c, inputs);
      if r.got.Native? {
        KeptKeepsInv(c, r.conduit, r.got.event);
      }
    }
  }

  lemma {:induction false} PerformedKeepsInv(c: Conduit, calls: seq<Call>)
    requires Inv(c)
    ensures Inv(Performed(c, calls))
    decreases |calls|
  {
    if calls != [] {
      match calls[0] {
        case Arrival(e) => ConcatAssoc(EventsOf(c.taken), c.channel, [e]);
        case NextCall(inputs) => NextKeepsInv(c, inputs);
        case ExchangeCall(inputs) => ExchangeKeepsInv(c, inputs);
      }
      PerformedKeepsInv(Perform(c, calls[0]), calls[1..]);
    }
  }

  /**
   For every interleaving of arrivals, `next` calls and exchanges since the process was
   spawned: the events read and the unread channel are the arrivals in order; the events
   delivered followed by the backlog are what was read, in order, minus correlated replies,
   denied requests and terminal events consumed inside exchanges; the backlog stays within
   its limit; and no request id is answered twice.
   */
  lemma DeliveryIsLossless(calls: seq<Call>)
    ensures var c := Performed(Spawned(), calls);
      && c.arrived == EventsOf(c.taken) + c.channel
      && KeptOf(c.taken) == c.delivered + NativeOf(c.backlog)
      && (forall i :: 0 <= i < |c.taken| ==> FateFits(c.taken[i], c.nextId))
      && |c.backlog| <= 64
      && AnsweredOnce(c.taken)
  {
    PerformedKeepsInv(Spawned(), calls);
  }

  /** A refusal for pressure sends nothing and touches neither ids nor queues; any other exchange uses up one id. */
  lemma PressureChangesNothing(c: Conduit, inputs: seq<Input>)
    ensures Exchange(c, inputs).disposition == UnsentPressure <==> |c.backlog| >= 64
    ensures Exchange(c, inputs).disposition == UnsentPressure ==> Exchange(c, inputs).conduit == c
    ensures Exchange(c, inputs).disposition != UnsentPressure ==> Exchange(c, inputs).conduit.nextId == c.nextId + 1
  {
    var sent := c.(nextId := c.nextId + 1);
    WaitKeepsIds(sent, c.nextId, inputs);
    WaitWasSent(sent, c.nextId, inputs);
  }

  lemma ReceiveKeepsIds(c: Conduit, inputs: seq<Input>)
    ensures Receive(c, inputs).conduit.nextId == c.nextId
    decreases |inputs|
  {
  }

  lemma {:induction false} WaitKeepsIds(c: Conduit, id: nat, inputs: seq<Input>)
    ensures Wait(c, id, inputs).conduit.nextId == c.nextId
    decreases |inputs|
  {
    ReceiveKeepsIds(c, inputs);
    var t := WaitTurn(c, id, inputs);
    if t.verdict.None? {
      WaitKeepsIds(t.conduit, id, t.rest);
    }
  }

  /** A wait is only begun by a request that was sent. */
  lemma {:induction false} WaitWasSent(c: Conduit, id: nat, inputs: seq<Input>)
    ensures Wait(c, id, inputs).disposition != UnsentPressure
    decreases |inputs|
  {
    var t := WaitTurn(c, id, inputs);
    if t.verdict.None? {
      WaitWasSent(t.conduit, id, t.rest);
    }
  }

  /** The process object: each call leaves exactly the conduit the functions above describe. */
  class Process {
    var backlog: seq<Item>
    var channel: seq<Event>
    var nextId: nat
    ghost var arrived: seq<Event>
    ghost var taken: seq<Taken>
    ghost var delivered: seq<Event>

    constructor ()
      ensures Snapshot() == Spawned()
    {
      backlog, channel, nextId := [], [], 1;
      arrived, taken, delivered := [], [], [];
    }

    ghost function Snapshot(): Conduit
      reads this
    {
      Conduit(backlog, channel, nextId, arrived, taken, delivered)
    }

    method ReceiveEvent(inputs: seq<Input>) returns (got: Got, rest: seq<Input>)
      modifies this
      ensures Received(Snapshot(), got, rest) == Receive(old(Snapshot()), inputs)
    {
      rest := inputs;
      while rest != []
        invariant Receive(Snapshot(), rest) == Receive(old(Snapshot()), inputs)
        decreases |rest|
      {
        var input := rest[0];
        rest := rest[1..];
        match input {
          case Arrive(e) => channel, arrived := channel + [e], arrived + [e];
          case Take =>
            if channel != [] {
              got := Native(channel[0]);
              channel := channel[1..];
              return;
            }
          case Close => if channel == [] { return Synthetic(Engine(Eof)), rest; }
          case Break(cause) => return Synthetic(Ownership(cause)), rest;
          case Expire => return Nothing, rest;
          case Jam(_) =>
        }
      }
      got := Nothing;
    }

    method RpcExchange(inputs: seq<Input>) returns (disposition: Disposition)
      modifies this
      ensures Outcome(Snapshot(), disposition) == Exchange(old(Snapshot()), inputs)
    {
      if |backlog| >= BACKLOG_LIMIT {
        return UnsentPressure;
      }
      var id := nextId;
      nextId := nextId + 1;
      if inputs != [] && inputs[0].Jam? {
        return Uncertain(inputs[0].reason);
      }
      var rest := inputs;
      while true
        invariant Wait(Snapshot(), id, rest) == Exchange(old(Snapshot()), inputs)
        decreases |rest|
      {
        if |backlog| >= BACKLOG_LIMIT {
          return Uncertain(Pressure);
        }
        ghost var turn := WaitTurn(Snapshot(), id, rest);
        var got;
        got, rest := ReceiveEvent(rest);
        match got {
          case Nothing => return Uncertain(Timeout);
          case Synthetic(Ownership(cause)) =>
            backlog := [Ownership(cause)] + backlog;
            return Uncertain(Transport("engine_ownership_checkpoint_failed"));
          case Synthetic(Engine(_)) => return Uncertain(Closed);
          case Native(e) =>
            if Correlated(e, id) {
              taken := taken + [Taken(e, Answered(id))];
              return ReplyOf(e.v);
            } else if ServerRequest(e) {
              taken := taken + [Taken(e, Denied)];
              if rest != [] && rest[0].Jam? {
                return Uncertain(rest[0].reason);
              }
            } else {
              match e {
                case Json(_) =>
                  taken := taken + [Taken(e, Kept)];
                  backlog := backlog + [Engine(e)];
                case Eof =>
                  taken := taken + [Taken(e, Terminal)];
                  return Uncertain(Closed);
                case Failure(kind) =>
                  taken := taken + [Taken(e, Terminal)];
                  return Uncertain(Transport(kind));
              }
            }
        }
        assert turn == Turn(Snapshot(), None, rest);
      }
    }

    method NextItem(inputs: seq<Input>) returns (item: Option<Item>)
      modifies this
      ensures Pulled(Snapshot(), item) == Next(old(Snapshot()), inputs)
    {
      if backlog != [] && backlog[0].Ownership? {
        item := Some(backlog[0]);
        backlog := backlog[1..];
      } else if backlog != [] {
        if inputs != [] && inputs[0].Break? {
          return Some(Ownership(inputs[0].cause));
        }
        item := Some(backlog[0]);
        delivered := delivered + [backlog[0].event];
        backlog := backlog[1..];
      } else {
        var got, _ := ReceiveEvent(inputs);
        match got {
          case Nothing => item := None;
          case Synthetic(i) => item := Some(i);
          case Native(e) =>
            taken := taken + [Taken(e, Kept)];
            delivered := delivered + [e];
            item := Some(Engine(e));
        }
      }
    }
  }
}

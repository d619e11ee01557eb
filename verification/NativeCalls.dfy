/**
 The native owner's call table (`crates/agent-run-adapters/src/native_owner.rs`), and what
 every sequence of its two operations guarantees.
 */
module NativeCalls {
  import opened Common

  const CAPACITY: nat := 1024

  datatype Request = Request(
    threadId: string, callId: string, text: string, nativePid: nat, nativeStartTime: nat, wakeOnly: bool)

  datatype State = Accepted | KnownUnsent | Unknown

  datatype Reason = Conflict | Capacity | NativeUncertain | OtherReason(code: string)

  datatype Reply = Reply(
    callId: string, state: State, protocol: Option<string>, nativeId: Option<string>, reason: Option<Reason>)

  function UnsentReply(id: string, reason: Reason): Reply {
    Reply(id, KnownUnsent, None, None, Some(reason))
  }

  function UnknownReply(id: string): Reply {
    Reply(id, Unknown, None, None, Some(NativeUncertain))
  }

  /** The digest of a typed request. */
  type Digest = Request -> string

  type Table = map<string, (string, Reply)>

  /** `None` grants the call; otherwise this is the refusal or the retained receipt. */
  function Answer(d: Digest, t: Table, r: Request): Option<Reply> {
    if r.callId in t then
      Some(if t[r.callId].0 == d(r) then t[r.callId].1 else UnsentReply(r.callId, Conflict))
    else if |t| >= CAPACITY then Some(UnsentReply(r.callId, Capacity))
    else None
  }

  function Reserved(d: Digest, t: Table, r: Request): Table {
    if Answer(d, t, r).None? then t[r.callId := (d(r), UnknownReply(r.callId))] else t
  }

  function Finished(t: Table, reply: Reply): Table {
    if reply.callId in t then t[reply.callId := (t[reply.callId].0, reply)] else t
  }

  class Calls {
    var entries: Table

    constructor ()
      ensures entries == map[]
    {
      entries := map[];
    }

    method Reserve(d: Digest, request: Request) returns (r: Result<(), Reply>)
      modifies this
      ensures entries == Reserved(d, old(entries), request)
      ensures r == match Answer(d, old(entries), request) case None => Ok(()) case Some(reply) => Err(reply)
    {
      var hash := d(request);
      if request.callId in entries {
        var (prior, reply) := entries[request.callId];
        if prior == hash {
          return Err(reply);
        }
        return Err(UnsentReply(request.callId, Conflict));
      }
      if |entries| >= CAPACITY {
        return Err(UnsentReply(request.callId, Capacity));
      }
      entries := entries[request.callId := (hash, UnknownReply(request.callId))];
      return Ok(());
    }

    method Finish(reply: Reply)
      modifies this
      ensures entries == Finished(old(entries), reply)
    {
      if reply.callId in entries {
        var (hash, _) := entries[reply.callId];
        entries := entries[reply.callId := (hash, reply)];
      }
    }
  }

  // ----- Every sequence of calls -----

  datatype Event = Reserve(request: Request) | Finish(reply: Reply)

  function TableAfter(d: Digest, es: seq<Event>): Table {
    if es == [] then map[] else
    var t, e := TableAfter(d, es[..|es| - 1]), es[|es| - 1];
    match e case Reserve(r) => Reserved(d, t, r) case Finish(reply) => Finished(t, reply)
  }

  /** The `i`-th event reserves and is granted. */
  predicate GrantedAt(d: Digest, es: seq<Event>, i: nat) {
    i < |es| && es[i].Reserve? && Answer(d, TableAfter(d, es[..i]), es[i].request).None?
  }

  predicate Grants(d: Digest, es: seq<Event>, i: nat, id: string) {
    GrantedAt(d, es, i) && es[i].request.callId == id
  }

  function GrantCount(d: Digest, es: seq<Event>): nat {
    if es == [] then 0 else GrantCount(d, es[..|es| - 1]) + (if GrantedAt(d, es, |es| - 1) then 1 else 0)
  }

  /** The last receipt finished for `id` since event `from`, or unknown. */
  function LatestReceipt(es: seq<Event>, id: string, from: nat): Reply
    decreases |es|
  {
    if |es| <= from then Reply(id, Unknown, None, None, Some(NativeUncertain)) else
    var last := es[|es| - 1];
    if last.Finish? && last.reply.callId == id then last.reply else LatestReceipt(es[..|es| - 1], id, from)
  }

  lemma GrantsExtend(d: Digest, es: seq<Event>, i: nat, id: string)
    requires es != [] && i < |es| - 1
    ensures Grants(d, es, i, id) <==> Grants(d, es[..|es| - 1], i, id)
  {
    assert es[..|es| - 1][..i] == es[..i];
  }

  /** A granted id is held from then on. */
  lemma {:induction false} GrantedIsHeld(d: Digest, es: seq<Event>, i: nat, id: string)
    requires Grants(d, es, i, id)
    ensures id in TableAfter(d, es)
    decreases |es|
  {
    if i < |es| - 1 {
      GrantsExtend(d, es, i, id);
      GrantedIsHeld(d, es[..|es| - 1], i, id);
    }
  }

  /** A held id was granted; its digest is the granted request's and its receipt the latest since. */
  lemma {:induction false} HeldWasGranted(d: Digest, es: seq<Event>, id: string) returns (g: nat)
    requires id in TableAfter(d, es)
    ensures Grants(d, es, g, id)
    ensures TableAfter(d, es)[id] == (d(es[g].request), LatestReceipt(es, id, g + 1))
    decreases |es|
  {
    var n := |es| - 1;
    if id in TableAfter(d, es[..n]) {
      g := HeldWasGranted(d, es[..n], id);
      GrantsExtend(d, es, g, id);
    } else {
      g := n;
    }
  }

  /** The table holds as many ids as were granted. */
  lemma {:induction false} TableCountsGrants(d: Digest, es: seq<Event>)
    ensures |TableAfter(d, es)| == GrantCount(d, es) <= CAPACITY
    decreases |es|
  {
    if es != [] {
      TableCountsGrants(d, es[..|es| - 1]);
      TableGrowth(d, es);
    }
  }

  lemma TableGrowth(d: Digest, es: seq<Event>)
    requires es != []
    ensures |TableAfter(d, es)| == |TableAfter(d, es[..|es| - 1])| + (if GrantedAt(d, es, |es| - 1) then 1 else 0)
    ensures GrantedAt(d, es, |es| - 1) ==> |TableAfter(d, es[..|es| - 1])| < CAPACITY
  {
  }

  /** Each call id is granted at most once. */
  lemma GrantedAtMostOnce(d: Digest, es: seq<Event>, i: nat, j: nat, id: string)
    requires Grants(d, es, i, id) && Grants(d, es, j, id)
    ensures i == j
  {
    if i < j {
      EarlierGrantHolds(d, es, i, j, id);
    } else if j < i {
      EarlierGrantHolds(d, es, j, i, id);
    }
  }

  lemma EarlierGrantHolds(d: Digest, es: seq<Event>, i: nat, j: nat, id: string)
    requires i < j <= |es| && Grants(d, es, i, id)
    ensures id in TableAfter(d, es[..j]) && Grants(d, es[..j], i, id)
  {
    assert es[..j][..i] == es[..i];
    GrantedIsHeld(d, es[..j], i, id);
  }

  /** At most 1024 ids are ever granted. */
  lemma GrantsAreBounded(d: Digest, es: seq<Event>)
    ensures GrantCount(d, es) <= 1024
  {
    TableCountsGrants(d, es);
  }

  /**
   What any reservation is answered, told by the past events alone: after a grant of its id at
   event `g`, the latest receipt if the request has the granted digest and a conflict otherwise.
   */
  lemma AnswerAfterGrant(d: Digest, es: seq<Event>, g: nat, r: Request)
    requires Grants(d, es, g, r.callId)
    ensures Answer(d, TableAfter(d, es), r) ==
      Some(if d(es[g].request) == d(r) then LatestReceipt(es, r.callId, g + 1)
           else Reply(r.callId, KnownUnsent, None, None, Some(Conflict)))
  {
    GrantedIsHeld(d, es, g, r.callId);
    var h := HeldWasGranted(d, es, r.callId);
    GrantedAtMostOnce(d, es, g, h, r.callId);
  }

  /** An id never granted is granted now, unless 1024 others were: then it is refused for capacity. */
  lemma AnswerWithoutGrant(d: Digest, es: seq<Event>, r: Request)
    requires forall i: nat :: !Grants(d, es, i, r.callId)
    ensures Answer(d, TableAfter(d, es), r) ==
      if GrantCount(d, es) < 1024 then None else Some(Reply(r.callId, KnownUnsent, None, None, Some(Capacity)))
  {
    TableCountsGrants(d, es);
    if r.callId in TableAfter(d, es) {
      var g := HeldWasGranted(d, es, r.callId);
    }
  }

  /** Once full, the table grants nothing more, whatever follows. */
  lemma {:induction false} FullNeverReopens(d: Digest, es: seq<Event>, more: seq<Event>)
    requires GrantCount(d, es) == CAPACITY
    ensures GrantCount(d, es + more) == CAPACITY
    ensures TableAfter(d, es + more).Keys == TableAfter(d, es).Keys
    decreases |more|
  {
    if more == [] {
      assert es + more == es;
    } else {
      var m := |more| - 1;
      var all := es + more;
      assert all[..|all| - 1] == es + more[..m];
      FullNeverReopens(d, es, more[..m]);
      TableCountsGrants(d, es + more[..m]);
    }
  }

  /** Every reply carries the id that was asked about. */
  lemma ReplyNamesItsCall(d: Digest, es: seq<Event>, r: Request)
    ensures var a := Answer(d, TableAfter(d, es), r); a.Some? ==> a.value.callId == r.callId
  {
    if r.callId in TableAfter(d, es) {
      var g := HeldWasGranted(d, es, r.callId);
      ReceiptNamesItsCall(es, r.callId, g + 1);
    }
  }

  lemma {:induction false} ReceiptNamesItsCall(es: seq<Event>, id: string, from: nat)
    ensures LatestReceipt(es, id, from).callId == id
    decreases |es|
  {
    if |es| > from {
      ReceiptNamesItsCall(es[..|es| - 1], id, from);
    }
  }

  /** An accepted answer is always one that a finished call reported; reserving never makes one up. */
  lemma AcceptanceWasReported(d: Digest, es: seq<Event>, r: Request)
    ensures var a := Answer(d, TableAfter(d, es), r);
      a.Some? && a.value.state.Accepted? ==> Finish(a.value) in es
  {
    if r.callId in TableAfter(d, es) {
      var g := HeldWasGranted(d, es, r.callId);
      ReceiptWasReported(es, r.callId, g + 1);
    }
  }

  lemma {:induction false} ReceiptWasReported(es: seq<Event>, id: string, from: nat)
    ensures var a := LatestReceipt(es, id, from); a == UnknownReply(id) || Finish(a) in es
    decreases |es|
  {
    if |es| > from {
      ReceiptWasReported(es[..|es| - 1], id, from);
      assert es == es[..|es| - 1] + [es[|es| - 1]];
    }
  }
}

/** The outbox table, its leases, and the dispatcher that publishes from it. */
module OutboxStore {
  import opened Outcomes
  import opened OutboxRules

  function Reclaimed(m: Message, now: int): Message {
    if m.state == Leased && m.lease.Lease? && m.lease.expires <= now then
      if m.attempts < MAX_ATTEMPTS then m.(state := Pending, lease := NoLease)
      else m.(state := Failed, lease := NoLease, error := Some("retry_exhausted"))
    else m
  }

  function LeasedTo(m: Message, worker: string, expires: int): Message {
    m.(state := Leased, lease := Lease(worker, expires), attempts := m.attempts + 1)
  }

  function Retried(m: Message, availableAt: int, error: string): Message {
    m.(state := if m.attempts >= MAX_ATTEMPTS then Failed else Pending,
       availableAt := availableAt, lease := NoLease, error := Some(error))
  }

  predicate Owns(messages: seq<Message>, i: MessageId, worker: string) {
    i < |messages| && messages[i].state == Leased && messages[i].lease.Lease? && messages[i].lease.owner == worker
  }

  predicate Distinct(ids: seq<MessageId>) {
    forall a, b :: 0 <= a < b < |ids| ==> ids[a] != ids[b]
  }

  ghost predicate ReclaimedRows(before: seq<Message>, after: seq<Message>, now: int) {
    |before| == |after| && forall j :: 0 <= j < |before| ==> after[j] == Reclaimed(before[j], now)
  }

  /** The first `limit` eligible messages, in order. */
  ghost predicate Selected(messages: seq<Message>, now: int, limit: nat, ids: seq<MessageId>) {
    && Distinct(ids) && |ids| <= limit
    && (forall a :: 0 <= a < |ids| ==> Eligible(messages, now, ids[a]))
    && (forall a, b :: 0 <= a < b < |ids| ==> !Before(messages[ids[b]], messages[ids[a]]))
    && forall j: MessageId :: Eligible(messages, now, j) && j !in ids
         ==> |ids| == limit && forall a :: 0 <= a < |ids| ==> !Before(messages[j], messages[ids[a]])
  }

  /** The rows after a lease call that chose `ids`, in terms of the reclaimed rows before it. */
  ghost predicate LeasedExactly(
    before: seq<Message>, after: seq<Message>, ids: seq<MessageId>, worker: string, expires: int)
  {
    && |before| == |after|
    && forall j :: 0 <= j < |before| ==>
         after[j] == if j in ids then LeasedTo(before[j], worker, expires) else before[j]
  }

  /** The eligible message outside `taken` that no other such message precedes. */
  method FirstEligible(messages: seq<Message>, now: int, taken: seq<MessageId>) returns (best: Option<MessageId>)
    ensures best.Some? ==>
              && Eligible(messages, now, best.value) && best.value !in taken
              && forall j: MessageId :: Eligible(messages, now, j) && j !in taken ==> !Before(messages[j], messages[best.value])
    ensures best.None? ==> forall j: MessageId :: Eligible(messages, now, j) ==> j in taken
  {
    best := None;
    for i := 0 to |messages|
      invariant best.None? ==> forall j: MessageId :: j < i && Eligible(messages, now, j) ==> j in taken
      invariant best.Some? ==>
                  && best.value < i && Eligible(messages, now, best.value) && best.value !in taken
                  && forall j: MessageId :: j < i && Eligible(messages, now, j) && j !in taken
                       ==> !Before(messages[j], messages[best.value])
    {
      if Eligible(messages, now, i) && i !in taken {
        if best.None? || Before(messages[i], messages[best.value]) {
          best := Some(i);
        }
      }
    }
  }

  method SelectBatch(messages: seq<Message>, now: int, limit: nat) returns (ids: seq<MessageId>)
    ensures Selected(messages, now, limit, ids)
  {
    ids := [];
    while |ids| < limit
      invariant Distinct(ids) && |ids| <= limit
      invariant forall a :: 0 <= a < |ids| ==> Eligible(messages, now, ids[a])
      invariant forall a, b :: 0 <= a < b < |ids| ==> !Before(messages[ids[b]], messages[ids[a]])
      invariant forall j: MessageId :: Eligible(messages, now, j) && j !in ids
                  ==> forall a :: 0 <= a < |ids| ==> !Before(messages[j], messages[ids[a]])
    {
      var next := FirstEligible(messages, now, ids);
      if next.None? {
        return;
      }
      ids := ids + [next.value];
    }
  }

  /** Leasing eligible rows, and nothing else, keeps the order, the row invariants and the publication accounts. */
  lemma {:induction false} LeasingIsSafe(
    before: seq<Message>, after: seq<Message>, log: seq<MessageId>, ids: seq<MessageId>,
    now: int, worker: string, expires: int)
    requires AllSound(before) && KeysUnique(before) && Accounted(before, log)
    requires forall a :: 0 <= a < |ids| ==> Eligible(before, now, ids[a])
    requires LeasedExactly(before, after, ids, worker, expires)
    ensures AllSound(after) && KeysUnique(after) && Accounted(after, log) && Later(before, after)
    ensures InOrder(before, log) ==> InOrder(after, log)
  {
    forall i | 0 <= i < |after|
      ensures Sound(after[i]) && SameMessage(before[i], after[i]) && before[i].attempts <= after[i].attempts
      ensures before[i].state == Sent <==> after[i].state == Sent
      ensures before[i].state == Sent ==> after[i] == before[i]
    {
      assert Sound(before[i]);
      if i in ids {
        var a :| 0 <= a < |ids| && ids[a] == i;
        assert Eligible(before, now, ids[a]);
      }
    }
    if InOrder(before, log) {
      forall i: MessageId | i < |after| && after[i].attempts > 0 && before[i].attempts == 0
        ensures Unblocked(after, i)
      {
        assert i in ids;
        var a :| 0 <= a < |ids| && ids[a] == i;
        assert Eligible(before, now, ids[a]);
      }
      OrderStays(before, after, log);
    }
  }

  /** One row that is not sent, or was just published, moves on. */
  lemma {:induction false} MovingIsSafe(messages: seq<Message>, log: seq<MessageId>, i: MessageId, m: Message)
    requires AllSound(messages) && KeysUnique(messages) && Accounted(messages, log)
    requires i < |messages| && messages[i].state != Sent && Sound(m)
    requires SameMessage(messages[i], m) && m.attempts == messages[i].attempts && (m.state == Sent ==> i in log)
    ensures var after := messages[i := m];
            && AllSound(after) && KeysUnique(after) && Accounted(after, log) && Later(messages, after)
            && (InOrder(messages, log) ==> InOrder(after, log))
  {
    if InOrder(messages, log) {
      OrderStays(messages, messages[i := m], log);
    }
  }

  class Outbox {
    var messages: seq<Message>
    ghost var log: seq<MessageId>

    ghost predicate Valid()
      reads this
    {
      AllSound(messages) && KeysUnique(messages) && Accounted(messages, log)
    }

    ghost predicate Ordered()
      reads this
    {
      InOrder(messages, log)
    }

    constructor ()
      ensures Valid() && Ordered() && messages == [] && log == []
    {
      messages, log := [], [];
    }

    /** A draft whose idempotency key is already stored is dropped in silence. */
    method Insert(draft: Draft, task: nat, now: int, uuid: int) returns (stored: bool)
      requires Valid()
      modifies this`messages
      ensures Valid()
      ensures stored <==> forall i :: 0 <= i < |old(messages)| ==> old(messages)[i].draft.idempotencyKey != draft.idempotencyKey
      ensures var m := Message(task, draft, now, uuid, Pending, draft.availableAt, 0, NoLease, None, None);
              && messages == (if stored then old(messages) + [m] else old(messages))
              && (old(Ordered()) ==> (Ordered() <==> stored ==> NothingLaterStarted(old(messages), m)))
    {
      for i := 0 to |messages|
        invariant forall j :: 0 <= j < i ==> messages[j].draft.idempotencyKey != draft.idempotencyKey
      {
        if messages[i].draft.idempotencyKey == draft.idempotencyKey {
          return false;
        }
      }
      var m := Message(task, draft, now, uuid, Pending, draft.availableAt, 0, NoLease, None, None);
      if Ordered() {
        InsertKeepsOrder(messages, log, m);
      }
      assert |messages| !in log;
      messages := messages + [m];
      stored := true;
    }

    method ReclaimExpired(now: int)
      requires Valid()
      modifies this`messages
      ensures Valid() && ReclaimedRows(old(messages), messages, now) && Later(old(messages), messages)
      ensures old(Ordered()) ==> Ordered()
    {
      for i := 0 to |messages|
        invariant Valid() && |messages| == |old(messages)| && Later(old(messages), messages)
        invariant old(Ordered()) ==> Ordered()
        invariant forall j :: 0 <= j < |messages| ==>
                    messages[j] == if j < i then Reclaimed(old(messages)[j], now) else old(messages)[j]
      {
        assert Sound(messages[i]);
        if messages[i].state == Leased && messages[i].lease.expires <= now {
          ghost var before := messages;
          MovingIsSafe(messages, log, i, Reclaimed(messages[i], now));
          messages := messages[i := Reclaimed(messages[i], now)];
          LaterTransitive(old(messages), before, messages);
        }
      }
    }

    /**
     Returns expired leases, then leases the first `limit` messages that nothing
     unsent of their task precedes. A shorter batch means that no such message is left.
     */
    method LeaseMessages(worker: string, now: int, leaseMs: int, limit: int)
      returns (r: Result<seq<MessageId>, ()>, ghost rows: seq<Message>)
      requires Valid()
      modifies this`messages
      ensures Valid() && Later(old(messages), messages)
      ensures old(Ordered()) ==> Ordered()
      ensures r.Err? <==> worker == "" || leaseMs <= 0 || limit <= 0
      ensures r.Err? ==> messages == old(messages)
      ensures r.Ok? ==>
                && ReclaimedRows(old(messages), rows, now)
                && Selected(rows, now, limit, r.value)
                && LeasedExactly(rows, messages, r.value, worker, now + leaseMs)
    {
      if worker == "" || leaseMs <= 0 || limit <= 0 {
        return Err(()), messages;
      }
      ReclaimExpired(now);
      var ids := SelectBatch(messages, now, limit);
      rows := messages;
      LeaseRows(ids, now, worker, now + leaseMs);
      LaterTransitive(old(messages), rows, messages);
      r := Ok(ids);
    }

    method LeaseRows(ids: seq<MessageId>, now: int, worker: string, expires: int)
      requires Valid() && Distinct(ids) && forall a :: 0 <= a < |ids| ==> Eligible(messages, now, ids[a])
      modifies this`messages
      ensures Valid() && LeasedExactly(old(messages), messages, ids, worker, expires) && Later(old(messages), messages)
      ensures old(Ordered()) ==> Ordered()
    {
      ghost var rows := messages;
      for k := 0 to |ids|
        invariant |messages| == |rows|
        invariant forall j :: 0 <= j < |rows| ==>
                    messages[j] == if j in ids[..k] then LeasedTo(rows[j], worker, expires) else rows[j]
      {
        assert Eligible(rows, now, ids[k]);
        assert ids[..k + 1] == ids[..k] + [ids[k]];
        assert ids[k] !in ids[..k];
        messages := messages[ids[k] := LeasedTo(messages[ids[k]], worker, expires)];
      }
      assert ids[..|ids|] == ids;
      LeasingIsSafe(rows, messages, log, ids, now, worker, expires);
    }

    /** A worker publishes what some lease handed to it, however late. */
    ghost method Publish(i: MessageId)
      requires Valid() && i < |messages| && Publications(log, i) < messages[i].attempts
      modifies this`log
      ensures Valid() && log == old(log) + [i]
      ensures old(Ordered()) ==> Ordered()
    {
      PublishingKeepsOrder(messages, log, i);
      log := log + [i];
    }

    method MarkSent(i: MessageId, worker: string, upstream: string) returns (ok: bool)
      requires Valid() && i in log
      modifies this`messages
      ensures Valid() && Later(old(messages), messages)
      ensures old(Ordered()) ==> Ordered()
      ensures ok <==> Owns(old(messages), i, worker)
      ensures messages == if ok then old(messages)[i := old(messages)[i].(state := Sent, upstream := Some(upstream), lease := NoLease)]
                          else old(messages)
    {
      if !(i < |messages| && messages[i].state == Leased && messages[i].lease.owner == worker) {
        return false;
      }
      var m := messages[i].(state := Sent, upstream := Some(upstream), lease := NoLease);
      assert Sound(messages[i]);
      MovingIsSafe(messages, log, i, m);
      messages := messages[i := m];
      ok := true;
    }

    /** Back to the queue, or for good to `failed` once the attempts are used up. */
    method Retry(i: MessageId, worker: string, error: string, availableAt: int) returns (ok: bool)
      requires Valid()
      modifies this`messages
      ensures Valid() && Later(old(messages), messages)
      ensures old(Ordered()) ==> Ordered()
      ensures ok <==> Owns(old(messages), i, worker)
      ensures messages == if ok then old(messages)[i := Retried(old(messages)[i], availableAt, error)] else old(messages)
    {
      if !(i < |messages| && messages[i].state == Leased && messages[i].lease.owner == worker) {
        return false;
      }
      assert Sound(messages[i]);
      MovingIsSafe(messages, log, i, Retried(messages[i], availableAt, error));
      messages := messages[i := Retried(messages[i], availableAt, error)];
      ok := true;
    }
  }
}

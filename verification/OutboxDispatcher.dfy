/** The worker that publishes leased outbox messages, while other workers may do the same. */
module OutboxDispatcher {
  import opened Outcomes
  import opened OutboxRules
  import opened OutboxStore

  datatype Batch = Batch(sent: seq<MessageId>, retries: seq<MessageId>)

  /** A publisher answers with a reference, or with an exception of some name. */
  datatype Answer = Accepted(upstream: string) | Raised(name: string)

  datatype Delivery = SentOn | PutBack | LeaseLost

  /** Another worker with its own lease time and batch size. */
  datatype Rival = Rival(worker: string, leaseMs: int, limit: int)

  /** Rows whose lease still owes them a publication. */
  ghost predicate Permitted(messages: seq<Message>, log: seq<MessageId>, ids: seq<MessageId>) {
    forall a :: 0 <= a < |ids| ==> ids[a] < |messages| && Publications(log, ids[a]) < messages[ids[a]].attempts
  }

  ghost predicate AllOwned(messages: seq<Message>, ids: seq<MessageId>, worker: string) {
    forall a :: 0 <= a < |ids| ==> Owns(messages, ids[a], worker)
  }

  predicate Reachable(publishers: set<string>, m: Message) {
    m.draft.publisher in publishers
  }

  function FailureName(publishers: set<string>, m: Message, a: Answer): string {
    if !Reachable(publishers, m) then "LookupError" else if a.Raised? then a.name else ""
  }

  /** What a batch says: its sent messages are sent for good, the others got no answer. */
  ghost predicate Truthful(messages: seq<Message>, batch: Batch, answers: MessageId -> Answer, publishers: set<string>) {
    && (forall i :: i in batch.sent ==> i < |messages| && answers(i).Accepted? && messages[i].state == Sent)
    && (forall i :: i in batch.retries ==> i < |messages| && (answers(i).Raised? || !Reachable(publishers, messages[i])))
  }

  function Noted(batch: Batch, i: MessageId, d: Delivery): Batch {
    match d
    case LeaseLost => batch
    case SentOn => batch.(sent := batch.sent + [i])
    case PutBack => batch.(retries := batch.retries + [i])
  }

  lemma {:induction false} StaysTruthful(
    before: seq<Message>, after: seq<Message>, batch: Batch, answers: MessageId -> Answer, publishers: set<string>,
    i: MessageId, d: Delivery)
    requires Truthful(before, batch, answers, publishers) && Later(before, after) && i < |before| && d != LeaseLost
    requires d == SentOn <==> answers(i).Accepted? && Reachable(publishers, before[i])
    requires d == SentOn ==> after[i].state == Sent
    ensures Truthful(after, Noted(batch, i, d), answers, publishers)
  {
    assert SameMessage(before[i], after[i]);
  }

  lemma {:induction false} OneMoreAccountedFor(batch: Batch, ids: seq<MessageId>, k: nat, d: Delivery)
    requires k < |ids| && d != LeaseLost
    requires multiset(batch.sent) + multiset(batch.retries) == multiset(ids[..k])
    ensures var noted := Noted(batch, ids[k], d);
            multiset(noted.sent) + multiset(noted.retries) == multiset(ids[..k + 1])
  {
    assert ids[..k + 1] == ids[..k] + [ids[k]];
  }

  lemma {:induction false} FreshLeasesPermit(
    before: seq<Message>, after: seq<Message>, log: seq<MessageId>, ids: seq<MessageId>, worker: string, expires: int)
    requires Accounted(before, log) && LeasedExactly(before, after, ids, worker, expires)
    requires forall a :: 0 <= a < |ids| ==> ids[a] < |before|
    ensures Permitted(after, log, ids) && AllOwned(after, ids, worker)
  {
    forall a | 0 <= a < |ids|
      ensures Publications(log, ids[a]) < after[ids[a]].attempts && Owns(after, ids[a], worker)
    {
      assert ids[a] in ids;
    }
  }

  /** Publishing one message leaves the permits of the rest of the batch alone. */
  lemma {:induction false} OthersStayPermitted(
    before: seq<Message>, after: seq<Message>, log: seq<MessageId>, longer: seq<MessageId>, ids: seq<MessageId>, k: nat)
    requires k < |ids| && Distinct(ids) && Later(before, after)
    requires longer == log || longer == log + [ids[k]]
    requires Permitted(before, log, ids[k..])
    ensures Permitted(after, longer, ids[k + 1..])
  {
    var left: seq<MessageId> := ids[k + 1..];
    forall a: nat | a < |left|
      ensures left[a] < |after| && Publications(longer, left[a]) < after[left[a]].attempts
    {
      assert left[a] == ids[k + 1 + a] == ids[k..][a + 1];
      assert left[a] != ids[k];
    }
  }

  class Dispatcher {
    const store: Outbox
    const publishers: set<string>
    const workerId: string
    const leaseMs: int
    const retryDelayMs: nat

    constructor (store: Outbox, publishers: set<string>, workerId: string, leaseMs: int, retryDelayMs: nat)
      requires workerId != "" && leaseMs >= 1
      ensures this.store == store && this.publishers == publishers && this.workerId == workerId
      ensures this.leaseMs == leaseMs && this.retryDelayMs == retryDelayMs
    {
      this.store, this.publishers, this.workerId := store, publishers, workerId;
      this.leaseMs, this.retryDelayMs := leaseMs, retryDelayMs;
    }

    /** Writes down how the publication went, if the lease is still this worker's. */
    method Record(i: MessageId, upstream: Option<string>, error: string, now: int) returns (d: Delivery)
      requires store.Valid() && (upstream.Some? ==> i in store.log)
      modifies store`messages
      ensures store.Valid() && Later(old(store.messages), store.messages)
      ensures old(store.Ordered()) ==> store.Ordered()
      ensures d == LeaseLost <==> !Owns(old(store.messages), i, workerId)
      ensures d == LeaseLost ==> store.messages == old(store.messages)
      ensures d != LeaseLost ==> (d == SentOn <==> upstream.Some?)
      ensures d == SentOn ==> store.messages[i].state == Sent && store.messages[i].upstream == upstream
      ensures d == PutBack ==> store.messages[i] == Retried(old(store.messages)[i], now + retryDelayMs, error)
      ensures forall j: MessageId :: j < |store.messages| && j != i ==> store.messages[j] == old(store.messages)[j]
    {
      var ok: bool;
      if upstream.Some? {
        ok := store.MarkSent(i, workerId, upstream.value);
        d := if ok then SentOn else LeaseLost;
      } else {
        ok := store.Retry(i, workerId, error, now + retryDelayMs);
        d := if ok then PutBack else LeaseLost;
      }
    }

    /** Another worker leases messages of its own, and expired ones of this worker. */
    method Interrupt(rival: Rival, at: int)
      requires store.Valid()
      modifies store`messages
      ensures store.Valid() && Later(old(store.messages), store.messages)
      ensures old(store.Ordered()) ==> store.Ordered()
    {
      var _, _ := store.LeaseMessages(rival.worker, at, rival.leaseMs, rival.limit);
    }

    /**
     Publishes one leased message and records the answer. Meanwhile another worker may
     have taken it over, if its lease ran out; then nothing is recorded.
     */
    method Deliver(i: MessageId, answers: MessageId -> Answer, rival: Rival, interruption: Option<int>, now: int)
      returns (d: Delivery)
      requires store.Valid() && i < |store.messages| && Publications(store.log, i) < store.messages[i].attempts
      modifies store
      ensures store.Valid() && Later(old(store.messages), store.messages)
      ensures old(store.Ordered()) ==> store.Ordered()
      ensures store.log == if Reachable(publishers, old(store.messages)[i]) then old(store.log) + [i] else old(store.log)
      ensures d == LeaseLost ==> !Owns(store.messages, i, workerId)
      ensures d != LeaseLost ==> (d == SentOn <==> answers(i).Accepted? && Reachable(publishers, old(store.messages)[i]))
      ensures d == SentOn ==> store.messages[i].state == Sent && store.messages[i].upstream == Some(answers(i).upstream)
      ensures d == PutBack ==> store.messages[i].state == Pending || store.messages[i].state == Failed
      ensures d == PutBack ==>
                && store.messages[i].error == Some(FailureName(publishers, old(store.messages)[i], answers(i)))
                && store.messages[i].availableAt == now + retryDelayMs
      ensures interruption.None? && Owns(old(store.messages), i, workerId) ==>
                && d != LeaseLost
                && forall j: MessageId :: j < |store.messages| && j != i ==> store.messages[j] == old(store.messages)[j]
    {
      var known := Reachable(publishers, store.messages[i]);
      if known {
        store.Publish(i);
        assert store.log[|store.log| - 1] == i;
      }
      if interruption.Some? {
        Interrupt(rival, interruption.value);
      }
      ghost var middle := store.messages;
      var upstream := if known && answers(i).Accepted? then Some(answers(i).upstream) else None;
      d := Record(i, upstream, FailureName(publishers, store.messages[i], answers(i)), now);
      LaterTransitive(old(store.messages), middle, store.messages);
    }

    /**
     One round: every leased message ends up sent or put back, unless a lease was
     lost to a rival, which stops the round. Without rivals no round is stopped.
     */
    method RunOnce(
      answers: MessageId -> Answer, rival: Rival, interruptions: map<MessageId, int>, now: int, limit: int)
      returns (ids: seq<MessageId>, r: Result<Batch, MessageId>, ghost rows: seq<Message>)
      requires store.Valid() && workerId != "" && leaseMs >= 1 && limit >= 1
      modifies store
      ensures store.Valid() && Later(old(store.messages), store.messages)
      ensures old(store.Ordered()) ==> store.Ordered()
      ensures ReclaimedRows(old(store.messages), rows, now) && Selected(rows, now, limit, ids)
      ensures r.Ok? ==> multiset(r.value.sent) + multiset(r.value.retries) == multiset(ids)
      ensures r.Ok? ==> Truthful(store.messages, r.value, answers, publishers)
      ensures r.Err? ==> !Owns(store.messages, r.error, workerId)
      ensures interruptions == map[] ==> r.Ok?
    {
      var leased: Result<seq<MessageId>, ()>;
      leased, rows := store.LeaseMessages(workerId, now, leaseMs, limit);
      ids := leased.value;
      AccountsSurviveReclaim(old(store.messages), rows, store.log, now);
      FreshLeasesPermit(rows, store.messages, store.log, ids, workerId, now + leaseMs);
      ghost var middle := store.messages;
      r := DeliverAll(ids, answers, rival, interruptions, now);
      LaterTransitive(old(store.messages), middle, store.messages);
    }

    method DeliverAll(
      ids: seq<MessageId>, answers: MessageId -> Answer, rival: Rival, interruptions: map<MessageId, int>, now: int)
      returns (r: Result<Batch, MessageId>)
      requires store.Valid() && Distinct(ids) && Permitted(store.messages, store.log, ids)
      requires AllOwned(store.messages, ids, workerId)
      modifies store
      ensures store.Valid() && Later(old(store.messages), store.messages)
      ensures old(store.Ordered()) ==> store.Ordered()
      ensures r.Ok? ==> multiset(r.value.sent) + multiset(r.value.retries) == multiset(ids)
      ensures r.Ok? ==> Truthful(store.messages, r.value, answers, publishers)
      ensures r.Err? ==> !Owns(store.messages, r.error, workerId)
      ensures interruptions == map[] ==> r.Ok?
    {
      var batch := Batch([], []);
      for k := 0 to |ids|
        invariant store.Valid() && Later(old(store.messages), store.messages)
        invariant old(store.Ordered()) ==> store.Ordered()
        invariant Permitted(store.messages, store.log, ids[k..])
        invariant multiset(batch.sent) + multiset(batch.retries) == multiset(ids[..k])
        invariant Truthful(store.messages, batch, answers, publishers)
        invariant interruptions == map[] ==> AllOwned(store.messages, ids[k..], workerId)
      {
        var i := ids[k];
        assert ids[k..][0] == i;
        ghost var before, logged := store.messages, store.log;
        var d := Deliver(i, answers, rival, if i in interruptions then Some(interruptions[i]) else None, now);
        OthersStayPermitted(before, store.messages, logged, store.log, ids, k);
        LaterTransitive(old(store.messages), before, store.messages);
        if interruptions == map[] {
          StillOwned(before, store.messages, ids, k, workerId);
        }
        if d == LeaseLost {
          return Err(i);
        }
        StaysTruthful(before, store.messages, batch, answers, publishers, i, d);
        OneMoreAccountedFor(batch, ids, k, d);
        batch := Noted(batch, i, d);
      }
      assert ids[..|ids|] == ids;
      r := Ok(batch);
    }
  }

  lemma {:induction false} AccountsSurviveReclaim(
    before: seq<Message>, rows: seq<Message>, log: seq<MessageId>, now: int)
    requires Accounted(before, log) && ReclaimedRows(before, rows, now)
    ensures Accounted(rows, log)
  {
    forall i: MessageId | i < |rows|
      ensures multiset(log)[i] <= rows[i].attempts && (rows[i].state == Sent ==> i in log)
    {
      assert rows[i] == Reclaimed(before[i], now);
    }
  }

  lemma {:induction false} StillOwned(
    before: seq<Message>, after: seq<Message>, ids: seq<MessageId>, k: nat, worker: string)
    requires k < |ids| && Distinct(ids) && AllOwned(before, ids[k..], worker) && |before| == |after|
    requires forall j: MessageId :: j < |after| && j != ids[k] ==> after[j] == before[j]
    ensures AllOwned(after, ids[k + 1..], worker)
  {
    var left: seq<MessageId> := ids[k + 1..];
    forall a: nat | a < |left|
      ensures Owns(after, left[a], worker)
    {
      assert left[a] == ids[k + 1 + a] == ids[k..][a + 1];
      assert Owns(before, ids[k..][a + 1], worker);
    }
  }
}

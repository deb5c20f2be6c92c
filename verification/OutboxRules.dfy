/** What the durable outbox keeps per message, and what its delivery order promises. */
module OutboxRules {
  import opened Outcomes

  type MessageId = nat

  const MAX_ATTEMPTS: nat := 8

  datatype Kind = Acknowledgement | Progress | Approval | OtherKind(name: string)

  datatype MessageState = Pending | Leased | Sent | Failed

  datatype Lease = NoLease | Lease(owner: string, expires: int)

  datatype Draft = Draft(publisher: string, kind: Kind, idempotencyKey: string, availableAt: int)

  /** A row; `task` is the task it reports on and `uuid` stands for the order of the random row name. */
  datatype Message = Message(
    task: nat, draft: Draft, createdAt: int, uuid: int,
    state: MessageState, availableAt: int, attempts: nat, lease: Lease,
    error: Option<string>, upstream: Option<string>)

  function Rank(kind: Kind): nat {
    match kind
    case Acknowledgement => 0
    case Progress => 1
    case Approval => 2
    case OtherKind(_) => 3
  }

  /** Strictly earlier by creation time, then by the rank of the kind. */
  predicate Earlier(a: Message, b: Message) {
    a.createdAt < b.createdAt || (a.createdAt == b.createdAt && Rank(a.draft.kind) < Rank(b.draft.kind))
  }

  /** The order in which a batch is handed out. */
  predicate Before(a: Message, b: Message) {
    Earlier(a, b) || (!Earlier(b, a) && a.uuid < b.uuid)
  }

  /** Pending and failed rows say by themselves whether another attempt is allowed. */
  predicate Sound(m: Message) {
    && m.attempts <= MAX_ATTEMPTS
    && (m.state == Leased <==> m.lease.Lease?)
    && (m.state == Leased || m.state == Sent ==> m.attempts > 0)
    && (m.state == Pending ==> m.attempts < MAX_ATTEMPTS)
    && (m.state == Failed ==> m.attempts == MAX_ATTEMPTS)
    && (m.state == Sent <==> m.upstream.Some?)
  }

  ghost predicate AllSound(messages: seq<Message>) {
    forall i :: 0 <= i < |messages| ==> Sound(messages[i])
  }

  ghost predicate KeysUnique(messages: seq<Message>) {
    forall i, j :: 0 <= i < j < |messages| ==> messages[i].draft.idempotencyKey != messages[j].draft.idempotencyKey
  }

  /** No strictly earlier message of the same task is still unsent. */
  predicate Unblocked(messages: seq<Message>, i: MessageId) {
    i < |messages|
    && forall j :: 0 <= j < |messages| && messages[j].task == messages[i].task && Earlier(messages[j], messages[i])
         ==> messages[j].state == Sent
  }

  predicate Eligible(messages: seq<Message>, now: int, i: MessageId) {
    && i < |messages|
    && messages[i].state == Pending && messages[i].availableAt <= now && messages[i].attempts < MAX_ATTEMPTS
    && Unblocked(messages, i)
  }

  // --------------------------------------------------------- publication log

  ghost predicate PublishedBy(log: seq<MessageId>, p: nat, j: MessageId) {
    exists q :: 0 <= q < p <= |log| && log[q] == j
  }

  /** Every publication follows a publication of each strictly earlier message of its task. */
  ghost predicate PublishedInOrder(messages: seq<Message>, log: seq<MessageId>) {
    forall p, j: MessageId :: 0 <= p < |log| && log[p] < |messages| && j < |messages|
      && messages[j].task == messages[log[p]].task && Earlier(messages[j], messages[log[p]])
      ==> PublishedBy(log, p, j)
  }

  /** A message that was ever leased has nothing unsent before it. */
  ghost predicate StartedInOrder(messages: seq<Message>) {
    forall i: MessageId :: i < |messages| && messages[i].attempts > 0 ==> Unblocked(messages, i)
  }

  ghost predicate InOrder(messages: seq<Message>, log: seq<MessageId>) {
    StartedInOrder(messages) && PublishedInOrder(messages, log)
  }

  function Publications(log: seq<MessageId>, i: MessageId): nat {
    multiset(log)[i]
  }

  /** A publication needs a lease of its own, and a sent message was published. */
  ghost predicate Accounted(messages: seq<Message>, log: seq<MessageId>) {
    && (forall p :: 0 <= p < |log| ==> log[p] < |messages|)
    && (forall i: MessageId :: i < |messages| ==> Publications(log, i) <= messages[i].attempts)
    && (forall i: MessageId :: i < |messages| && messages[i].state == Sent ==> i in log)
  }

  /** Everything about the row but its delivery. */
  predicate SameMessage(a: Message, b: Message) {
    a.task == b.task && a.draft == b.draft && a.createdAt == b.createdAt && a.uuid == b.uuid
  }

  /** Delivery only moves forward: attempts grow, and a sent row is final. */
  ghost predicate Later(before: seq<Message>, after: seq<Message>) {
    && |before| == |after|
    && forall i :: 0 <= i < |before| ==>
         && SameMessage(before[i], after[i])
         && before[i].attempts <= after[i].attempts
         && (before[i].state == Sent ==> after[i] == before[i])
  }

  lemma LaterTransitive(a: seq<Message>, b: seq<Message>, c: seq<Message>)
    requires Later(a, b) && Later(b, c)
    ensures Later(a, c)
  {
  }

  lemma {:induction false} OrderStays(before: seq<Message>, after: seq<Message>, log: seq<MessageId>)
    requires InOrder(before, log) && Later(before, after)
    requires forall i: MessageId :: i < |after| && after[i].attempts > 0 && before[i].attempts == 0 ==> Unblocked(after, i)
    ensures InOrder(after, log)
  {
    forall i: MessageId | i < |after| && after[i].attempts > 0
      ensures Unblocked(after, i)
    {
      if before[i].attempts > 0 {
        assert Unblocked(before, i);
        forall j | 0 <= j < |after| && after[j].task == after[i].task && Earlier(after[j], after[i])
          ensures after[j].state == Sent
        {
          assert SameMessage(before[j], after[j]) && SameMessage(before[i], after[i]);
          assert before[j].state == Sent;
        }
      }
    }
    forall p, j: MessageId | 0 <= p < |log| && log[p] < |after| && j < |after|
                              && after[j].task == after[log[p]].task && Earlier(after[j], after[log[p]])
      ensures PublishedBy(log, p, j)
    {
      assert SameMessage(before[j], after[j]) && SameMessage(before[log[p]], after[log[p]]);
    }
  }

  /** Publishing a message that was leased for it adds an entry in its proper place. */
  lemma {:induction false} PublishingKeepsOrder(messages: seq<Message>, log: seq<MessageId>, i: MessageId)
    requires Accounted(messages, log) && i < |messages| && messages[i].attempts > 0
    ensures StartedInOrder(messages) && PublishedInOrder(messages, log) ==> PublishedInOrder(messages, log + [i])
  {
    var longer := log + [i];
    if InOrder(messages, log) {
      assert Unblocked(messages, i);
      forall p, j: MessageId | 0 <= p < |longer| && longer[p] < |messages| && j < |messages|
                                && messages[j].task == messages[longer[p]].task && Earlier(messages[j], messages[longer[p]])
        ensures PublishedBy(longer, p, j)
      {
        if p < |log| {
          assert PublishedBy(log, p, j);
          var q :| 0 <= q < p && log[q] == j;
          assert longer[q] == j;
        } else {
          assert j in log;
          var q :| 0 <= q < |log| && log[q] == j;
          assert longer[q] == j;
        }
      }
    }
  }

  /** No message of the task that sorts strictly after the new one has been leased yet. */
  ghost predicate NothingLaterStarted(messages: seq<Message>, m: Message) {
    forall i :: 0 <= i < |messages| && messages[i].task == m.task && Earlier(m, messages[i]) ==> messages[i].attempts == 0
  }

  /**
   Adding an unsent message keeps the order exactly when nothing of its task that
   sorts after it was ever leased. Creation times alone do not give that: a
   progress note of the same millisecond sorts before a result already under way.
   */
  lemma {:induction false} InsertKeepsOrder(messages: seq<Message>, log: seq<MessageId>, m: Message)
    requires InOrder(messages, log) && Accounted(messages, log) && m.state == Pending && m.attempts == 0
    ensures InOrder(messages + [m], log) <==> NothingLaterStarted(messages, m)
  {
    var more := messages + [m];
    if InOrder(more, log) {
      forall i | 0 <= i < |messages| && messages[i].task == m.task && Earlier(m, messages[i])
        ensures messages[i].attempts == 0
      {
        var k: MessageId := i;
        assert more[k] == messages[k] && more[|messages|] == m;
        assert !Unblocked(more, k);
      }
    }
    if NothingLaterStarted(messages, m) {
      forall i: MessageId | i < |more| && more[i].attempts > 0
        ensures Unblocked(more, i)
      {
        assert Unblocked(messages, i);
        assert more[i] == messages[i];
      }
      forall p, j: MessageId | 0 <= p < |log| && log[p] < |more| && j < |more|
                                && more[j].task == more[log[p]].task && Earlier(more[j], more[log[p]])
        ensures PublishedBy(log, p, j)
      {
        assert more[log[p]] == messages[log[p]];
        assert log[p] in multiset(log);
        assert messages[log[p]].attempts > 0;
      }
    }
  }

  /**
   A result under way, and then a progress note of the same task in the same
   millisecond: the note sorts before what was already leased.
   */
  lemma {:induction false} SameMillisecondBreaksOrder(result: Message, note: Message)
    requires result.draft.kind == OtherKind("result") && result.state == Leased && result.attempts == 1
    requires note.draft.kind == Progress && note.state == Pending && note.attempts == 0
    requires note.task == result.task && note.createdAt == result.createdAt
    ensures InOrder([result], []) && !InOrder([result, note], [])
  {
    var messages := [result];
    assert Earlier(note, messages[0]) && !NothingLaterStarted(messages, note);
    InsertKeepsOrder(messages, [], note);
    assert messages + [note] == [result, note];
  }

  /** Nobody is told the same thing more than eight times. */
  lemma {:induction false} PublishedAtMostEightTimes(messages: seq<Message>, log: seq<MessageId>, i: MessageId)
    requires AllSound(messages) && Accounted(messages, log) && i < |messages|
    ensures Publications(log, i) <= MAX_ATTEMPTS
    ensures messages[i].state == Pending ==> Publications(log, i) < MAX_ATTEMPTS
  {
    assert Sound(messages[i]);
  }

  /**
   What a recipient sees first: a publication that goes back behind another one of
   its task only repeats a message already published.
   */
  lemma {:induction false} OnlyRepeatsGoBack(messages: seq<Message>, log: seq<MessageId>, p: nat, q: nat)
    requires InOrder(messages, log) && Accounted(messages, log) && p < q < |log|
    requires messages[log[p]].task == messages[log[q]].task
    ensures Earlier(messages[log[q]], messages[log[p]]) ==> PublishedBy(log, q, log[q])
  {
    if Earlier(messages[log[q]], messages[log[p]]) {
      assert PublishedBy(log, p, log[q]);
      var r :| 0 <= r < p && log[r] == log[q];
      assert 0 <= r < q;
    }
  }
}

/** The local mirror of chat messages, which sees edits and recalls late, twice and out of order. */
module MessageMirror {
  import opened Outcomes
  import opened SqlLike

  type MessageId = (string, string, string)
  type Chat = (string, string, string)

  datatype Content = Content(body: string, attachments: seq<string>)

  datatype Row = Row(chat: Chat, version: int, recalled: bool, deleted: bool, content: Content)

  /** What the source may deliver about one message. */
  datatype Delivery =
    | Upsert(version: int, recalled: bool, deleted: bool, content: Content)
    | Recall(version: int)

  predicate Tombstone(d: Delivery) {
    d.Recall? || d.recalled || d.deleted
  }

  predicate Buried(r: Row) {
    r.recalled || r.deleted
  }

  /** What one delivery makes of the stored row. */
  function Deliver(row: Option<Row>, chat: Chat, d: Delivery): Option<Row> {
    match d
    case Upsert(version, recalled, deleted, content) =>
      if row.Some?
         && (row.value.version > version
             || (row.value.version == version && Buried(row.value) && !(recalled || deleted)))
      then row
      else Some(Row(chat, version, recalled, deleted, content))
    case Recall(version) =>
      if row.None? then Some(Row(chat, version, true, false, Content("", [])))
      else if row.value.version > version then row
      else Some(row.value.(version := version, recalled := true, content := row.value.content.(attachments := [])))
  }

  /** What a model run has read, and what its checkpoint is derived from. */
  datatype SourceRef = MessageRef(message: string) | AttachmentRef(message: string, resource: string)

  type Checkpoints = map<string, set<SourceRef>>

  predicate DerivedFrom(sources: set<SourceRef>, message: string) {
    exists ref :: ref in sources && ref.message == message
  }

  const MESSAGE: string := "im.message:"
  const ATTACHMENT: string := "im.attachment:"

  /** How a source is written in the table. */
  function RefText(ref: SourceRef): string {
    match ref
    case MessageRef(message) => MESSAGE + message
    case AttachmentRef(message, resource) => ATTACHMENT + message + ":" + resource
  }

  /** The sources the deletion for a message picks: the message itself, and what fits the pattern of its attachments. */
  predicate Hit(ref: SourceRef, message: string) {
    RefText(ref) == MESSAGE + message || Fit(ATTACHMENT + message + ":", RefText(ref))
  }

  predicate AnyHit(sources: set<SourceRef>, message: string) {
    exists ref :: ref in sources && Hit(ref, message)
  }

  function WithoutDerived(checkpoints: Checkpoints, message: string): (kept: Checkpoints)
    ensures forall run :: run in kept <==> run in checkpoints && !AnyHit(checkpoints[run], message)
    ensures forall run :: run in kept ==> kept[run] == checkpoints[run]
  {
    map run | run in checkpoints && !AnyHit(checkpoints[run], message) :: checkpoints[run]
  }

  lemma {:induction false} OwnIsHit(ref: SourceRef)
    ensures Hit(ref, ref.message)
  {
    if ref.AttachmentRef? {
      var head := ATTACHMENT + ref.message + ":";
      ShapeFits(head, head, ref.resource);
      assert head + ref.resource == RefText(ref);
    }
  }

  /** No checkpoint derived from the message is left, whatever characters its id has. */
  lemma {:induction false} NothingDerivedStays(checkpoints: Checkpoints, message: string, run: string)
    requires run in WithoutDerived(checkpoints, message)
    ensures !DerivedFrom(checkpoints[run], message)
  {
    forall ref | ref in checkpoints[run]
      ensures ref.message != message
    {
      OwnIsHit(ref);
    }
  }

  /** A source whose message id holds no colon, and whose attachment has a name. */
  predicate Named(ref: SourceRef) {
    ':' !in ref.message && (ref.AttachmentRef? ==> ref.resource != "")
  }

  /**
   Among ids without a colon, the deletion for a message picks its own sources only,
   if and only if all characters of its id are literal.
   */
  lemma {:induction false} OnlyOwnSourcesExactly(message: string)
    requires ':' !in message
    ensures (forall ref: SourceRef | Named(ref) && Hit(ref, message) :: ref.message == message) <==> AllLiteral(message)
  {
    OwnEntriesExactly(ATTACHMENT, message, ':');
    if AllLiteral(message) {
      forall ref: SourceRef | Named(ref) && Hit(ref, message)
        ensures ref.message == message
      {
        HitIsOwn(ref, message);
      }
    } else {
      var other: string, rest: string :|
        rest != "" && ':' !in other && Fit(ATTACHMENT + message + [':'], ATTACHMENT + other + [':'] + rest) && other != message;
      assert Hit(AttachmentRef(other, rest), message);
    }
  }

  lemma {:induction false} HitIsOwn(ref: SourceRef, message: string)
    requires ':' !in message && AllLiteral(message) && ':' !in ref.message && Hit(ref, message)
    ensures ref.message == message
  {
    var text := RefText(ref);
    if ref.MessageRef? {
      assert text[..|MESSAGE|] == MESSAGE && text[3] == 'm' && (ATTACHMENT + message + ":")[3] == 'a';
      assert '%' !in ATTACHMENT + message + ":" by {
        assert forall c :: c in message ==> Literal(c);
      }
      LikePrefix(ATTACHMENT + message + ":", text);
      assert text == MESSAGE + message;
      assert text[|MESSAGE|..] == ref.message;
    } else {
      assert text[3] == 'a' && (MESSAGE + message)[3] == 'm';
      OwnEntry(ATTACHMENT, message, ':', ref.message, ref.resource);
    }
  }

  /** Editing message `om_1` removes a checkpoint that was derived from `omX1` alone. */
  lemma {:induction false} EditRemovesAnothersCheckpoint()
    ensures var checkpoints: Checkpoints := map["run" := {AttachmentRef("omX1", "file")}];
            !DerivedFrom(checkpoints["run"], "om_1") && "run" !in WithoutDerived(checkpoints, "om_1")
  {
    var ref := AttachmentRef("omX1", "file");
    var head, text := ATTACHMENT + "om_1" + ":", ATTACHMENT + "omX1" + ":";
    assert Shape(ATTACHMENT, ATTACHMENT) && Shape(":", ":") && Shape("om_1", "omX1");
    ShapeConcat(ATTACHMENT, ATTACHMENT, "om_1", "omX1");
    ShapeConcat(ATTACHMENT + "om_1", ATTACHMENT + "omX1", ":", ":");
    ShapeFits(head, text, "file");
    assert Hit(ref, "om_1") && ref in {ref};
    assert "om_1"[2] != "omX1"[2];
  }

  /** Whether a delivery removes the checkpoints derived from the message. */
  predicate Forgets(row: Option<Row>, d: Delivery) {
    match d
    case Upsert(version, _, _, _) => row.Some? && row.value.version < version
    case Recall(version) => row.None? || row.value.version <= version
  }

  /**
   A checkpoint derived from a message survives a change of the stored row just
   when an upsert repeats the row's version with something else in it.
   */
  lemma {:induction false} StaleCheckpointSurvives(row: Row, d: Delivery)
    ensures var after := Deliver(Some(row), row.chat, d).value;
            !Forgets(Some(row), d) && after != row
            <==> && d.Upsert? && d.version == row.version
                 && (Buried(row) ==> Tombstone(d))
                 && (d.recalled, d.deleted, d.content) != (row.recalled, row.deleted, row.content)
  {
    if d.Upsert? {
      var after := Row(row.chat, d.version, d.recalled, d.deleted, d.content);
      assert after == row <==> (d.version, d.recalled, d.deleted, d.content) == (row.version, row.recalled, row.deleted, row.content);
    }
  }

  /** A recall that arrives as an upsert of the version already shown hides the message and leaves its checkpoints. */
  lemma {:induction false} SameVersionRecallLeavesCheckpoint(chat: Chat, version: int, content: Content)
    ensures var row := Row(chat, version, false, false, content);
            var recall := Upsert(version, true, false, Content("", []));
            !Forgets(Some(row), recall) && Deliver(Some(row), chat, recall).value != row
            && Buried(Deliver(Some(row), chat, recall).value)
  {
    StaleCheckpointSurvives(Row(chat, version, false, false, content), Upsert(version, true, false, Content("", [])));
  }

  /** The checkpoints left when a chat's messages are removed: those that cite none of them as a message. */
  function Purged(checkpoints: Checkpoints, messages: map<MessageId, Row>, chat: Chat): (kept: Checkpoints)
    ensures forall run :: run in kept <==>
                            && run in checkpoints
                            && forall id :: id in messages && messages[id].chat == chat
                                 ==> MessageRef(id.2) !in checkpoints[run]
    ensures forall run :: run in kept ==> kept[run] == checkpoints[run]
  {
    var removed := set id | id in messages && messages[id].chat == chat :: MessageRef(id.2);
    map run | run in checkpoints && checkpoints[run] !! removed :: checkpoints[run]
  }

  predicate CitesMessage(sources: set<SourceRef>, messages: map<MessageId, Row>, chat: Chat) {
    exists id :: id in messages && messages[id].chat == chat && MessageRef(id.2) in sources
  }

  predicate CitesAttachment(sources: set<SourceRef>, messages: map<MessageId, Row>, chat: Chat) {
    exists id, ref :: id in messages && messages[id].chat == chat && ref in sources && ref.AttachmentRef? && ref.message == id.2
  }

  predicate DerivedFromChat(sources: set<SourceRef>, messages: map<MessageId, Row>, chat: Chat) {
    exists id :: id in messages && messages[id].chat == chat && DerivedFrom(sources, id.2)
  }

  /** A checkpoint derived from a removed message survives exactly when it cites only attachments of such messages. */
  lemma {:induction false} AttachmentsOnlySurvive(
    checkpoints: Checkpoints, messages: map<MessageId, Row>, chat: Chat, run: string)
    requires run in checkpoints
    ensures run in Purged(checkpoints, messages, chat) && DerivedFromChat(checkpoints[run], messages, chat)
            <==> CitesAttachment(checkpoints[run], messages, chat) && !CitesMessage(checkpoints[run], messages, chat)
  {
    var sources := checkpoints[run];
    if DerivedFromChat(sources, messages, chat) && !CitesMessage(sources, messages, chat) {
      var id :| id in messages && messages[id].chat == chat && DerivedFrom(sources, id.2);
      var ref :| ref in sources && ref.message == id.2;
      assert ref != MessageRef(id.2);
    }
  }

  lemma {:induction false} AttachmentCheckpointSurvivesRevocation(row: Row)
    ensures var messages: map<MessageId, Row> := map[("t", "a", "m") := row];
            var checkpoints: Checkpoints := map["run" := {AttachmentRef("m", "file")}];
            "run" in Purged(checkpoints, messages, row.chat) && DerivedFromChat(checkpoints["run"], messages, row.chat)
  {
    var messages: map<MessageId, Row> := map[("t", "a", "m") := row];
    var checkpoints: Checkpoints := map["run" := {AttachmentRef("m", "file")}];
    var id: MessageId := ("t", "a", "m");
    assert id in messages && AttachmentRef("m", "file") in checkpoints["run"];
    AttachmentsOnlySurvive(checkpoints, messages, row.chat, "run");
  }

  /** A revoked chat holds nothing but recall tombstones without content. */
  ghost predicate NothingReadable(messages: map<MessageId, Row>, revoked: set<Chat>) {
    forall id :: id in messages && messages[id].chat in revoked
      ==> messages[id].recalled && messages[id].content == Content("", [])
  }

  /** One message and its chat, as `Step` moves them. */
  function View(revoked: set<Chat>, messages: map<MessageId, Row>, id: MessageId, chat: Chat): Mirror {
    Mirror(chat in revoked, if id in messages then Some(messages[id]) else None)
  }

  class Repository {
    var revoked: set<Chat>
    var messages: map<MessageId, Row>
    var checkpoints: Checkpoints

    ghost predicate Valid()
      reads this
    {
      NothingReadable(messages, revoked)
    }

    constructor ()
      ensures Valid() && revoked == {} && messages == map[] && checkpoints == map[]
    {
      revoked, messages, checkpoints := {}, map[], map[];
    }

    function Stored(id: MessageId): Option<Row>
      reads this
    {
      if id in messages then Some(messages[id]) else None
    }

    /** Nothing is stored for a revoked chat; otherwise the newer, and among equals the buried, version wins. */
    method UpsertMessage(id: MessageId, chat: Chat, version: int, recalled: bool, deleted: bool, content: Content)
      returns (accepted: bool)
      requires Valid()
      modifies this
      ensures Valid() && revoked == old(revoked) && accepted == (chat !in revoked)
      ensures !accepted ==> messages == old(messages) && checkpoints == old(checkpoints)
      ensures accepted ==>
        var d := Upsert(version, recalled, deleted, content);
        && messages == old(messages)[id := Deliver(old(Stored(id)), chat, d).value]
        && checkpoints == if Forgets(old(Stored(id)), d) then WithoutDerived(old(checkpoints), id.2) else old(checkpoints)
      ensures View(revoked, messages, id, chat) == Step(old(View(revoked, messages, id, chat)), chat, Delivered(Upsert(version, recalled, deleted, content)))
    {
      if chat in revoked {
        return false;
      }
      if id in messages {
        var row := messages[id];
        if row.version > version || (row.version == version && (row.recalled || row.deleted) && !(recalled || deleted)) {
          assert messages == messages[id := row];
          return true;
        }
        if row.version != version {
          checkpoints := WithoutDerived(checkpoints, id.2);
        }
      }
      messages := messages[id := Row(chat, version, recalled, deleted, content)];
      accepted := true;
    }

    /** A recall is recorded even for a message, and in a chat, that the mirror does not hold. */
    method InvalidateMessage(id: MessageId, chat: Chat, version: int)
      requires Valid()
      modifies this
      ensures Valid() && revoked == old(revoked)
      ensures messages == old(messages)[id := Deliver(old(Stored(id)), chat, Recall(version)).value]
      ensures checkpoints == if Forgets(old(Stored(id)), Recall(version)) then WithoutDerived(old(checkpoints), id.2)
                             else old(checkpoints)
      ensures View(revoked, messages, id, chat) == Step(old(View(revoked, messages, id, chat)), chat, Delivered(Recall(version)))
    {
      if id in messages && messages[id].version > version {
        assert messages == messages[id := messages[id]];
        return;
      }
      if id !in messages {
        messages := messages[id := Row(chat, version, true, false, Content("", []))];
      } else {
        var row := messages[id];
        messages := messages[id := row.(version := version, recalled := true, content := row.content.(attachments := []))];
      }
      checkpoints := WithoutDerived(checkpoints, id.2);
    }

    /** Purges the chat and refuses its messages from now on. */
    method RevokeChat(chat: Chat)
      requires Valid()
      modifies this
      ensures Valid() && revoked == old(revoked) + {chat}
      ensures messages == map id | id in old(messages) && old(messages)[id].chat != chat :: old(messages)[id]
      ensures checkpoints == Purged(old(checkpoints), old(messages), chat)
      ensures forall id: MessageId :: (id in old(messages) ==> old(messages)[id].chat == chat)
                ==> View(revoked, messages, id, chat) == Step(View(old(revoked), old(messages), id, chat), chat, Revoked)
    {
      checkpoints := Purged(checkpoints, messages, chat);
      messages := map id | id in messages && messages[id].chat != chat :: messages[id];
      revoked := revoked + {chat};
    }

    method RestoreChat(chat: Chat)
      requires Valid()
      modifies this`revoked
      ensures Valid() && revoked == old(revoked) - {chat}
      ensures forall id: MessageId ::
                View(revoked, messages, id, chat) == Step(View(old(revoked), old(messages), id, chat), chat, Restored)
    {
      revoked := revoked - {chat};
    }
  }

  // ------------------------------------------------------------- convergence

  function DeliverAll(ds: seq<Delivery>, chat: Chat): Option<Row> {
    if ds == [] then None
    else Deliver(DeliverAll(ds[..|ds| - 1], chat), chat, ds[|ds| - 1])
  }

  /** Version first, and among equal versions a tombstone beats a live one. */
  predicate AtMost(v: int, buried: bool, w: int, buriedToo: bool) {
    v < w || (v == w && (buried ==> buriedToo))
  }

  /**
   The stored version and tombstone are the lexicographic maximum of what was
   delivered, and a live row carries the content of a live delivery of that version.
   */
  ghost predicate IsMaximum(ds: seq<Delivery>, row: Row) {
    && (forall d :: d in ds ==> AtMost(d.version, Tombstone(d), row.version, Buried(row)))
    && (exists d :: d in ds && d.version == row.version && Tombstone(d) == Buried(row))
    && (!Buried(row) ==> exists d :: d in ds && d.Upsert? && !Tombstone(d) && d.version == row.version && d.content == row.content)
  }

  lemma {:induction false} StoredIsMaximum(ds: seq<Delivery>, chat: Chat)
    requires ds != []
    ensures DeliverAll(ds, chat).Some? && IsMaximum(ds, DeliverAll(ds, chat).value)
  {
    var before, d := ds[..|ds| - 1], ds[|ds| - 1];
    assert ds == before + [d];
    var row := DeliverAll(ds, chat).value;
    if before == [] {
      assert DeliverAll(before, chat) == None;
      assert d in ds;
    } else {
      StoredIsMaximum(before, chat);
      var prior := DeliverAll(before, chat).value;
      assert forall x :: x in ds <==> x in before || x == d;
      var top :| top in before && top.version == prior.version && Tombstone(top) == Buried(prior);
      if row == prior {
        if !Buried(prior) {
          var live :| live in before && live.Upsert? && !Tombstone(live) && live.version == prior.version && live.content == prior.content;
          assert live in ds;
        }
        assert top in ds;
      } else {
        assert d in ds && d.version == row.version && Tombstone(d) == Buried(row);
      }
    }
  }

  /** What a reader of the mirror sees. */
  function Visible(row: Option<Row>): Option<(int, Content)> {
    if row.None? || Buried(row.value) then None else Some((row.value.version, row.value.content))
  }

  ghost predicate SameDeliveries(a: seq<Delivery>, b: seq<Delivery>) {
    forall d :: d in a <==> d in b
  }

  /** One of the deliveries of the highest version. */
  ghost predicate OnTop(ds: seq<Delivery>, d: Delivery) {
    d in ds && forall e :: e in ds ==> e.version <= d.version
  }

  /** The highest version is buried by a tombstone, or its live deliveries have one content. */
  ghost predicate Agreed(ds: seq<Delivery>) {
    || (exists d :: OnTop(ds, d) && Tombstone(d))
    || (forall a, b :: OnTop(ds, a) && OnTop(ds, b) && !Tombstone(a) && !Tombstone(b) ==> a.content == b.content)
  }

  /** The same deliveries in any order and any number lead to the same version and tombstone. */
  lemma {:induction false} VersionsConverge(a: seq<Delivery>, b: seq<Delivery>, chat: Chat)
    requires SameDeliveries(a, b)
    ensures DeliverAll(a, chat).Some? <==> DeliverAll(b, chat).Some?
    ensures DeliverAll(a, chat).Some? ==>
              && DeliverAll(a, chat).value.version == DeliverAll(b, chat).value.version
              && Buried(DeliverAll(a, chat).value) == Buried(DeliverAll(b, chat).value)
  {
    assert |a| > 0 ==> a[0] in a;
    assert |b| > 0 ==> b[0] in b;
    if a != [] {
      StoredIsMaximum(a, chat);
      StoredIsMaximum(b, chat);
    }
  }

  /** What is visible comes from a live delivery on top, and nothing is visible under a tombstone on top. */
  lemma {:induction false} VisibleIsOnTop(ds: seq<Delivery>, chat: Chat)
    ensures Visible(DeliverAll(ds, chat)) == None <==> ds == [] || exists d :: OnTop(ds, d) && Tombstone(d)
    ensures Visible(DeliverAll(ds, chat)).Some? ==>
              exists d :: OnTop(ds, d) && !Tombstone(d) && Visible(DeliverAll(ds, chat)).value == (d.version, d.content)
  {
    if ds != [] {
      StoredIsMaximum(ds, chat);
      var row := DeliverAll(ds, chat).value;
      var top :| top in ds && top.version == row.version && Tombstone(top) == Buried(row);
      assert OnTop(ds, top);
      if !Buried(row) {
        var live :| live in ds && live.Upsert? && !Tombstone(live) && live.version == row.version && live.content == row.content;
        assert OnTop(ds, live);
      }
    }
  }

  /** With agreement on top, the same content is visible as well. */
  lemma {:induction false} Converges(a: seq<Delivery>, b: seq<Delivery>, chat: Chat)
    requires SameDeliveries(a, b) && Agreed(a)
    ensures Visible(DeliverAll(a, chat)) == Visible(DeliverAll(b, chat))
  {
    VersionsConverge(a, b, chat);
    VisibleIsOnTop(a, chat);
    VisibleIsOnTop(b, chat);
    assert forall d :: OnTop(a, d) <==> OnTop(b, d);
  }

  /** A live delivery on top, delivered once more, is what one sees unless a tombstone is on top too. */
  lemma {:induction false} LastOnTopWins(ds: seq<Delivery>, d: Delivery, chat: Chat)
    requires OnTop(ds, d) && !Tombstone(d) && !exists t :: OnTop(ds, t) && Tombstone(t)
    ensures SameDeliveries(ds, ds + [d]) && Visible(DeliverAll(ds + [d], chat)) == Some((d.version, d.content))
  {
    assert (ds + [d])[..|ds|] == ds;
    VisibleIsOnTop(ds, chat);
  }

  /** Agreement on top is also necessary: it decides whether order and repetition matter. */
  lemma {:induction false} ConvergesExactly(ds: seq<Delivery>, chat: Chat)
    ensures (forall b :: SameDeliveries(ds, b) ==> Visible(DeliverAll(b, chat)) == Visible(DeliverAll(ds, chat)))
            <==> Agreed(ds)
  {
    if Agreed(ds) {
      forall b | SameDeliveries(ds, b)
        ensures Visible(DeliverAll(b, chat)) == Visible(DeliverAll(ds, chat))
      {
        Converges(ds, b, chat);
      }
    } else {
      var x, y :| OnTop(ds, x) && OnTop(ds, y) && !Tombstone(x) && !Tombstone(y) && x.content != y.content;
      LastOnTopWins(ds, x, chat);
      LastOnTopWins(ds, y, chat);
    }
  }

  /** Once recalled, no delivery of an equal or older version brings the message back. */
  lemma {:induction false} RecallIsNeverUndone(ds: seq<Delivery>, later: seq<Delivery>, chat: Chat, version: int)
    requires Recall(version) in ds
    requires forall d :: d in later ==> d.version <= version || Tombstone(d)
    requires forall d :: d in ds && d.version > version ==> Tombstone(d)
    ensures Visible(DeliverAll(ds + later, chat)) == None
  {
    var all := ds + later;
    assert Recall(version) in all;
    StoredIsMaximum(all, chat);
  }

  /** A recall hides the message, and leaves its body in the row if and only if a row with a body was stored. */
  lemma {:induction false} BodyOutlivesRecallExactly(ds: seq<Delivery>, chat: Chat, version: int)
    requires forall d :: d in ds ==> d.version <= version
    ensures var before, after := DeliverAll(ds, chat), DeliverAll(ds + [Recall(version)], chat);
            && after.Some? && Visible(after) == None
            && (after.value.content.body != "" <==> before.Some? && before.value.content.body != "")
  {
    assert (ds + [Recall(version)])[..|ds|] == ds;
    if ds != [] {
      StoredIsMaximum(ds, chat);
    }
  }

  lemma {:induction false} RecalledBodyStays(chat: Chat, version: int, content: Content)
    requires content.body != ""
    ensures var after := DeliverAll([Upsert(version, false, false, content), Recall(version)], chat);
            Visible(after) == None && after.value.content.body != ""
  {
    var ds := [Upsert(version, false, false, content)];
    assert ds[..0] == [] && ds + [Recall(version)] == [ds[0], Recall(version)];
    assert DeliverAll(ds, chat) == Deliver(None, chat, ds[0]);
    BodyOutlivesRecallExactly(ds, chat, version);
  }

  /** Two live contents under one version never converge: the last one delivered stays. */
  lemma {:induction false} ConflictingContentsDiverge(version: int, x: Content, y: Content, chat: Chat)
    ensures var a := Upsert(version, false, false, x);
            var b := Upsert(version, false, false, y);
            Visible(DeliverAll([a, b], chat)) == Visible(DeliverAll([b, a], chat)) <==> x == y
  {
    var a := Upsert(version, false, false, x);
    var b := Upsert(version, false, false, y);
    assert [a, b][..1] == [a] && [b, a][..1] == [b];
    assert [a][..0] == [] && [b][..0] == [];
    assert DeliverAll([a], chat) == Some(Row(chat, version, false, false, x));
    assert DeliverAll([b], chat) == Some(Row(chat, version, false, false, y));
  }

  // -------------------------------------------------------- access revocation

  datatype Event = Delivered(d: Delivery) | Revoked | Restored

  /** One message and its chat through deliveries, revocations and restorations. */
  datatype Mirror = Mirror(revoked: bool, row: Option<Row>)

  function Step(m: Mirror, chat: Chat, e: Event): Mirror {
    match e
    case Delivered(d) => if m.revoked && d.Upsert? then m else m.(row := Deliver(m.row, chat, d))
    case Revoked => Mirror(true, None)
    case Restored => m.(revoked := false)
  }

  function After(es: seq<Event>, chat: Chat): Mirror {
    if es == [] then Mirror(false, None) else Step(After(es[..|es| - 1], chat), chat, es[|es| - 1])
  }

  /** The deliveries that still count: those since the last revocation that were not refused. */
  function Counted(es: seq<Event>, chat: Chat): seq<Delivery> {
    if es == [] then []
    else
      var before := es[..|es| - 1];
      match es[|es| - 1]
      case Delivered(d) => if After(before, chat).revoked && d.Upsert? then Counted(before, chat) else Counted(before, chat) + [d]
      case Revoked => []
      case Restored => Counted(before, chat)
  }

  /** The stored row is a function of the counted deliveries alone, so convergence carries over to any history. */
  lemma {:induction false} OnlyCountedDeliveriesMatter(es: seq<Event>, chat: Chat)
    ensures After(es, chat).row == DeliverAll(Counted(es, chat), chat)
    ensures After(es, chat).revoked ==> forall d :: d in Counted(es, chat) ==> d.Recall?
  {
    if es != [] {
      var before := es[..|es| - 1];
      OnlyCountedDeliveriesMatter(before, chat);
      var counted := Counted(before, chat);
      if es[|es| - 1].Delivered? {
        var d := es[|es| - 1].d;
        assert (counted + [d])[..|counted|] == counted;
      }
    }
  }

  /** Every live delivery has a tombstone of its own or a higher version beside it. */
  ghost predicate Covered(ds: seq<Delivery>) {
    forall d :: d in ds && !Tombstone(d) ==> exists t :: t in ds && Tombstone(t) && t.version >= d.version
  }

  lemma {:induction false} HiddenExactly(ds: seq<Delivery>, chat: Chat)
    ensures Visible(DeliverAll(ds, chat)) == None <==> Covered(ds)
  {
    VisibleIsOnTop(ds, chat);
    if ds != [] {
      StoredIsMaximum(ds, chat);
      var top :| top in ds && top.version == DeliverAll(ds, chat).value.version;
      assert OnTop(ds, top);
      if Covered(ds) && !Tombstone(top) {
        var t :| t in ds && Tombstone(t) && t.version >= top.version;
        assert OnTop(ds, t);
      }
    }
  }

  /**
   Nothing of the message is seen exactly as long as no live delivery that is still
   counted has a version above every counted recall; a revocation in between
   forgets the recall, and any older live version then shows again.
   */
  lemma {:induction false} RecallHoldsWhileCounted(es: seq<Event>, chat: Chat)
    ensures Visible(After(es, chat).row) == None <==> Covered(Counted(es, chat))
  {
    OnlyCountedDeliveriesMatter(es, chat);
    HiddenExactly(Counted(es, chat), chat);
  }

  lemma {:induction false} RevocationForgetsRecall(es: seq<Event>, chat: Chat, version: int, older: int, content: Content)
    ensures var again := es + [Delivered(Recall(version)), Revoked, Restored, Delivered(Upsert(older, false, false, content))];
            Visible(After(again, chat).row) == Some((older, content))
  {
    var recalled := es + [Delivered(Recall(version))];
    var revoked := recalled + [Revoked];
    var restored := revoked + [Restored];
    var again := restored + [Delivered(Upsert(older, false, false, content))];
    assert again == es + [Delivered(Recall(version)), Revoked, Restored, Delivered(Upsert(older, false, false, content))];
    assert again[..|again| - 1] == restored && restored[..|restored| - 1] == revoked && revoked[..|revoked| - 1] == recalled;
    assert After(revoked, chat) == Mirror(true, None);
    assert After(restored, chat) == Mirror(false, None);
  }
}

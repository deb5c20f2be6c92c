/**
 The durable and the volatile half of one root run of the harness, and what ties
 them together. Control messages are named by their row number.
 */
module HarnessRules {
  import opened Outcomes

  type ControlId = nat

  datatype ControlKind = Steer | FollowUp | Interrupt | Cancel

  datatype ControlState = Pending | Applied | Superseded

  datatype Control = Control(kind: ControlKind, text: string, state: ControlState)

  datatype Entry =
    | Instruction(control: ControlId, text: string)
    | Reply(content: string, calls: nat)
    | Observation(callId: string, content: string)

  datatype RunStatus = Absent | Running | Completed | Failed | Cancelled

  /** What a checkpoint keeps of a run. */
  datatype Checkpoint = Checkpoint(
    messages: seq<Entry>, applied: set<ControlId>, calls: nat, verified: nat, unresolved: nat)

  /** What a running process knows and loses when it dies. */
  datatype Memory = Memory(
    journal: seq<Entry>, applied: set<ControlId>, unacked: seq<ControlId>, cancelled: bool,
    calls: nat, verified: nat, unresolved: nat, private: set<string>)

  predicate Stops(k: ControlKind) {
    k == Interrupt || k == Cancel
  }

  /** How often control `c` is in the journal. */
  function Copies(journal: seq<Entry>, c: ControlId): nat {
    if journal == [] then 0
    else (if journal[0].Instruction? && journal[0].control == c then 1 else 0) + Copies(journal[1..], c)
  }

  lemma {:induction false} CopiesAppend(a: seq<Entry>, b: seq<Entry>, c: ControlId)
    ensures Copies(a + b, c) == Copies(a, c) + Copies(b, c)
  {
    if a == [] {
      assert a + b == b;
    } else {
      CopiesAppend(a[1..], b, c);
      assert (a + b)[1..] == a[1..] + b;
    }
  }

  const REDACTED: string := "{\"observation_redacted_refetch_required\":true}"

  /** The journal as a checkpoint stores it: private observations are blanked out. */
  function Persisted(journal: seq<Entry>, private: set<string>): (kept: seq<Entry>)
    ensures |kept| == |journal|
  {
    if journal == [] then []
    else
      [if journal[0].Observation? && journal[0].callId in private then journal[0].(content := REDACTED)
       else journal[0]]
      + Persisted(journal[1..], private)
  }

  lemma {:induction false} PersistedKeepsInstructions(journal: seq<Entry>, private: set<string>, c: ControlId)
    ensures Copies(Persisted(journal, private), c) == Copies(journal, c)
  {
    if journal != [] {
      PersistedKeepsInstructions(journal[1..], private, c);
      assert Persisted(journal, private)[1..] == Persisted(journal[1..], private);
    }
  }

  /** A journal and a set of applied controls agree: each instruction is in exactly once, stops leave no entry. */
  ghost predicate Faithful(journal: seq<Entry>, applied: set<ControlId>, controls: seq<Control>) {
    && (forall c :: c in applied ==> c < |controls|)
    && (forall c: ControlId :: Copies(journal, c) == if c in applied && !Stops(controls[c].kind) then 1 else 0)
  }

  ghost predicate IsPrefix(a: seq<Control>, b: seq<Control>) {
    |a| <= |b| && forall c :: 0 <= c < |a| ==> b[c].kind == a[c].kind && b[c].text == a[c].text
  }

  lemma {:induction false} FaithfulLater(journal: seq<Entry>, applied: set<ControlId>, a: seq<Control>, b: seq<Control>)
    requires Faithful(journal, applied, a) && IsPrefix(a, b)
    ensures Faithful(journal, applied, b)
  {
  }

  function WithApplied(controls: seq<Control>, ids: set<ControlId>): (after: seq<Control>)
    ensures IsPrefix(controls, after) && |after| == |controls|
  {
    seq(|controls|, c requires 0 <= c < |controls| =>
      if controls[c].state == Pending && c in ids then controls[c].(state := Applied) else controls[c])
  }

  function WithSuperseded(controls: seq<Control>): (after: seq<Control>)
    ensures IsPrefix(controls, after) && |after| == |controls|
  {
    seq(|controls|, c requires 0 <= c < |controls| =>
      if controls[c].state == Pending then controls[c].(state := Superseded) else controls[c])
  }

  predicate AnyPending(controls: seq<Control>) {
    exists c :: 0 <= c < |controls| && controls[c].state == Pending
  }

  function Elements(ids: seq<ControlId>): set<ControlId> {
    set c | c in ids
  }

  /**
   What the tables say about a run that may be picked up again. `dropped` records
   that a checkpoint was ever thrown away, `forgotten` the acknowledged controls
   that a later process therefore started without.
   */
  ghost predicate Durable(
    status: RunStatus, controls: seq<Control>, checkpoint: Option<Checkpoint>, limit: nat,
    dropped: bool, forgotten: set<ControlId>)
  {
    && (status == Absent || status == Running ==>
          forall c :: 0 <= c < |controls| ==>
            controls[c].state != Superseded && (controls[c].state == Applied ==> !Stops(controls[c].kind)))
    && (status == Absent ==> checkpoint == None && forgotten == {} && forall c :: 0 <= c < |controls| ==> controls[c].state == Pending)
    && (status == Running ==>
          && (checkpoint.Some? ==> Recoverable(checkpoint.value, controls, limit))
          && (!dropped ==> forall c :: 0 <= c < |controls| && controls[c].state == Applied ==>
                checkpoint.Some? && c in checkpoint.value.applied))
    && (!dropped ==> forgotten == {})
  }

  ghost predicate Recoverable(k: Checkpoint, controls: seq<Control>, limit: nat) {
    && Faithful(k.messages, k.applied, controls)
    && (forall c :: c in k.applied ==> !Stops(controls[c].kind))
    && k.calls <= limit
  }

  /** The tie between a live process and the tables. */
  ghost predicate InStep(
    m: Memory, controls: seq<Control>, checkpoint: Option<Checkpoint>, limit: nat,
    dropped: bool, forgotten: set<ControlId>)
  {
    && Durable(Running, controls, checkpoint, limit, dropped, forgotten)
    && Faithful(m.journal, m.applied, controls)
    && (forall c :: c in m.unacked <==> c in m.applied && controls[c].state == Pending)
    && (forall a, b :: 0 <= a < b < |m.unacked| ==> m.unacked[a] != m.unacked[b])
    && (forall c :: 0 <= c < |controls| && controls[c].state == Applied ==> (c in m.applied <==> c !in forgotten))
    && (forall c :: c in forgotten ==> c < |controls| && controls[c].state == Applied)
    && (m.cancelled <==> exists c :: c in m.applied && Stops(controls[c].kind))
    && m.calls <= limit
  }
}

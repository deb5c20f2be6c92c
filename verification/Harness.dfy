/**
 The harness run loop against its durable tables. Fields are the tables; whatever a
 process holds in memory is a local value, so returning `Crashed` loses it. Between
 any two store calls other parties may admit controls or drop the checkpoint, and
 the process may die.
 */
module Harness {
  import opened Outcomes
  import opened HarnessRules

  datatype End = Crashed | Refused | Ended(status: RunStatus)

  datatype ToolResult = ToolResult(callId: string, content: string, write: bool, verified: bool, private: bool)

  const BLANK: Memory := Memory([], {}, [], false, 0, 0, 0, {})

  class RootRun {
    const toolCalls: nat
    const requireVerified: bool
    const maxControls: nat

    var status: RunStatus
    var controls: seq<Control>
    var checkpoint: Option<Checkpoint>
    ghost var dropped: bool
    ghost var forgotten: set<ControlId>

    constructor (toolCalls: nat, requireVerified: bool, maxControls: nat)
      ensures Consistent() && status == Absent && controls == []
      ensures this.toolCalls == toolCalls && this.requireVerified == requireVerified && this.maxControls == maxControls
      ensures !dropped
    {
      this.toolCalls, this.requireVerified, this.maxControls := toolCalls, requireVerified, maxControls;
      status, controls, checkpoint := Absent, [], None;
      dropped, forgotten := false, {};
    }

    ghost predicate Consistent()
      reads this
    {
      && |controls| <= maxControls
      && Durable(status, controls, checkpoint, toolCalls, dropped, forgotten)
    }

    ghost predicate Live(m: Memory)
      reads this
    {
      && status == Running && |controls| <= maxControls
      && InStep(m, controls, checkpoint, toolCalls, dropped, forgotten)
    }

    // --------------------------------------------------- what others may do

    /** Controls the requester sends are admitted while the run is open. */
    method Admit(batch: seq<(ControlKind, string)>)
      requires Consistent() && (status == Absent || status == Running) && |controls| + |batch| <= maxControls
      modifies this`controls
      ensures Consistent() && OnlyMore(old(controls), controls)
      ensures controls == old(controls) + seq(|batch|, i requires 0 <= i < |batch| => Control(batch[i].0, batch[i].1, Pending))
    {
      ghost var before := controls;
      controls := controls + seq(|batch|, i requires 0 <= i < |batch| => Control(batch[i].0, batch[i].1, Pending));
      if checkpoint.Some? {
        FaithfulLater(checkpoint.value.messages, checkpoint.value.applied, before, controls);
      }
    }

    /** A checkpoint whose sources changed is deleted. */
    method DropCheckpoint()
      requires Consistent() && (status == Absent || status == Running)
      modifies this`checkpoint, this`dropped
      ensures Consistent() && checkpoint == None
      ensures dropped == (old(dropped) || old(checkpoint).Some?)
    {
      if checkpoint.Some? {
        checkpoint, dropped := None, true;
      }
    }

    /** Admits new controls while the run is open, and may delete the checkpoint. */
    method Others()
      requires Consistent() && (status == Absent || status == Running)
      modifies this`controls, this`checkpoint, this`dropped
      ensures Consistent() && OnlyMore(old(controls), controls)
      ensures (checkpoint == old(checkpoint) && dropped == old(dropped)) || (checkpoint == None && dropped)
    {
      var batch: seq<(ControlKind, string)> := *;
      if |controls| + |batch| <= maxControls {
        Admit(batch);
      }
      var drop: bool := *;
      if drop {
        DropCheckpoint();
      }
    }

    /** The same while a process is at work: its memory stays true to the tables. */
    method OthersMeanwhile(ghost m: Memory)
      requires Live(m)
      modifies this`controls, this`checkpoint, this`dropped
      ensures Live(m) && OnlyMore(old(controls), controls)
      ensures (checkpoint == old(checkpoint) && dropped == old(dropped)) || (checkpoint == None && dropped)
    {
      ghost var before := controls;
      Others();
      FaithfulLater(m.journal, m.applied, before, controls);
    }

    // ------------------------------------------------------------ store calls

    method PendingControls() returns (ids: seq<ControlId>)
      ensures forall c :: c in ids <==> 0 <= c < |controls| && controls[c].state == Pending
      ensures forall a, b :: 0 <= a < b < |ids| ==> ids[a] != ids[b]
    {
      ids := [];
      for c := 0 to |controls|
        invariant forall x :: x in ids <==> 0 <= x < c && controls[x].state == Pending
        invariant forall a, b :: 0 <= a < b < |ids| ==> ids[a] != ids[b]
      {
        if controls[c].state == Pending {
          ids := ids + [c];
        }
      }
    }

    method SaveCheckpoint(m: Memory)
      requires Live(m) && !m.cancelled
      modifies this`checkpoint
      ensures Live(m)
      ensures checkpoint == Some(Checkpoint(Persisted(m.journal, m.private), m.applied, m.calls, m.verified, m.unresolved))
    {
      forall c: ControlId
        ensures Copies(Persisted(m.journal, m.private), c) == Copies(m.journal, c)
      {
        PersistedKeepsInstructions(m.journal, m.private, c);
      }
      checkpoint := Some(Checkpoint(Persisted(m.journal, m.private), m.applied, m.calls, m.verified, m.unresolved));
    }

    /** Acknowledges what a saved checkpoint covers. */
    method Acknowledge(m: Memory) returns (after: Memory)
      requires Live(m) && !m.cancelled
      requires !dropped ==> checkpoint.Some? && m.applied <= checkpoint.value.applied
      modifies this`controls
      ensures Live(after) && after == m.(unacked := [])
      ensures IsPrefix(old(controls), controls) && |controls| == |old(controls)|
      ensures controls == WithApplied(old(controls), Elements(m.unacked))
    {
      ghost var before := controls;
      controls := WithApplied(controls, Elements(m.unacked));
      after := m.(unacked := []);
      AcknowledgedInStep(m, before, checkpoint, toolCalls, dropped, forgotten);
    }

    /**
     The terminal transaction. A run is not completed over controls nobody has
     seen; any other ending supersedes them.
     */
    method TryFinish(outcome: RunStatus, applied: set<ControlId>) returns (done: bool)
      requires status == Running && (outcome == Completed || outcome == Failed || outcome == Cancelled)
      modifies this`status, this`controls
      ensures done <==> outcome != Completed || !AnyPending(WithApplied(old(controls), applied))
      ensures done ==>
                && status == outcome && !AnyPending(controls)
                && controls == WithSuperseded(WithApplied(old(controls), applied))
      ensures !done ==> status == Running && controls == WithApplied(old(controls), applied)
    {
      controls := WithApplied(controls, applied);
      if outcome == Completed && AnyPending(controls) {
        return false;
      }
      controls := WithSuperseded(controls);
      status := outcome;
      done := true;
    }

    // ---------------------------------------------------------- the run loop

    /** Takes in every pending control once, remembering which still have to be acknowledged. */
    method ApplyControls(m: Memory) returns (after: Memory)
      requires Live(m)
      ensures Live(after)
      ensures m.applied <= after.applied && (m.cancelled ==> after.cancelled)
      ensures after.calls == m.calls && after.verified == m.verified && after.unresolved == m.unresolved
      ensures forall c :: 0 <= c < |controls| && controls[c].state == Pending ==> c in after.applied
      ensures |after.applied| - |m.applied| == |after.unacked| - |m.unacked|
      ensures Measure(after) <= Measure(m)
      ensures Overlooked(m, controls) ==> Measure(after) < Measure(m)
      ensures !Overlooked(m, controls) ==> after == m
    {
      var ids := PendingControls();
      after := m;
      for t := 0 to |ids|
        invariant Live(after) && m.applied <= after.applied && (m.cancelled ==> after.cancelled)
        invariant after.calls == m.calls && after.verified == m.verified && after.unresolved == m.unresolved
        invariant forall a :: 0 <= a < t ==> ids[a] in after.applied
        invariant !Overlooked(m, controls) ==> after == m
        invariant |after.applied| - |m.applied| == |after.unacked| - |m.unacked|
      {
        var c := ids[t];
        assert c in ids;
        if c in after.applied {
          assert c in after.unacked;
        } else {
          TakeIn(after, c);
          after := WithControl(after, controls[c], c);
        }
      }
      GrowsWhenOverlooked(m, after, controls);
    }

    /** Calls left, controls that may still come counted twice, and controls taken in but not acknowledged. */
    ghost function Measure(m: Memory): int {
      (toolCalls - m.calls) + 2 * (maxControls - |m.applied|) + |m.unacked|
    }

    lemma MeasureIsBounded(m: Memory)
      requires Live(m)
      ensures Measure(m) >= 0
    {
      FitsBelow(m.applied, |controls|);
    }

    /** Everything a completed run promises about the controls its requester sent. */
    ghost predicate CompletedWell(m: Memory)
      reads this
    {
      && status == Completed && !AnyPending(controls)
      && (forall c :: 0 <= c < |controls| ==> controls[c].state == Applied && !Stops(controls[c].kind))
      && (forall c :: 0 <= c < |controls| ==> Copies(m.journal, c) == if c in forgotten then 0 else 1)
      && m.unresolved == 0 && (requireVerified ==> m.verified > 0)
    }

    /**
     Starts a new run, or picks up a running one from the checkpoint it loads, if
     there is one and it is compatible. What it starts without is exactly what was
     acknowledged before and is not in that checkpoint.
     */
    method Begin(resume: bool) returns (end: Option<End>, m: Memory, loaded: Option<Checkpoint>)
      requires Consistent()
      modifies this
      ensures Consistent() && OnlyMoreOrApplied(old(controls), controls)
      ensures loaded == None || loaded == old(checkpoint)
      ensures end.None? ==> Live(m) && m.unacked == [] && forgotten == Lost(old(controls), loaded)
      ensures end.Some? ==> end.value == Refused || (end.value == Crashed && status == Running)
      ensures end == Some(Refused) <==> old(status) != (if resume then Running else Absent)
      ensures !resume && end != Some(Refused) ==> end.None? && m == BLANK
      ensures !resume ==> controls == old(controls) && checkpoint == old(checkpoint) && dropped == old(dropped)
      ensures !dropped ==> forgotten == {}
    {
      m, loaded := BLANK, None;
      if !resume {
        if status != Absent {
          return Some(Refused), m, None;
        }
        status := Running;
        StartsEmpty(controls, toolCalls, dropped, forgotten);
        return None, m, None;
      }
      loaded := checkpoint;
      if status != Running {
        return Some(Refused), m, loaded;
      }
      ghost var before := controls;
      Others();
      var dies: bool := *;
      if dies {
        return Some(Crashed), m, loaded;
      }
      var compatible: bool := *;
      if loaded.Some? {
        FaithfulLater(loaded.value.messages, loaded.value.applied, before, controls);
      }
      ghost var middle := controls;
      m, loaded := PickUp(loaded, compatible);
      LostStays(before, middle, loaded);
      end := None;
    }

    /** Goes on from the checkpoint it was given, or discards an incompatible one and starts from nothing. */
    method PickUp(found: Option<Checkpoint>, compatible: bool) returns (m: Memory, loaded: Option<Checkpoint>)
      requires Consistent() && status == Running
      requires found.Some? ==> Recoverable(found.value, controls, toolCalls)
      requires !dropped ==> checkpoint == found
      modifies this`controls, this`checkpoint, this`dropped, this`forgotten
      ensures Consistent() && Live(m) && m.unacked == []
      ensures loaded == (if compatible then found else None)
      ensures m == match loaded
                case None => BLANK
                case Some(k) => Memory(k.messages, k.applied, [], false, k.calls, k.verified, k.unresolved, {})
      ensures controls == WithApplied(old(controls), if loaded.Some? then loaded.value.applied else {})
      ensures checkpoint == old(checkpoint) || (checkpoint == None && dropped)
      ensures found.None? ==> checkpoint == old(checkpoint) && dropped == old(dropped)
      ensures forgotten == Lost(old(controls), loaded) && (!dropped ==> forgotten == {})
    {
      if found.Some? && compatible {
        m := Resume(found.value);
        return m, found;
      }
      if found.Some? {
        checkpoint, dropped := None, true;
      }
      m, loaded := BLANK, None;
      forgotten := Lost(controls, None);
      assert WithApplied(controls, {}) == controls;
      NothingCopied();
    }

    method Resume(k: Checkpoint) returns (m: Memory)
      requires Consistent() && status == Running && Recoverable(k, controls, toolCalls)
      requires !dropped ==> checkpoint == Some(k)
      modifies this`controls, this`forgotten
      ensures Live(m) && m == Memory(k.messages, k.applied, [], false, k.calls, k.verified, k.unresolved, {})
      ensures controls == WithApplied(old(controls), k.applied)
      ensures forgotten == Lost(old(controls), Some(k))
    {
      m := Memory(k.messages, k.applied, [], false, k.calls, k.verified, k.unresolved, {});
      ghost var before := controls;
      controls := WithApplied(controls, k.applied);
      forgotten := Lost(controls, Some(k));
      assert forgotten == Lost(before, Some(k));
      ResumedInStep(k, before, checkpoint, toolCalls, dropped, forgotten);
    }

    /** Ends the run without claiming completion; controls nobody saw are superseded. */
    method GiveUp(m: Memory, outcome: RunStatus)
      requires Live(m) && (outcome == Failed || outcome == Cancelled)
      modifies this`status, this`controls
      ensures Consistent() && status == outcome && !AnyPending(controls)
    {
      var done := TryFinish(outcome, if outcome == Cancelled then Elements(m.unacked) else {});
    }

    /** The process may die here, after others had their turn. */
    method Await(ghost m: Memory) returns (dies: bool)
      requires Live(m)
      modifies this`controls, this`checkpoint, this`dropped
      ensures Live(m) && Consistent() && OnlyMore(old(controls), controls)
      ensures (checkpoint == old(checkpoint) && dropped == old(dropped)) || (checkpoint == None && dropped)
    {
      OthersMeanwhile(m);
      dies := *;
    }

    /** Saves what the process knows, then acknowledges it; death in between loses nothing. */
    method SaveAndAcknowledge(m: Memory) returns (dies: bool, after: Memory)
      requires Live(m) && !m.cancelled
      modifies this`controls, this`checkpoint, this`dropped
      ensures Consistent() && status == Running
      ensures !dies ==> Live(after) && after == m.(unacked := [])
    {
      SaveCheckpoint(m);
      after := m;
      dies := Await(m);
      if dies {
        return;
      }
      after := Acknowledge(m);
      dies := Await(after);
    }

    /** Asks whether the run may end as `outcome`; refused only for the sake of a control nobody has taken in. */
    method Conclude(m: Memory) returns (done: bool)
      requires Live(m) && !m.cancelled && m.unacked == []
      modifies this`status, this`controls
      ensures done ==>
                && Consistent() && (status == Completed || status == Failed) && !AnyPending(controls)
                && (status == Completed ==> CompletedWell(m))
                && (status == Failed <==> m.unresolved > 0 || (requireVerified && m.verified == 0))
                && IsPrefix(old(controls), controls) && |controls| == |old(controls)|
      ensures !done ==> Live(m) && Overlooked(m, controls) && controls == old(controls)
    {
      var outcome := if m.unresolved > 0 || (requireVerified && m.verified == 0) then Failed else Completed;
      assert WithApplied(controls, {}) == controls;
      ghost var before := controls;
      done := TryFinish(outcome, {});
      if done && outcome == Completed {
        assert forall c :: 0 <= c < |before| ==> controls[c] == before[c];
      }
    }

    /** The tool calls of one reply, each charged to the budget before any of them runs. */
    method RunTools(m: Memory, calls: seq<ToolResult>) returns (within: bool, after: Memory)
      requires Live(m) && calls != []
      ensures within <==> m.calls + |calls| <= toolCalls
      ensures within ==> Live(after) && after.calls == m.calls + |calls|
      ensures within ==> after.applied == m.applied && after.unacked == m.unacked && after.cancelled == m.cancelled
      ensures within ==> after.verified >= m.verified && after.unresolved >= m.unresolved
      ensures within && (exists r :: r in calls && r.write && !r.verified) ==> after.unresolved > 0
    {
      after := m;
      within := m.calls + |calls| <= toolCalls;
      if !within {
        return;
      }
      after := m.(calls := m.calls + |calls|);
      for i := 0 to |calls|
        invariant Live(after) && after.calls == m.calls + |calls|
        invariant after.applied == m.applied && after.unacked == m.unacked && after.cancelled == m.cancelled
        invariant after.verified >= m.verified && after.unresolved >= m.unresolved
        invariant forall j :: 0 <= j < i && calls[j].write && !calls[j].verified ==> after.unresolved > 0
      {
        var r := calls[i];
        StillFaithful(after, Observation(r.callId, r.content));
        after := after.(
          verified := if r.verified then after.verified + 1 else after.verified,
          unresolved := if !r.verified && r.write then after.unresolved + 1 else after.unresolved,
          private := if r.private then after.private + {r.callId} else after.private,
          journal := after.journal + [Observation(r.callId, r.content)]);
      }
    }

    /** A reply without tool calls ends the run, unless something still has to be acknowledged or taken in. */
    method WithoutTools(m: Memory) returns (end: Option<End>, after: Memory)
      requires Live(m) && !m.cancelled
      modifies this`status, this`controls, this`checkpoint, this`dropped
      ensures Consistent()
      ensures end.None? ==>
                && Live(after)
                && (Measure(after) < Measure(m) || (after == m && Overlooked(m, controls)))
      ensures end.Some? ==> EndsProperly(end.value, after)
    {
      after := m;
      if m.unacked != [] {
        var dies;
        dies, after := SaveAndAcknowledge(m);
        end := if dies then Some(Crashed) else None;
        return;
      }
      var dies := Await(m);
      if dies {
        return Some(Crashed), m;
      }
      var done := Conclude(m);
      end := if done then Some(Ended(status)) else None;
    }

    /** A reply with tool calls: run them, take in controls, save, acknowledge. */
    method WithTools(m: Memory, calls: seq<ToolResult>) returns (end: Option<End>, after: Memory)
      requires Live(m) && !m.cancelled && calls != []
      modifies this`status, this`controls, this`checkpoint, this`dropped
      ensures Consistent()
      ensures end.None? ==> Live(after) && Measure(after) < Measure(m)
      ensures end.Some? ==> EndsProperly(end.value, after)
    {
      var within;
      within, after := RunTools(m, calls);
      if !within {
        after := m;
        GiveUp(m, Failed);
        return Some(Ended(Failed)), after;
      }
      var dies := Await(after);
      if dies {
        return Some(Crashed), after;
      }
      after := ApplyControls(after);
      if after.cancelled {
        GiveUp(after, Cancelled);
        return Some(Ended(Cancelled)), after;
      }
      dies, after := SaveAndAcknowledge(after);
      end := if dies then Some(Crashed) else None;
    }

    ghost predicate EndsProperly(end: End, m: Memory)
      reads this
    {
      && (end == Crashed ==> status == Running)
      && end != Refused
      && (end.Ended? ==>
            && end.status == status && (status == Completed || status == Failed || status == Cancelled)
            && !AnyPending(controls)
            && (status == Completed ==> CompletedWell(m)))
    }

    /**
     The rest of one turn after its controls were taken in, up to the point where
     the next turn has taken in its own. A turn that leads to another one uses up
     some of the measure.
     */
    method Turn(m: Memory) returns (end: Option<End>, after: Memory)
      requires Live(m)
      modifies this`status, this`controls, this`checkpoint, this`dropped
      ensures Consistent()
      ensures end.None? ==> Live(after) && Measure(after) < Measure(m)
      ensures end.Some? ==> EndsProperly(end.value, after)
    {
      after := m;
      if after.cancelled {
        GiveUp(after, Cancelled);
        return Some(Ended(Cancelled)), after;
      }
      var dies := Await(after);
      if dies {
        return Some(Crashed), after;
      }
      var content: string, calls: seq<ToolResult>, fails: bool := *, *, *;
      if fails {
        GiveUp(after, Failed);
        return Some(Ended(Failed)), after;
      }
      StillFaithful(after, Reply(content, |calls|));
      after := after.(journal := after.journal + [Reply(content, |calls|)]);
      after := ApplyControls(after);
      if after.cancelled {
        GiveUp(after, Cancelled);
        return Some(Ended(Cancelled)), after;
      }
      if calls == [] {
        end, after := WithoutTools(after);
      } else {
        end, after := WithTools(after, calls);
      }
      if end.None? {
        dies := Await(after);
        if dies {
          return Some(Crashed), after;
        }
        after := ApplyControls(after);
      }
    }

    /**
     One process working on the run until it ends or dies. However it ends, the
     tables stay consistent, and the number of turns is bounded by the tool budget and
     the number of controls. A completed run has every control in its journal once,
     except precisely those that were acknowledged when this process started and are
     not in the checkpoint it loaded.
     */
    method Run(resume: bool) returns (end: End, m: Memory, turns: nat, loaded: Option<Checkpoint>)
      requires Consistent()
      modifies this
      ensures Consistent() && (!dropped ==> forgotten == {})
      ensures end != Refused ==> EndsProperly(end, m)
      ensures loaded == None || loaded == old(checkpoint)
      ensures end == Ended(Completed) ==>
                forall c :: 0 <= c < |controls| ==> Copies(m.journal, c) == if c in Lost(old(controls), loaded) then 0 else 1
      ensures turns <= toolCalls + 2 * maxControls + 1
    {
      turns := 0;
      var begun: Option<End>;
      begun, m, loaded := Begin(resume);
      if begun.Some? {
        return begun.value, m, 0, loaded;
      }
      var dies := Await(m);
      if dies {
        return Crashed, m, 0, loaded;
      }
      m := ApplyControls(m);
      MeasureIsBounded(m);
      while true
        invariant Live(m) && forgotten == Lost(old(controls), loaded)
        invariant turns + Measure(m) <= toolCalls + 2 * maxControls
        decreases Measure(m)
      {
        turns := turns + 1;
        MeasureIsBounded(m);
        ghost var before := Measure(m);
        var ended: Option<End>;
        ended, m := Turn(m);
        if ended.Some? {
          return ended.value, m, turns, loaded;
        }
        MeasureIsBounded(m);
      }
    }

    /** Any number of processes one after another, each dying or finishing. */
    method Lifetime(processes: nat) returns (end: End, m: Memory)
      requires Consistent() && status == Absent
      modifies this
      ensures Consistent() && (!dropped ==> forgotten == {})
      ensures end.Ended? ==> EndsProperly(end, m)
      ensures end == Ended(Completed) && !dropped ==> forall c :: 0 <= c < |controls| ==> Copies(m.journal, c) == 1
    {
      var turns, loaded;
      end, m, turns, loaded := Run(false);
      for p := 0 to processes
        invariant Consistent() && (!dropped ==> forgotten == {})
        invariant end.Ended? ==> EndsProperly(end, m)
      {
        if !end.Ended? {
          end, m, turns, loaded := Run(true);
        }
      }
    }

    lemma StillFaithful(m: Memory, e: Entry)
      requires Live(m) && !e.Instruction?
      ensures Live(m.(journal := m.journal + [e]))
    {
      forall c: ControlId
        ensures Copies(m.journal + [e], c) == Copies(m.journal, c)
      {
        CopiesAppend(m.journal, [e], c);
      }
    }

    lemma TakeIn(m: Memory, c: ControlId)
      requires Live(m) && c < |controls| && controls[c].state == Pending && c !in m.applied
      ensures Live(WithControl(m, controls[c], c))
    {
      var after := WithControl(m, controls[c], c);
      forall x: ControlId
        ensures Copies(after.journal, x)
             == if x in after.applied && !Stops(controls[x].kind) then 1 else 0
      {
        CopiesAppend(m.journal, [Instruction(c, controls[c].text)], x);
        assert Copies(m.journal, x) == if x in m.applied && !Stops(controls[x].kind) then 1 else 0;
      }
      assert forall x :: x in after.unacked <==> x in m.unacked || x == c;
    }
  }

  /** The controls acknowledged already that a process starting from this checkpoint does not have. */
  function Lost(controls: seq<Control>, loaded: Option<Checkpoint>): set<ControlId> {
    set c: ControlId | c < |controls| && controls[c].state == Applied && (loaded.Some? ==> c !in loaded.value.applied)
  }

  lemma {:induction false} LostStays(a: seq<Control>, b: seq<Control>, loaded: Option<Checkpoint>)
    requires OnlyMore(a, b)
    ensures Lost(a, loaded) == Lost(b, loaded)
  {
  }

  function WithControl(m: Memory, control: Control, c: ControlId): Memory {
    m.(applied := m.applied + {c}, unacked := m.unacked + [c],
       cancelled := m.cancelled || Stops(control.kind),
       journal := if Stops(control.kind) then m.journal else m.journal + [Instruction(c, control.text)])
  }

  /** Old controls are as they were, new ones are pending. */
  ghost predicate OnlyMore(a: seq<Control>, b: seq<Control>) {
    && |a| <= |b|
    && (forall c :: 0 <= c < |a| ==> b[c] == a[c])
    && (forall c :: |a| <= c < |b| ==> b[c].state == Pending)
  }

  /** Old controls keep what they say, and none goes back to pending. */
  ghost predicate OnlyMoreOrApplied(a: seq<Control>, b: seq<Control>) {
    IsPrefix(a, b) && forall c :: 0 <= c < |a| && b[c].state == Pending ==> a[c].state == Pending
  }

  lemma {:induction false} ResumedInStep(
    k: Checkpoint, before: seq<Control>, checkpoint: Option<Checkpoint>, limit: nat, dropped: bool,
    forgotten: set<ControlId>)
    requires exists f :: Durable(Running, before, checkpoint, limit, dropped, f)
    requires Recoverable(k, before, limit) && (!dropped ==> checkpoint == Some(k))
    requires var controls := WithApplied(before, k.applied);
             forgotten == set c: ControlId | c < |controls| && controls[c].state == Applied && c !in k.applied
    ensures InStep(
              Memory(k.messages, k.applied, [], false, k.calls, k.verified, k.unresolved, {}),
              WithApplied(before, k.applied), checkpoint, limit, dropped, forgotten)
  {
    var controls := WithApplied(before, k.applied);
    FaithfulLater(k.messages, k.applied, before, controls);
    if checkpoint.Some? {
      FaithfulLater(checkpoint.value.messages, checkpoint.value.applied, before, controls);
    }
  }

  lemma {:induction false} AcknowledgedInStep(
    m: Memory, before: seq<Control>, checkpoint: Option<Checkpoint>, limit: nat, dropped: bool, forgotten: set<ControlId>)
    requires InStep(m, before, checkpoint, limit, dropped, forgotten) && !m.cancelled
    requires !dropped ==> checkpoint.Some? && m.applied <= checkpoint.value.applied
    ensures InStep(
              m.(unacked := []), WithApplied(before, Elements(m.unacked)), checkpoint, limit, dropped, forgotten)
  {
    var controls := WithApplied(before, Elements(m.unacked));
    FaithfulLater(m.journal, m.applied, before, controls);
    if checkpoint.Some? {
      FaithfulLater(checkpoint.value.messages, checkpoint.value.applied, before, controls);
    }
  }

  lemma {:induction false} StartsEmpty(controls: seq<Control>, limit: nat, dropped: bool, forgotten: set<ControlId>)
    requires Durable(Absent, controls, None, limit, dropped, forgotten)
    ensures InStep(BLANK, controls, None, limit, dropped, forgotten)
  {
  }

  lemma {:induction false} NothingCopied()
    ensures forall c: ControlId :: Copies([], c) == 0
  {
  }

  lemma {:induction false} FitsBelow(s: set<ControlId>, n: nat)
    requires forall c :: c in s ==> c < n
    ensures |s| <= n
    decreases n
  {
    if n > 0 {
      FitsBelow(s - {n - 1}, n - 1);
      assert s == (s - {n - 1}) + (if n - 1 in s then {n - 1} else {});
    } else {
      assert s == {};
    }
  }

  /** Some pending control has not been taken in yet. */
  ghost predicate Overlooked(m: Memory, controls: seq<Control>) {
    exists c: ControlId :: c < |controls| && controls[c].state == Pending && c !in m.applied
  }

  lemma {:induction false} GrowsWhenOverlooked(m: Memory, after: Memory, controls: seq<Control>)
    requires m.applied <= after.applied
    requires forall c :: 0 <= c < |controls| && controls[c].state == Pending ==> c in after.applied
    ensures |m.applied| <= |after.applied|
    ensures Overlooked(m, controls) ==> |m.applied| < |after.applied|
  {
    assert after.applied == m.applied + (after.applied - m.applied);
    if Overlooked(m, controls) {
      var c: ControlId :| c < |controls| && controls[c].state == Pending && c !in m.applied;
      assert c in after.applied - m.applied;
    }
  }

  /**
   Exactly-once delivery does fail when a checkpoint is thrown away: here a steering
   message was acknowledged, its checkpoint is gone, and the process that resumes
   the run starts, in step with the tables, without ever seeing the message.
   */
  lemma {:induction false} DroppedCheckpointLosesSteering(text: string, limit: nat)
    ensures var controls := [Control(Steer, text, Applied)];
            && Durable(Running, controls, None, limit, true, {})
            && InStep(BLANK, controls, None, limit, true, {0})
            && !Overlooked(BLANK, controls) && Copies(BLANK.journal, 0) == 0
  {
    NothingCopied();
  }

  /** A new run takes in a steering message. */
  method TakeSteering(text: string) returns (run: RootRun, m: Memory)
    ensures fresh(run) && run.Live(m) && !m.cancelled && 0 in m.unacked
    ensures run.controls == [Control(Steer, text, Pending)] && !run.requireVerified
  {
    run := new RootRun(0, false, 1);
    run.Admit([(Steer, text)]);
    var end, loaded;
    end, m, loaded := run.Begin(false);
    m := run.ApplyControls(m);
    assert 0 in m.applied && !Stops(run.controls[0].kind);
  }

  /** It answers, saves its checkpoint and acknowledges the message; then the process dies. */
  method AcknowledgeAndDie(text: string) returns (run: RootRun)
    ensures fresh(run) && run.Consistent() && run.status == Running && run.checkpoint.Some?
    ensures run.controls == [Control(Steer, text, Applied)] && !run.requireVerified
  {
    var m;
    run, m := TakeSteering(text);
    run.StillFaithful(m, Reply("working", 0));
    m := m.(journal := m.journal + [Reply("working", 0)]);
    run.SaveCheckpoint(m);
    assert 0 in Elements(m.unacked);
    m := run.Acknowledge(m);
  }

  /** The checkpoint is deleted because a source changed, and the next process starts without it. */
  method PickUpForgotten(run: RootRun) returns (m: Memory)
    requires run.Consistent() && run.status == Running && run.checkpoint.Some?
    requires forall c :: 0 <= c < |run.controls| ==> run.controls[c].state == Applied
    modifies run
    ensures run.Live(m) && m == BLANK && run.controls == old(run.controls)
    ensures !Overlooked(m, run.controls)
  {
    run.DropCheckpoint();
    var loaded;
    m, loaded := run.PickUp(None, true);
    assert run.controls == old(run.controls);
  }

  /** It has nothing to take in and completes the run. */
  method ForgetAndComplete(run: RootRun) returns (m: Memory)
    requires run.Consistent() && run.status == Running && run.checkpoint.Some? && !run.requireVerified
    requires |run.controls| == 1 && run.controls[0].kind == Steer && run.controls[0].state == Applied
    modifies run
    ensures run.CompletedWell(m) && run.controls == old(run.controls) && Copies(m.journal, 0) == 0
  {
    m := PickUpForgotten(run);
    m := run.ApplyControls(m);
    run.StillFaithful(m, Reply("done", 0));
    m := m.(journal := m.journal + [Reply("done", 0)]);
    assert !Overlooked(m, run.controls);
    m := run.ApplyControls(m);
    var done := run.Conclude(m);
  }

  /** And such a run exists: its journal has no copy of a message that was acknowledged. */
  method LoseSteering(text: string) returns (run: RootRun, m: Memory)
    ensures fresh(run) && run.CompletedWell(m)
    ensures run.controls == [Control(Steer, text, Applied)] && Copies(m.journal, 0) == 0
  {
    run := AcknowledgeAndDie(text);
    m := ForgetAndComplete(run);
  }
}

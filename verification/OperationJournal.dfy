/**
 The journal that keeps an external write from running twice. The first half is one
 attempt against the table of claims; the second half runs any number of attempts
 on one key side by side, with clocks, crashes and late wake-ups.
 */
module OperationJournal {
  import opened Outcomes

  datatype RowState = Claimed | ReconciliationRequired | Completed(result: string)

  datatype Row = Row(kind: string, state: RowState, owner: string, expires: int)

  datatype Claim = Fresh | Recovery | Done(result: string) | InProgress

  function ClaimOf(row: Option<Row>, now: int): Claim {
    if row.None? then Fresh
    else if row.value.state.Completed? then Done(row.value.state.result)
    else if row.value.expires > now then InProgress
    else Recovery
  }

  function RowAfterClaim(row: Option<Row>, kind: string, owner: string, expires: int, now: int): Option<Row> {
    match ClaimOf(row, now)
    case Fresh => Some(Row(kind, Claimed, owner, expires))
    case Recovery => Some(row.value.(state := ReconciliationRequired, owner := owner, expires := expires))
    case Done(_) => row
    case InProgress => row
  }

  predicate MayComplete(row: Option<Row>, owner: string) {
    row.Some? && !row.value.state.Completed? && row.value.owner == owner
  }

  function RowAfterComplete(row: Option<Row>, owner: string, result: string): Option<Row> {
    if MayComplete(row, owner) then Some(row.value.(state := Completed(result))) else row
  }

  // ---------------------------------------------------------- one attempt

  /** What a tool's live check answers about an operation whose fate is unknown. */
  datatype Reconciliation = Unreachable | FoundDone(refs: seq<string>) | SafeToExecute | Ambiguous

  /** How running and verifying the tool ends. */
  datatype Execution = Crashes | Fails | Unverified | Verified(refs: seq<string>)

  datatype Answer =
    | Died | Replayed(result: string) | Busy | Uncertain | AlreadyDone | AmbiguousEffect
    | ToolError | Finished(verified: bool) | LostClaim

  type Key = (string, string, string, int, string)

  /** What one attempt does to the row: the claim, what it answers, whether it executes, the row it leaves. */
  datatype Trace = Trace(answer: Answer, executed: bool, row: Option<Row>)

  function Completing(row: Option<Row>, owner: string, refs: seq<string>, done: Answer, executed: bool): Trace {
    if refs == [] then Trace(done, executed, row)
    else Trace(if MayComplete(row, owner) then done else LostClaim, executed, RowAfterComplete(row, owner, refs[0]))
  }

  function Executing(row: Option<Row>, owner: string, run: Execution, dies: nat): Trace {
    if dies == 1 then Trace(Died, false, row)
    else match run
      case Crashes => Trace(Died, true, row)
      case Fails => Trace(ToolError, true, row)
      case Unverified => Trace(Finished(false), true, row)
      case Verified(refs) => Completing(row, owner, refs, Finished(true), true)
  }

  function Attempted(
    row: Option<Row>, kind: string, owner: string, now: int, lease: nat, check: Reconciliation, run: Execution, dies: nat)
    : Trace
  {
    var claimed := RowAfterClaim(row, kind, owner, now + lease, now);
    if dies == 0 then Trace(Died, false, claimed)
    else match ClaimOf(row, now)
      case Done(result) => Trace(if result != "" then Replayed(result) else Busy, false, claimed)
      case InProgress => Trace(Busy, false, claimed)
      case Fresh => Executing(claimed, owner, run, dies)
      case Recovery =>
        match check
        case Unreachable => Trace(Uncertain, false, claimed)
        case Ambiguous => Trace(AmbiguousEffect, false, claimed)
        case FoundDone(refs) => Completing(claimed, owner, refs, AlreadyDone, false)
        case SafeToExecute => Executing(claimed, owner, run, dies)
  }

  ghost predicate SameElsewhere(a: map<Key, Row>, b: map<Key, Row>, key: Key) {
    forall k: Key :: k != key ==> (k in a <==> k in b) && (k in a ==> a[k] == b[k])
  }

  class Journal {
    var rows: map<Key, Row>

    constructor ()
      ensures rows == map[]
    {
      rows := map[];
    }

    function RowAt(key: Key): Option<Row>
      reads this
    {
      if key in rows then Some(rows[key]) else None
    }

    method ClaimIdempotency(key: Key, kind: string, owner: string, expires: int, now: int) returns (claim: Claim)
      modifies this
      ensures claim == ClaimOf(old(RowAt(key)), now)
      ensures RowAt(key) == RowAfterClaim(old(RowAt(key)), kind, owner, expires, now)
      ensures SameElsewhere(old(rows), rows, key)
    {
      if key in rows {
        var row := rows[key];
        if row.state.Completed? {
          return Done(row.state.result);
        }
        if row.expires > now {
          return InProgress;
        }
        rows := rows[key := row.(state := ReconciliationRequired, owner := owner, expires := expires)];
        return Recovery;
      }
      rows := rows[key := Row(kind, Claimed, owner, expires)];
      claim := Fresh;
    }

    method CompleteIdempotency(key: Key, owner: string, result: string) returns (ok: bool)
      modifies this
      ensures ok <==> MayComplete(old(RowAt(key)), owner)
      ensures RowAt(key) == RowAfterComplete(old(RowAt(key)), owner, result)
      ensures SameElsewhere(old(rows), rows, key)
    {
      ok := key in rows && !rows[key].state.Completed? && rows[key].owner == owner;
      if ok {
        rows := rows[key := rows[key].(state := Completed(result))];
      }
    }

    /**
     One attempt at a write: claim, reconcile if an earlier attempt may have got
     through, execute, complete. The process may die after any store call.
     */
    method ExecuteWrite(
      key: Key, kind: string, owner: string, now: int, lease: nat, check: Reconciliation, run: Execution, dies: nat)
      returns (answer: Answer, executed: bool)
      modifies this
      ensures SameElsewhere(old(rows), rows, key)
      ensures Trace(answer, executed, RowAt(key)) == Attempted(old(RowAt(key)), kind, owner, now, lease, check, run, dies)
      ensures executed ==> old(RowAt(key)).None? || (ClaimOf(old(RowAt(key)), now) == Recovery && check == SafeToExecute)
      ensures old(RowAt(key)).Some? && old(RowAt(key)).value.state.Completed? ==>
                !executed && RowAt(key) == old(RowAt(key))
      ensures ClaimOf(old(RowAt(key)), now) == InProgress ==>
                !executed && (answer == Busy || answer == Died) && RowAt(key) == old(RowAt(key))
      ensures RowAt(key).Some? && (RowAt(key).value.state.Completed? ==>
                || RowAt(key) == old(RowAt(key))
                || (executed && run.Verified? && run.refs != [] && RowAt(key).value.state.result == run.refs[0])
                || (!executed && check.FoundDone? && check.refs != [] && RowAt(key).value.state.result == check.refs[0]))
      ensures answer == Finished(true) && executed && run.Verified? && run.refs != [] ==> RowAt(key).value.state == Completed(run.refs[0])
      ensures answer.Replayed? ==> ClaimOf(old(RowAt(key)), now) == Done(answer.result)
    {
      executed := false;
      var claim := ClaimIdempotency(key, kind, owner, now + lease, now);
      if dies == 0 {
        return Died, false;
      }
      match claim {
        case Done(result) => return if result != "" then Replayed(result) else Busy, false;
        case InProgress => return Busy, false;
        case Fresh =>
        case Recovery =>
          match check {
            case Unreachable => return Uncertain, false;
            case Ambiguous => return AmbiguousEffect, false;
            case FoundDone(refs) =>
              if refs != [] {
                var ok := CompleteIdempotency(key, owner, refs[0]);
                return if ok then AlreadyDone else LostClaim, false;
              }
              return AlreadyDone, false;
            case SafeToExecute =>
          }
      }
      if dies == 1 {
        return Died, false;
      }
      executed := true;
      match run {
        case Crashes => answer := Died;
        case Fails => answer := ToolError;
        case Unverified => answer := Finished(false);
        case Verified(refs) =>
          answer := Finished(true);
          if refs != [] {
            var ok := CompleteIdempotency(key, owner, refs[0]);
            answer := if ok then Finished(true) else LostClaim;
          }
      }
    }
  }

  // ------------------------------------------- many attempts on one key

  datatype Phase = Reconciling | Cleared(reconciled: bool) | Executed | Closed

  /** An attempt that holds, or once held, the claim until `until`. */
  datatype Attempt = Attempt(until: int, phase: Phase)

  /** `runs` counts executions of the tool, `blind` those that no reconciliation cleared, `safe` the clearances. */
  datatype World = World(now: int, row: Option<Row>, attempts: seq<Attempt>, runs: nat, blind: nat, safe: nat)

  datatype Step =
    | Wait(ms: nat)
    | Begin(lease: nat)
    | Reconcile(i: nat, check: Reconciliation)
    | Execute(i: nat)
    | Complete(i: nat, refs: seq<string>)
    | Die(i: nat)

  const START: World := World(0, None, [], 0, 0, 0)

  /** All attempts on one key belong to one run and node, hence to one owner name. */
  const OWNER: string := "run:node"

  predicate Enabled(w: World, s: Step) {
    match s
    case Wait(_) => true
    case Begin(_) => true
    case Reconcile(i, _) => i < |w.attempts| && w.attempts[i].phase == Reconciling
    case Execute(i) => i < |w.attempts| && w.attempts[i].phase.Cleared?
    case Complete(i, _) => i < |w.attempts| && w.attempts[i].phase == Executed
    case Die(i) => i < |w.attempts|
  }

  function WithPhase(w: World, i: nat, p: Phase): World
    requires i < |w.attempts|
  {
    w.(attempts := w.attempts[i := w.attempts[i].(phase := p)])
  }

  function Next(w: World, s: Step): World
    requires Enabled(w, s)
  {
    match s
    case Wait(ms) => w.(now := w.now + ms)
    case Begin(lease) =>
      var until := w.now + lease;
      var phase := match ClaimOf(w.row, w.now)
        case Fresh => Cleared(false)
        case Recovery => Reconciling
        case Done(_) => Closed
        case InProgress => Closed;
      w.(row := RowAfterClaim(w.row, "write", OWNER, until, w.now), attempts := w.attempts + [Attempt(until, phase)])
    case Reconcile(i, check) =>
      (match check
       case SafeToExecute => WithPhase(w, i, Cleared(true)).(safe := w.safe + 1)
       case FoundDone(refs) =>
         if refs == [] then WithPhase(w, i, Closed)
         else WithPhase(w, i, Closed).(row := RowAfterComplete(w.row, OWNER, refs[0]))
       case Unreachable => WithPhase(w, i, Closed)
       case Ambiguous => WithPhase(w, i, Closed))
    case Execute(i) =>
      WithPhase(w, i, Executed).(
        runs := w.runs + 1, blind := w.blind + if w.attempts[i].phase.reconciled then 0 else 1)
    case Complete(i, refs) =>
      if refs == [] then WithPhase(w, i, Closed)
      else WithPhase(w, i, Closed).(row := RowAfterComplete(w.row, OWNER, refs[0]))
    case Die(i) => WithPhase(w, i, Closed)
  }

  /** The worlds passed through from `w`. */
  ghost predicate Follows(worlds: seq<World>, steps: seq<Step>) {
    && |worlds| == |steps| + 1
    && forall k :: 0 <= k < |steps| ==> Enabled(worlds[k], steps[k]) && worlds[k + 1] == Next(worlds[k], steps[k])
  }

  function CountPhase(attempts: seq<Attempt>, p: Phase): nat {
    if attempts == [] then 0
    else CountPhase(attempts[..|attempts| - 1], p) + if attempts[|attempts| - 1].phase == p then 1 else 0
  }

  lemma {:induction false} CountAfter(attempts: seq<Attempt>, i: nat, q: Phase, p: Phase)
    requires i < |attempts|
    ensures CountPhase(attempts[i := attempts[i].(phase := q)], p)
         == CountPhase(attempts, p) - (if attempts[i].phase == p then 1 else 0) + (if q == p then 1 else 0)
  {
    var last := |attempts| - 1;
    var changed := attempts[i := attempts[i].(phase := q)];
    if i == last {
      assert changed[..last] == attempts[..last];
    } else {
      CountAfter(attempts[..last], i, q, p);
      assert changed[..last] == attempts[..last][i := attempts[..last][i].(phase := q)];
    }
  }

  /** A claim nobody reconciled is given out once, and every clearance is used at most once. */
  ghost predicate Bounded(w: World) {
    && w.blind + CountPhase(w.attempts, Cleared(false)) <= (if w.row.None? then 0 else 1)
    && w.runs + CountPhase(w.attempts, Cleared(true)) <= w.blind + w.safe
  }

  lemma {:induction false} BoundedStep(w: World, s: Step)
    requires Bounded(w) && Enabled(w, s)
    ensures Bounded(Next(w, s))
  {
    var after := Next(w, s);
    match s
    case Wait(_) =>
    case Begin(_) =>
      assert after.attempts[..|w.attempts|] == w.attempts;
    case Reconcile(i, check) =>
      CountAfter(w.attempts, i, after.attempts[i].phase, Cleared(false));
      CountAfter(w.attempts, i, after.attempts[i].phase, Cleared(true));
    case Execute(i) =>
      CountAfter(w.attempts, i, Executed, Cleared(false));
      CountAfter(w.attempts, i, Executed, Cleared(true));
    case Complete(i, _) =>
      CountAfter(w.attempts, i, Closed, Cleared(false));
      CountAfter(w.attempts, i, Closed, Cleared(true));
    case Die(i) =>
      CountAfter(w.attempts, i, Closed, Cleared(false));
      CountAfter(w.attempts, i, Closed, Cleared(true));
  }

  /**
   Over any interleaving of attempts, clocks and crashes the tool runs at most once
   without a reconciliation that declared it safe, and at most once more per such
   declaration.
   */
  lemma {:induction false} RunsAtMostOnceUncleared(worlds: seq<World>, steps: seq<Step>)
    requires Follows(worlds, steps) && worlds[0] == START
    ensures var w := worlds[|steps|]; w.blind <= 1 && w.runs <= 1 + w.safe
    ensures Bounded(worlds[|steps|])
    decreases |steps|
  {
    if steps != [] {
      var last := |steps| - 1;
      assert Enabled(worlds[last], steps[last]) && worlds[last + 1] == Next(worlds[last], steps[last]);
      RunsAtMostOnceUncleared(worlds[..|steps|], steps[..last]);
      BoundedStep(worlds[last], steps[last]);
    }
  }

  /** A recorded result is never replaced. */
  lemma {:induction false} ResultIsFinal(worlds: seq<World>, steps: seq<Step>, i: nat, j: nat)
    requires Follows(worlds, steps) && i <= j < |worlds|
    requires worlds[i].row.Some? && worlds[i].row.value.state.Completed?
    ensures worlds[j].row == worlds[i].row
    decreases j - i
  {
    if i < j {
      ResultIsFinal(worlds, steps, i, j - 1);
      assert Enabled(worlds[j - 1], steps[j - 1]) && worlds[j - 1 + 1] == Next(worlds[j - 1], steps[j - 1]);
    }
  }

  // ------------------------------------------------- after completion

  predicate Settled(w: World) {
    w.row.Some? && w.row.value.state.Completed?
  }

  /** An attempt that may still execute the tool: it is cleared, or a reconciliation may clear it. */
  predicate MayStillRun(w: World, i: nat) {
    i < |w.attempts| && (w.attempts[i].phase.Cleared? || w.attempts[i].phase == Reconciling)
  }

  ghost predicate RunsAgain(w: World) {
    exists worlds: seq<World>, steps: seq<Step> :: Follows(worlds, steps) && worlds[0] == w && worlds[|steps|].runs > w.runs
  }

  lemma {:induction false} QuietStep(w: World, s: Step)
    requires Settled(w) && Enabled(w, s) && !exists i: nat :: MayStillRun(w, i)
    ensures Settled(Next(w, s)) && Next(w, s).runs == w.runs && !exists i: nat :: MayStillRun(Next(w, s), i)
  {
    var after := Next(w, s);
    assert s.Execute? || s.Reconcile? ==> MayStillRun(w, s.i);
    forall i: nat
      ensures !MayStillRun(after, i)
    {
      assert !MayStillRun(w, i);
    }
  }

  lemma {:induction false} StaysQuiet(worlds: seq<World>, steps: seq<Step>, j: nat)
    requires Follows(worlds, steps) && j < |worlds|
    requires Settled(worlds[0]) && !exists i: nat :: MayStillRun(worlds[0], i)
    ensures Settled(worlds[j]) && worlds[j].runs == worlds[0].runs && !exists i: nat :: MayStillRun(worlds[j], i)
    decreases j
  {
    if j > 0 {
      StaysQuiet(worlds, steps, j - 1);
      assert Enabled(worlds[j - 1], steps[j - 1]) && worlds[j - 1 + 1] == Next(worlds[j - 1], steps[j - 1]);
      QuietStep(worlds[j - 1], steps[j - 1]);
    }
  }

  /** A cleared attempt runs at once; one that still reconciles runs when the answer is that it is safe. */
  lemma {:induction false} RunningAgain(w: World, i: nat) returns (worlds: seq<World>, steps: seq<Step>)
    requires MayStillRun(w, i)
    ensures Follows(worlds, steps) && worlds[0] == w && worlds[|steps|].runs == w.runs + 1
  {
    if w.attempts[i].phase.Cleared? {
      steps := [Execute(i)];
      worlds := [w, Next(w, steps[0])];
    } else {
      steps := [Reconcile(i, SafeToExecute), Execute(i)];
      var cleared := Next(w, steps[0]);
      worlds := [w, cleared, Next(cleared, steps[1])];
    }
  }

  /**
   Exactly when the tool can run after the operation was completed: when some
   attempt is still cleared, or still reconciling, at that moment.
   */
  lemma {:induction false} RunsAgainExactly(w: World)
    requires Settled(w)
    ensures RunsAgain(w) <==> exists i: nat :: MayStillRun(w, i)
  {
    if exists i: nat :: MayStillRun(w, i) {
      var i: nat :| MayStillRun(w, i);
      var worlds, steps := RunningAgain(w, i);
    } else if RunsAgain(w) {
      var worlds: seq<World>, steps: seq<Step> :| Follows(worlds, steps) && worlds[0] == w && worlds[|steps|].runs > w.runs;
      StaysQuiet(worlds, steps, |steps|);
    }
  }

  /** Attempts do nothing more once their claim has run out; only dying is always possible. */
  predicate Punctual(w: World, s: Step) {
    match s
    case Wait(_) => true
    case Begin(_) => true
    case Die(_) => true
    case Reconcile(i, _) => i < |w.attempts| && w.now < w.attempts[i].until
    case Execute(i) => i < |w.attempts| && w.now < w.attempts[i].until
    case Complete(i, _) => i < |w.attempts| && w.now < w.attempts[i].until
  }

  predicate Active(w: World, i: nat) {
    i < |w.attempts| && w.attempts[i].phase != Closed && w.now < w.attempts[i].until
  }

  /** Only one attempt can be active, it holds the row, and the row is not completed. */
  ghost predicate Exclusive(w: World) {
    && (forall i: nat, j: nat :: Active(w, i) && Active(w, j) ==> i == j)
    && (forall i: nat :: Active(w, i) ==>
          w.row.Some? && !w.row.value.state.Completed? && w.row.value.expires == w.attempts[i].until)
  }

  lemma {:induction false} ExclusiveStep(w: World, s: Step)
    requires Exclusive(w) && Enabled(w, s) && Punctual(w, s)
    ensures Exclusive(Next(w, s))
  {
    var after := Next(w, s);
    forall i: nat | Active(after, i)
      ensures i < |w.attempts| ==> Active(w, i)
    {
    }
    match s
    case Wait(_) =>
    case Begin(_) =>
      forall i: nat | Active(after, i) && i < |w.attempts|
        ensures ClaimOf(w.row, w.now) == InProgress
      {
        assert Active(w, i);
      }
    case Reconcile(i, _) => assert Active(w, i);
    case Execute(i) => assert Active(w, i);
    case Complete(i, _) => assert Active(w, i);
    case Die(_) =>
  }

  /**
   If attempts respect their claims' expiry, only those whose claim has run out by
   the time of completion can still run the tool, so whether it runs again hangs on them alone.
   */
  lemma {:induction false} OnlyLateAttemptsRunAgain(worlds: seq<World>, steps: seq<Step>, i: nat)
    requires Follows(worlds, steps) && worlds[0] == START && i < |worlds|
    requires forall k :: 0 <= k < |steps| ==> Punctual(worlds[k], steps[k])
    requires Settled(worlds[i])
    ensures RunsAgain(worlds[i]) <==> exists a: nat :: MayStillRun(worlds[i], a) && worlds[i].attempts[a].until <= worlds[i].now
  {
    var w := worlds[i];
    RunsAgainExactly(w);
    AlwaysExclusive(worlds, steps, i);
    forall a: nat | MayStillRun(w, a)
      ensures w.attempts[a].until <= w.now
    {
      assert !Active(w, a);
    }
  }

  /** And as long as these stay punctual too, the tool never runs again. */
  lemma {:induction false} NoRunAfterCompletion(worlds: seq<World>, steps: seq<Step>, i: nat, j: nat)
    requires Follows(worlds, steps) && worlds[0] == START && i <= j < |worlds|
    requires forall k :: 0 <= k < |steps| ==> Punctual(worlds[k], steps[k])
    requires Settled(worlds[i])
    ensures worlds[j].runs == worlds[i].runs
    decreases j - i
  {
    if i < j {
      NoRunAfterCompletion(worlds, steps, i, j - 1);
      ResultIsFinal(worlds, steps, i, j - 1);
      AlwaysExclusive(worlds, steps, j - 1);
      assert Enabled(worlds[j - 1], steps[j - 1]) && worlds[j - 1 + 1] == Next(worlds[j - 1], steps[j - 1]);
      var w := worlds[j - 1];
      assert forall a: nat :: !Active(w, a);
    }
  }

  lemma {:induction false} AlwaysExclusive(worlds: seq<World>, steps: seq<Step>, j: nat)
    requires Follows(worlds, steps) && worlds[0] == START && j < |worlds|
    requires forall k :: 0 <= k < |steps| ==> Punctual(worlds[k], steps[k])
    ensures Exclusive(worlds[j])
    decreases j
  {
    if j > 0 {
      AlwaysExclusive(worlds, steps, j - 1);
      assert Enabled(worlds[j - 1], steps[j - 1]) && worlds[j - 1 + 1] == Next(worlds[j - 1], steps[j - 1]);
      ExclusiveStep(worlds[j - 1], steps[j - 1]);
    }
  }

  /**
   Without that discipline it can run again: an attempt claims and stalls past its
   lease, a second one finds the effect in place and completes, the first wakes up.
   */
  lemma {:induction false} LateAttemptRunsAfterCompletion(result: string) returns (worlds: seq<World>, steps: seq<Step>)
    ensures Follows(worlds, steps) && worlds[0] == START && |steps| == 5
    ensures worlds[4].row.Some? && worlds[4].row.value.state == Completed(result) && worlds[4].runs == 0
    ensures worlds[5].runs == 1
  {
    steps := [Begin(1), Wait(1), Begin(1), Reconcile(1, FoundDone([result])), Execute(0)];
    var w1 := Next(START, steps[0]);
    var w2 := Next(w1, steps[1]);
    var w3 := Next(w2, steps[2]);
    var w4 := Next(w3, steps[3]);
    var w5 := Next(w4, steps[4]);
    worlds := [START, w1, w2, w3, w4, w5];
  }

  // ---------------------------------------------- one attempt as steps of many

  lemma {:induction false} OneStep(worlds: seq<World>, steps: seq<Step>, s: Step)
    requires Follows(worlds, steps) && Enabled(worlds[|steps|], s)
    ensures Follows(worlds + [Next(worlds[|steps|], s)], steps + [s])
  {
    var more, longer := worlds + [Next(worlds[|steps|], s)], steps + [s];
    forall k | 0 <= k < |longer|
      ensures Enabled(more[k], longer[k]) && more[k + 1] == Next(more[k], longer[k])
    {
      if k < |steps| {
        assert Enabled(worlds[k], steps[k]) && worlds[k + 1] == Next(worlds[k], steps[k]);
      }
    }
  }

  /** Completing, or not, after the steps so far. */
  lemma {:induction false} CompletingIsSteps(
    worlds: seq<World>, steps: seq<Step>, i: nat, refs: seq<string>) returns (more: seq<World>, longer: seq<Step>)
    requires Follows(worlds, steps)
    requires i < |worlds[|steps|].attempts| && worlds[|steps|].attempts[i].phase == Executed
    ensures Follows(more, longer) && more[0] == worlds[0]
    ensures more[|longer|].row == Completing(worlds[|steps|].row, OWNER, refs, Finished(true), true).row
    ensures more[|longer|].runs == worlds[|steps|].runs
  {
    OneStep(worlds, steps, Complete(i, refs));
    more, longer := worlds + [Next(worlds[|steps|], Complete(i, refs))], steps + [Complete(i, refs)];
  }

  lemma {:induction false} ExecutingIsSteps(
    worlds: seq<World>, steps: seq<Step>, i: nat, run: Execution, dies: nat)
    returns (more: seq<World>, longer: seq<Step>)
    requires Follows(worlds, steps)
    requires i < |worlds[|steps|].attempts| && worlds[|steps|].attempts[i].phase.Cleared?
    ensures Follows(more, longer) && more[0] == worlds[0]
    ensures var t := Executing(worlds[|steps|].row, OWNER, run, dies);
            more[|longer|].row == t.row && more[|longer|].runs == worlds[|steps|].runs + if t.executed then 1 else 0
  {
    if dies == 1 {
      return worlds, steps;
    }
    OneStep(worlds, steps, Execute(i));
    more, longer := worlds + [Next(worlds[|steps|], Execute(i))], steps + [Execute(i)];
    if run.Verified? {
      more, longer := CompletingIsSteps(more, longer, i, run.refs);
    }
  }

  /** Whatever one attempt does to the row, and whether it runs the tool, is reached by steps of the many-attempt world. */
  lemma {:induction false} AttemptIsSteps(w: World, lease: nat, check: Reconciliation, run: Execution, dies: nat)
    returns (worlds: seq<World>, steps: seq<Step>)
    ensures Follows(worlds, steps) && worlds[0] == w
    ensures var t := Attempted(w.row, "write", OWNER, w.now, lease, check, run, dies);
            worlds[|steps|].row == t.row && worlds[|steps|].runs == w.runs + if t.executed then 1 else 0
  {
    var i := |w.attempts|;
    OneStep([w], [], Begin(lease));
    worlds, steps := [w] + [Next(w, Begin(lease))], [] + [Begin(lease)];
    var claim := ClaimOf(w.row, w.now);
    if dies == 0 || claim.Done? || claim.InProgress? {
      return;
    }
    if claim == Recovery {
      var before := worlds[|steps|];
      OneStep(worlds, steps, Reconcile(i, check));
      worlds, steps := worlds + [Next(before, Reconcile(i, check))], steps + [Reconcile(i, check)];
      if check != SafeToExecute {
        return;
      }
    }
    worlds, steps := ExecutingIsSteps(worlds, steps, i, run, dies);
  }
}

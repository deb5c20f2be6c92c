/** The worker that leases tasks, runs their handlers and reports every outcome back to the queue. */
module TaskWorker {
  import opened Outcomes
  import opened TaskRules
  import opened TaskStore

  /** What a worker sees of a task it leased. */
  datatype LeasedTask = LeasedTask(id: TaskId, command: string, attempts: nat, maxAttempts: nat, recovering: bool)

  /** How a handler's `execute` may end, and what its `failure` answers when asked. */
  datatype Outcome =
    | Finished(state: TaskState, error: Option<string>)
    | Stopped
    | Postponed(reason: string, delay: nat)
    | Raised(name: string, permanent: bool)

  datatype Handler = Handler(outcome: Outcome, failureState: TaskState, failureError: Option<string>)

  datatype Report = Terminal | Retrying | Shutdown | LeaseLost

  function Seen(t: Task, i: TaskId): LeasedTask {
    LeasedTask(i, t.command, t.attempts, t.maxAttempts, IsMarker(t.error))
  }

  /** Handlers answer with terminal states and give a reason when they postpone. */
  predicate WellBehaved(h: Handler) {
    && TerminalState(h.failureState)
    && (h.outcome.Finished? ==> TerminalState(h.outcome.state))
    && (h.outcome.Postponed? ==> h.outcome.reason != "")
  }

  /** The row a task is left in: finished, waiting for a retry, or put back without charge. */
  function Resolved(t: Task, task: LeasedTask, handler: Option<Handler>, at: int, retryDelay: nat): Task {
    if handler.None? then
      if task.attempts < task.maxAttempts then Retried(t, at + retryDelay, "RuntimeError")
      else t.(state := Failed, lease := NoLease, error := Some("handler_unavailable"))
    else
      var h := handler.value;
      var failed := t.(state := h.failureState, lease := NoLease, error := h.failureError);
      if task.recovering then failed
      else match h.outcome
        case Finished(state, error) => t.(state := state, lease := NoLease, error := error)
        case Stopped => Deferred(t, at, "shutdown_cancelled")
        case Postponed(reason, delay) => Deferred(t, at + delay, reason)
        case Raised(name, permanent) =>
          if !permanent && task.attempts < task.maxAttempts then Retried(t, at + retryDelay, name) else failed
  }

  class Worker {
    const store: Scheduler
    const workerId: string
    const leaseMs: int
    const retryDelayMs: nat
    const concurrency: int

    predicate Configured() {
      workerId != "" && leaseMs >= 1 && concurrency >= 1
    }

    constructor (store: Scheduler, workerId: string, leaseMs: int, retryDelayMs: nat, concurrency: int)
      requires workerId != "" && leaseMs >= 1 && concurrency >= 1
      ensures Configured() && this.store == store && this.workerId == workerId
      ensures this.leaseMs == leaseMs && this.retryDelayMs == retryDelayMs && this.concurrency == concurrency
    {
      this.store, this.workerId := store, workerId;
      this.leaseMs, this.retryDelayMs, this.concurrency := leaseMs, retryDelayMs, concurrency;
    }

    /**
     Runs one leased task. Whatever the handler does, the task leaves the worker's
     lease, at most one execution begins, and no other row is touched.
     */
    method Execute(task: LeasedTask, handler: Option<Handler>, now: int, clock: int) returns (report: Report)
      requires store.Valid() && task.id < |store.tasks|
      requires handler.Some? ==> WellBehaved(handler.value)
      requires task.recovering || store.tallies[task.id].executions < store.tallies[task.id].charged
      modifies store`tasks, store`tallies
      ensures store.Valid() && |store.tasks| == |old(store.tasks)|
      ensures forall j :: 0 <= j < |store.tasks| && j != task.id ==>
                store.tasks[j] == old(store.tasks)[j] && store.tallies[j] == old(store.tallies)[j]
      ensures report == LeaseLost <==> !Owns(old(store.tasks), task.id, workerId)
      ensures report == LeaseLost ==> store.tasks == old(store.tasks)
      ensures report != LeaseLost ==>
                store.tasks[task.id]
                == Resolved(old(store.tasks)[task.id], task, handler, if now < clock then clock else now, retryDelayMs)
      ensures report == Terminal ==> TerminalState(store.tasks[task.id].state)
      ensures report == Retrying || report == Shutdown ==> store.tasks[task.id].state == Pending
      ensures store.tallies[task.id].executions
           == old(store.tallies)[task.id].executions + if handler.Some? && !task.recovering then 1 else 0
      ensures task.recovering && handler.Some? && report != LeaseLost ==> report == Terminal
    {
      var transition := if now < clock then clock else now;
      var ok: bool;
      if handler.None? {
        if task.attempts < task.maxAttempts {
          ok := store.RetryTask(task.id, workerId, transition + retryDelayMs, "RuntimeError");
          return if ok then Retrying else LeaseLost;
        }
        ok := store.FinishTask(task.id, workerId, Failed, Some("handler_unavailable"));
        return if ok then Terminal else LeaseLost;
      }
      var h := handler.value;
      if task.recovering {
        ok := store.FinishTask(task.id, workerId, h.failureState, h.failureError);
        return if ok then Terminal else LeaseLost;
      }
      BeginExecution(task.id);
      report := RecordOutcome(task, h, transition);
    }

    /** Turns the way a handler's `execute` ended into a transition of the task. */
    method RecordOutcome(task: LeasedTask, h: Handler, at: int) returns (report: Report)
      requires store.Valid() && task.id < |store.tasks| && WellBehaved(h) && !task.recovering
      modifies store`tasks, store`tallies
      ensures store.Valid() && |store.tasks| == |old(store.tasks)|
      ensures forall j :: 0 <= j < |store.tasks| && j != task.id ==>
                store.tasks[j] == old(store.tasks)[j] && store.tallies[j] == old(store.tallies)[j]
      ensures report == LeaseLost <==> !Owns(old(store.tasks), task.id, workerId)
      ensures report == LeaseLost ==> store.tasks == old(store.tasks)
      ensures report != LeaseLost ==>
                store.tasks[task.id] == Resolved(old(store.tasks)[task.id], task, Some(h), at, retryDelayMs)
      ensures report == Terminal ==> TerminalState(store.tasks[task.id].state)
      ensures report == Retrying || report == Shutdown ==> store.tasks[task.id].state == Pending
      ensures store.tallies[task.id].executions == old(store.tallies)[task.id].executions
    {
      var ok: bool;
      match h.outcome
      case Finished(state, error) =>
        ok := store.FinishTask(task.id, workerId, state, error);
        report := if ok then Terminal else LeaseLost;
      case Stopped =>
        var r := store.DeferTask(task.id, workerId, at, "shutdown_cancelled");
        report := if r.Ok? then Shutdown else LeaseLost;
      case Postponed(reason, delay) =>
        var r := store.DeferTask(task.id, workerId, at + delay, reason);
        report := if r.Ok? then Retrying else LeaseLost;
      case Raised(name, permanent) =>
        if !permanent && task.attempts < task.maxAttempts {
          ok := store.RetryTask(task.id, workerId, at + retryDelayMs, name);
          report := if ok then Retrying else LeaseLost;
        } else {
          ok := store.FinishTask(task.id, workerId, h.failureState, h.failureError);
          report := if ok then Terminal else LeaseLost;
        }
    }

    /** Records that the handler's `execute` has been entered; a charged lease pays for it. */
    ghost method BeginExecution(i: TaskId)
      requires store.Valid() && i < |store.tasks|
      requires store.tallies[i].executions < store.tallies[i].charged
      modifies store`tallies
      ensures store.Valid()
      ensures store.tallies == old(store.tallies)[i :=
                old(store.tallies)[i].(executions := old(store.tallies)[i].executions + 1)]
    {
      store.tallies := store.tallies[i := store.tallies[i].(executions := store.tallies[i].executions + 1)];
    }

    /** Leases a batch and runs it to the end: nothing of the batch stays leased. */
    method RunOnce(handlers: map<string, Handler>, now: int, clock: int) returns (reports: seq<Report>)
      requires store.Valid() && Configured()
      requires forall c :: c in handlers ==> WellBehaved(handlers[c])
      modifies store
      ensures store.Valid() && |store.tasks| == |old(store.tasks)|
      ensures LeaseLost !in reports
      ensures forall j :: 0 <= j < |store.tasks| && store.tasks[j].state == Leased
                ==> store.tasks[j] == old(store.tasks)[j]
    {
      var leased := store.LeaseTasks(workerId, now, leaseMs, concurrency);
      ghost var middle := store.tasks;
      LeasedIsReady(
        old(store.tasks), store.tasks, old(store.tallies), store.tallies, leased.value, now, workerId, now + leaseMs);
      reports := RunBatch(leased.value, handlers, now, clock);
      NothingLeft(old(store.tasks), middle, store.tasks, leased.value, now, workerId, now + leaseMs);
    }

    method RunBatch(ids: seq<TaskId>, handlers: map<string, Handler>, now: int, clock: int)
      returns (reports: seq<Report>)
      requires store.Valid() && Distinct(ids) && BatchReady(store.tasks, store.tallies, ids, workerId)
      requires forall c :: c in handlers ==> WellBehaved(handlers[c])
      modifies store`tasks, store`tallies
      ensures store.Valid() && LeaseLost !in reports
      ensures Settled(old(store.tasks), store.tasks, ids)
    {
      var rows := store.tasks;
      reports := [];
      for k := 0 to |ids|
        invariant store.Valid() && LeaseLost !in reports
        invariant BatchReady(store.tasks, store.tallies, ids[k..], workerId)
        invariant Settled(rows, store.tasks, ids[..k])
      {
        var task := Seen(store.tasks[ids[k]], ids[k]);
        assert ids[k..][0] == ids[k];
        var handler := if task.command in handlers then Some(handlers[task.command]) else None;
        ghost var before, tallied := store.tasks, store.tallies;
        var report := Execute(task, handler, now, clock);
        OneFewer(rows, before, store.tasks, tallied, store.tallies, ids, k, workerId);
        reports := reports + [report];
      }
      assert ids[..|ids|] == ids;
    }
  }

  /** Every task of the batch is held by the worker, and its lease pays for an execution. */
  ghost predicate BatchReady(tasks: seq<Task>, tallies: seq<Tally>, ids: seq<TaskId>, worker: string) {
    && |tasks| == |tallies|
    && forall k :: 0 <= k < |ids| ==>
         && Owns(tasks, ids[k], worker)
         && (IsMarker(tasks[ids[k]].error) || tallies[ids[k]].executions < tallies[ids[k]].charged)
  }

  /** The tasks in `ids` are no longer leased; all other rows are as they were. */
  ghost predicate Settled(before: seq<Task>, after: seq<Task>, ids: seq<TaskId>) {
    && |before| == |after|
    && (forall k :: 0 <= k < |ids| ==> ids[k] < |after| && after[ids[k]].state != Leased)
    && forall j :: 0 <= j < |before| && j !in ids ==> after[j] == before[j]
  }

  lemma {:induction false} LeasedIsReady(
    before: seq<Task>, tasks: seq<Task>, tallied: seq<Tally>, tallies: seq<Tally>, ids: seq<TaskId>,
    now: int, worker: string, expires: int)
    requires Accounted(before, tallied) && LeasedExactly(before, tasks, ids, now, worker, expires)
    requires Charged(before, tallied, tallies, ids, now)
    ensures BatchReady(tasks, tallies, ids, worker)
  {
    forall k | 0 <= k < |ids|
      ensures Owns(tasks, ids[k], worker)
      ensures IsMarker(tasks[ids[k]].error) || tallies[ids[k]].executions < tallies[ids[k]].charged
    {
      assert ids[k] in ids;
    }
  }

  lemma {:induction false} OneFewer(
    rows: seq<Task>, before: seq<Task>, after: seq<Task>, tallied: seq<Tally>, tallies: seq<Tally>,
    ids: seq<TaskId>, k: nat, worker: string)
    requires k < |ids| && Distinct(ids) && BatchReady(before, tallied, ids[k..], worker)
    requires Settled(rows, before, ids[..k])
    requires |before| == |after| == |tallies| && ids[k] < |after| && after[ids[k]].state != Leased
    requires forall j :: 0 <= j < |after| && j != ids[k] ==> after[j] == before[j] && tallies[j] == tallied[j]
    ensures BatchReady(after, tallies, ids[k + 1..], worker)
    ensures Settled(rows, after, ids[..k + 1])
  {
    var left := ids[k + 1..];
    var done := ids[..k + 1];
    forall a | 0 <= a < |left|
      ensures Owns(after, left[a], worker)
      ensures IsMarker(after[left[a]].error) || tallies[left[a]].executions < tallies[left[a]].charged
    {
      assert left[a] == ids[k..][a + 1] == ids[k + 1 + a];
    }
    assert done == ids[..k] + [ids[k]];
    forall a | 0 <= a < |done|
      ensures done[a] < |after| && after[done[a]].state != Leased
    {
      assert a < k ==> ids[..k][a] == ids[a];
    }
  }

  lemma {:induction false} NothingLeft(
    before: seq<Task>, middle: seq<Task>, after: seq<Task>, ids: seq<TaskId>, now: int, worker: string, expires: int)
    requires LeasedExactly(before, middle, ids, now, worker, expires) && Settled(middle, after, ids)
    ensures |before| == |after|
    ensures forall j :: 0 <= j < |after| && after[j].state == Leased ==> after[j] == before[j]
  {
  }

  /** Retries, expiries and refunds included, a handler is entered at most once per allowed attempt and refund. */
  lemma {:induction false} ExecutionsAreBounded(tasks: seq<Task>, tallies: seq<Tally>, i: TaskId)
    requires AllSound(tasks) && Accounted(tasks, tallies) && i < |tasks|
    ensures tallies[i].executions - tallies[i].deferrals <= tasks[i].maxAttempts
    ensures tasks[i].state == Pending ==> tasks[i].attempts < tasks[i].maxAttempts || IsMarker(tasks[i].error)
  {
    assert Sound(tasks[i]);
  }
}

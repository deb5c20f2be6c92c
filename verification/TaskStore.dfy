/** The durable task queue: leasing under nested caps, retries, refunds, and the worker that drives it. */
module TaskStore {
  import opened Outcomes
  import opened SqlLike
  import opened TaskRules

  const DIRECT_REVOKE: string := "im.revoke_chat_access"

  /** Per task: leases that cost an attempt, handler executions begun, attempts refunded. */
  datatype Tally = Tally(charged: nat, executions: nat, deferrals: nat)

  function ReclaimedTask(t: Task, now: int): Task {
    if t.state == Leased && t.lease.Lease? && t.lease.expires <= now then
      if t.attempts < t.maxAttempts then t.(state := Pending, lease := NoLease)
      else t.(state := Pending, lease := NoLease, error := Some("lease_retry_exhausted"))
    else t
  }

  function LeasedTo(t: Task, worker: string, expires: int): Task {
    t.(state := Leased, lease := Lease(worker, expires),
       attempts := if IsMarker(t.error) then t.attempts else t.attempts + 1)
  }

  function Retried(t: Task, availableAt: int, error: string): Task {
    t.(state := Pending, availableAt := availableAt, lease := NoLease,
       error := Some(if t.attempts >= t.maxAttempts then "retry_exhausted" else error))
  }

  function Deferred(t: Task, availableAt: int, reason: string): Task {
    t.(state := Pending, availableAt := availableAt, lease := NoLease,
       attempts := if t.attempts >= 1 then t.attempts - 1 else 0, error := Some(reason))
  }

  /**
   The two exhaustion markers are ordinary error texts. A marker stays proof that
   all attempts are used if and only if nobody passes one in as an error of a
   retry with attempts left, or as the reason of a deferral.
   */
  lemma {:induction false} MarkersAreOrdinaryTexts(t: Task, at: int, text: string)
    requires Sound(t)
    ensures MarkedWhenExhausted(Retried(t, at, text)) <==> t.attempts == t.maxAttempts || !IsMarker(Some(text))
    ensures MarkedWhenExhausted(Deferred(t, at, text)) <==> !IsMarker(Some(text))
  {
    assert Retried(t, at, text).attempts == t.attempts && Deferred(t, at, text).attempts < t.maxAttempts;
  }

  /** A retry with attempts left whose error text is a marker: the task counts as exhausted after one of three attempts. */
  lemma {:induction false} RetryWithMarkerText(t: Task, at: int)
    requires Sound(t) && t.attempts == 1 && t.maxAttempts == 3
    ensures Retried(t, at, "retry_exhausted").state == Pending && IsMarker(Retried(t, at, "retry_exhausted").error)
    ensures !MarkedWhenExhausted(Retried(t, at, "retry_exhausted"))
  {
    MarkersAreOrdinaryTexts(t, at, "retry_exhausted");
  }

  predicate TerminalState(s: TaskState) {
    s == Succeeded || s == Blocked || s == Failed || s == Cancelled
  }

  predicate Owns(tasks: seq<Task>, i: TaskId, worker: string) {
    i < |tasks| && tasks[i].state == Leased && tasks[i].lease.Lease? && tasks[i].lease.owner == worker
  }

  predicate Distinct(xs: seq<TaskId>) {
    forall a, b :: 0 <= a < b < |xs| ==> xs[a] != xs[b]
  }

  ghost predicate AllLive(tasks: seq<Task>, now: int) {
    forall i :: 0 <= i < |tasks| && tasks[i].state == Leased ==> Live(tasks[i], now)
  }

  /** Executions never outnumber charged leases, nor these the attempts used or refunded. */
  ghost predicate Accounted(tasks: seq<Task>, tallies: seq<Tally>) {
    && |tasks| == |tallies|
    && forall i :: 0 <= i < |tasks| ==>
         tallies[i].executions <= tallies[i].charged <= tasks[i].attempts + tallies[i].deferrals
  }

  ghost predicate ReclaimedRows(before: seq<Task>, after: seq<Task>, now: int) {
    |before| == |after| && forall j :: 0 <= j < |before| ==> after[j] == ReclaimedTask(before[j], now)
  }

  /** The rows after a lease call that chose `ids`, in terms of the rows before it. */
  ghost predicate LeasedExactly(
    before: seq<Task>, after: seq<Task>, ids: seq<TaskId>, now: int, worker: string, expires: int)
  {
    && |before| == |after|
    && (forall a :: 0 <= a < |ids| ==> ids[a] < |before|)
    && forall j :: 0 <= j < |before| ==>
         after[j] ==
           if j in ids then LeasedTo(ReclaimedTask(before[j], now), worker, expires) else ReclaimedTask(before[j], now)
  }

  lemma {:induction false} CapsAfterEnd(tasks: seq<Task>, i: TaskId, t: Task, caps: Caps)
    requires WithinCaps(tasks, caps) && i < |tasks| && t.state != Leased
    ensures WithinCaps(tasks[i := t], caps)
  {
    forall s: Scope
      ensures LeasedIn(tasks[i := t], s) <= Cap(caps, s)
    {
      LeasedAfterUpdate(tasks, i, t, s);
      assert LeasedIn(tasks, s) <= Cap(caps, s);
    }
  }

  /** Leasing an admissible task while the global cap has room keeps every cap, and one lease per session. */
  lemma {:induction false} CapsAfterLease(tasks: seq<Task>, now: int, caps: Caps, i: TaskId, t: Task)
    requires WithinCaps(tasks, caps) && AllLive(tasks, now) && Admissible(tasks, now, caps, i)
    requires LeasedIn(tasks, Everyone) < caps.global
    requires forall s: Scope :: InScope(t, s) <==> InScope(tasks[i], s)
    requires t.state == Leased
    ensures WithinCaps(tasks[i := t], caps)
    ensures LeasedIn(tasks[i := t], Everyone) == LeasedIn(tasks, Everyone) + 1
  {
    forall s: Scope
      ensures LeasedIn(tasks[i := t], s) <= Cap(caps, s)
    {
      LeasedAfterUpdate(tasks, i, t, s);
      assert LeasedIn(tasks, s) <= Cap(caps, s);
      if InScope(tasks[i], s) {
        LiveIsLeased(tasks, s, now);
        if s.OfSession? && LeasedIn(tasks, s) > 0 {
          var j := SomebodyLeased(tasks, s);
          assert Live(tasks[j], now);
        }
      }
    }
    LeasedAfterUpdate(tasks, i, t, Everyone);
  }

  /** The task that sorts first among those that may be leased, if there is one. */
  method SelectNext(tasks: seq<Task>, now: int, caps: Caps, lanes: Lanes) returns (best: Option<TaskId>)
    ensures best.Some? ==> Chosen(tasks, now, caps, lanes, best.value)
    ensures best.None? ==> forall i :: 0 <= i < |tasks| ==> !Admissible(tasks, now, caps, i)
  {
    best := None;
    for i := 0 to |tasks|
      invariant best.None? ==> forall j :: 0 <= j < i ==> !Admissible(tasks, now, caps, j)
      invariant best.Some? ==>
                  && best.value < i && Admissible(tasks, now, caps, best.value)
                  && forall j :: 0 <= j < i && Admissible(tasks, now, caps, j)
                       ==> !LexLess(SortKey(tasks, lanes, j), SortKey(tasks, lanes, best.value))
    {
      if Admissible(tasks, now, caps, i) {
        if best.None? {
          NotLessThanItself(SortKey(tasks, lanes, i));
          best := Some(i);
        } else if LexLess(SortKey(tasks, lanes, i), SortKey(tasks, lanes, best.value)) {
          forall j | 0 <= j <= i && Admissible(tasks, now, caps, j)
            ensures !LexLess(SortKey(tasks, lanes, j), SortKey(tasks, lanes, i))
          {
            if LexLess(SortKey(tasks, lanes, j), SortKey(tasks, lanes, i)) {
              LexTransitive(
                SortKey(tasks, lanes, j), SortKey(tasks, lanes, i), SortKey(tasks, lanes, best.value));
              NotLessThanItself(SortKey(tasks, lanes, i));
            }
          }
          best := Some(i);
        }
      }
    }
  }

  class Scheduler {
    const caps: Caps
    var tasks: seq<Task>
    var lanes: Lanes
    var next: nat
    ghost var turns: seq<Turn>
    ghost var tallies: seq<Tally>

    ghost predicate Valid()
      reads this
    {
      && AllSound(tasks) && WithinCaps(tasks, caps) && Accounted(tasks, tallies)
      && Recorded(turns, caps, lanes, next)
    }

    constructor (caps: Caps)
      requires 1 <= caps.group <= caps.app <= caps.tenant <= caps.global
      ensures Valid() && tasks == [] && this.caps == caps
    {
      this.caps := caps;
      tasks, lanes, next := [], map[], 0;
      turns, tallies := [], [];
    }

    /** Adds a pending task, unless its event was admitted before. */
    method Admit(t: Task) returns (created: bool, id: TaskId)
      requires Valid()
      requires t.maxAttempts >= 1 && t.attempts == 0 && t.state == Pending && t.error == None && t.lease == NoLease
      modifies this`tasks, this`tallies
      ensures Valid()
      ensures created <==> !exists j :: 0 <= j < |old(tasks)| && SameEvent(old(tasks)[j], t)
      ensures id < |tasks| && SameEvent(tasks[id], t)
      ensures created ==> id == |old(tasks)| && tasks == old(tasks) + [t] && tallies == old(tallies) + [Tally(0, 0, 0)]
      ensures !created ==> tasks == old(tasks) && tallies == old(tallies)
      ensures MarkersExact(old(tasks)) ==> MarkersExact(tasks)
    {
      for j := 0 to |tasks|
        invariant forall a :: 0 <= a < j ==> !SameEvent(tasks[a], t)
      {
        if SameEvent(tasks[j], t) {
          return false, j;
        }
      }
      forall s: Scope
        ensures LeasedIn(tasks + [t], s) <= Cap(caps, s)
      {
        assert (tasks + [t])[..|tasks|] == tasks;
        assert LeasedIn(tasks, s) <= Cap(caps, s);
      }
      created, id := true, |tasks|;
      tasks := tasks + [t];
      tallies := tallies + [Tally(0, 0, 0)];
    }

    /** Ends the lease of one row; shared by every transition out of `Leased`. */
    method Settle(i: TaskId, t: Task)
      requires Valid() && i < |tasks| && t.state != Leased && Sound(t)
      requires tallies[i].charged <= t.attempts + tallies[i].deferrals
      modifies this`tasks
      ensures Valid() && tasks == old(tasks)[i := t]
    {
      CapsAfterEnd(tasks, i, t, caps);
      tasks := tasks[i := t];
    }

    method FinishTask(i: TaskId, worker: string, state: TaskState, error: Option<string>) returns (ok: bool)
      requires Valid() && TerminalState(state)
      modifies this`tasks
      ensures Valid()
      ensures ok <==> Owns(old(tasks), i, worker)
      ensures tasks == if ok then old(tasks)[i := old(tasks)[i].(state := state, lease := NoLease, error := error)]
                       else old(tasks)
      ensures MarkersExact(old(tasks)) ==> MarkersExact(tasks)
    {
      ok := Owns(tasks, i, worker);
      if ok {
        Settle(i, tasks[i].(state := state, lease := NoLease, error := error));
      }
    }

    method RetryTask(i: TaskId, worker: string, availableAt: int, error: string) returns (ok: bool)
      requires Valid()
      modifies this`tasks
      ensures Valid()
      ensures ok <==> Owns(old(tasks), i, worker)
      ensures tasks == if ok then old(tasks)[i := Retried(old(tasks)[i], availableAt, error)] else old(tasks)
      ensures MarkersExact(old(tasks)) && !IsMarker(Some(error)) ==> MarkersExact(tasks)
    {
      ok := Owns(tasks, i, worker);
      if ok {
        assert Sound(tasks[i]);
        Settle(i, Retried(tasks[i], availableAt, error));
      }
    }

    /** Puts a task back without charging it for the attempt. */
    method DeferTask(i: TaskId, worker: string, availableAt: int, reason: string) returns (r: Result<(), ()>)
      requires Valid()
      modifies this`tasks, this`tallies
      ensures Valid()
      ensures r.Ok? <==> reason != "" && Owns(old(tasks), i, worker)
      ensures tasks == if r.Ok? then old(tasks)[i := Deferred(old(tasks)[i], availableAt, reason)] else old(tasks)
      ensures tallies == if r.Ok?
                then old(tallies)[i := old(tallies)[i].(deferrals := old(tallies)[i].deferrals + 1)] else old(tallies)
      ensures MarkersExact(old(tasks)) && !IsMarker(Some(reason)) ==> MarkersExact(tasks)
    {
      if reason == "" || !Owns(tasks, i, worker) {
        return Err(());
      }
      assert Sound(tasks[i]);
      tallies := tallies[i := tallies[i].(deferrals := tallies[i].deferrals + 1)];
      Settle(i, Deferred(tasks[i], availableAt, reason));
      r := Ok(());
    }

    /** Revoking a chat cancels the pending tasks whose session fits its pattern, except the revocation itself. */
    method CancelChat(prefix: string)
      requires Valid()
      modifies this`tasks
      ensures Valid() && |tasks| == |old(tasks)|
      ensures forall j :: 0 <= j < |tasks| ==>
                tasks[j] ==
                  if Like(prefix + "%", old(tasks)[j].session) && old(tasks)[j].state == Pending
                     && old(tasks)[j].command != DIRECT_REVOKE
                  then old(tasks)[j].(state := Cancelled) else old(tasks)[j]
    {
      for i := 0 to |tasks|
        invariant Valid() && |tasks| == |old(tasks)|
        invariant forall j :: 0 <= j < |tasks| ==>
                    tasks[j] ==
                      if j < i && Like(prefix + "%", old(tasks)[j].session) && old(tasks)[j].state == Pending
                         && old(tasks)[j].command != DIRECT_REVOKE
                      then old(tasks)[j].(state := Cancelled) else old(tasks)[j]
      {
        if Like(prefix + "%", tasks[i].session) && tasks[i].state == Pending && tasks[i].command != DIRECT_REVOKE {
          assert Sound(tasks[i]);
          Settle(i, tasks[i].(state := Cancelled));
        }
      }
    }

    method ReclaimExpired(now: int)
      requires Valid()
      modifies this`tasks
      ensures Valid() && AllLive(tasks, now) && ReclaimedRows(old(tasks), tasks, now)
      ensures MarkersExact(old(tasks)) ==> MarkersExact(tasks)
    {
      for i := 0 to |tasks|
        invariant Valid() && |tasks| == |old(tasks)|
        invariant forall j :: 0 <= j < |tasks| ==>
                    tasks[j] == if j < i then ReclaimedTask(old(tasks)[j], now) else old(tasks)[j]
      {
        assert Sound(tasks[i]);
        if tasks[i].state == Leased && tasks[i].lease.expires <= now {
          Settle(i, ReclaimedTask(tasks[i], now));
        }
      }
      forall j | 0 <= j < |tasks| && tasks[j].state == Leased
        ensures Live(tasks[j], now)
      {
        assert Sound(old(tasks)[j]);
      }
      assert forall j :: 0 <= j < |tasks| ==> Sound(old(tasks)[j]);
    }

    /** One turn: lease the chosen task and stamp its lanes. */
    method LeaseOne(i: TaskId, now: int, worker: string, expires: int)
      requires Valid() && AllLive(tasks, now) && expires > now
      requires Chosen(tasks, now, caps, lanes, i) && LeasedIn(tasks, Everyone) < caps.global
      modifies this
      ensures Valid() && AllLive(tasks, now)
      ensures i < |old(tasks)| && tasks == old(tasks)[i := LeasedTo(old(tasks)[i], worker, expires)]
      ensures LeasedIn(tasks, Everyone) == LeasedIn(old(tasks), Everyone) + 1
      ensures turns == old(turns) + [Turn(old(tasks), now, old(lanes), old(next), i)]
      ensures |old(tallies)| == |old(tasks)|
      ensures tallies == old(tallies)[i := TallyOfLease(old(tasks)[i], old(tallies)[i])]
      ensures MarkersExact(old(tasks)) ==> MarkersExact(tasks)
    {
      var t := LeasedTo(tasks[i], worker, expires);
      CapsAfterLease(tasks, now, caps, i, t);
      SoundAfterLease(tasks, tallies, i, now, worker, expires);
      RecordGrows(turns, caps, lanes, next, Turn(tasks, now, lanes, next, i));
      tallies := tallies[i := TallyOfLease(tasks[i], tallies[i])];
      turns := turns + [Turn(tasks, now, lanes, next, i)];
      lanes := Advanced(lanes, next, tasks[i]);
      next := next + 1;
      tasks := tasks[i := t];
    }

    /**
     Reclaims expired leases, then leases one best task at a time. It stops short of
     both `limit` and the global cap only when nothing more may be leased.
     */
    method LeaseTasks(worker: string, now: int, leaseMs: int, limit: int) returns (r: Result<seq<TaskId>, ()>)
      requires Valid()
      modifies this
      ensures Valid()
      ensures r.Err? <==> worker == "" || leaseMs <= 0 || limit <= 0
      ensures r.Err? ==> tasks == old(tasks) && lanes == old(lanes) && turns == old(turns) && tallies == old(tallies)
      ensures r.Ok? ==>
                && Distinct(r.value) && |r.value| <= limit
                && LeasedExactly(old(tasks), tasks, r.value, now, worker, now + leaseMs)
                && TurnsTaken(old(tasks), old(turns), turns, r.value, now, worker, now + leaseMs)
                && Charged(old(tasks), old(tallies), tallies, r.value, now)
                && (|r.value| < limit && LeasedIn(tasks, Everyone) < caps.global ==> NothingAdmissible(tasks, now, caps))
      ensures MarkersExact(old(tasks)) ==> MarkersExact(tasks)
    {
      if worker == "" || leaseMs <= 0 || limit <= 0 {
        return Err(());
      }
      var ids := ReclaimAndLease(worker, now, leaseMs, limit);
      r := Ok(ids);
    }

    method ReclaimAndLease(worker: string, now: int, leaseMs: int, limit: int) returns (ids: seq<TaskId>)
      requires Valid() && worker != "" && leaseMs > 0 && limit > 0
      modifies this
      ensures Valid() && Distinct(ids) && |ids| <= limit
      ensures Batched(old(tasks), tasks, old(tallies), tallies, old(turns), turns, ids, now, worker, now + leaseMs)
      ensures |ids| < limit && LeasedIn(tasks, Everyone) < caps.global ==> NothingAdmissible(tasks, now, caps)
      ensures MarkersExact(old(tasks)) ==> MarkersExact(tasks)
    {
      ReclaimExpired(now);
      ids := LeaseWithin(limit, now, worker, now + leaseMs, old(tasks));
    }

    method LeaseWithin(limit: nat, now: int, worker: string, expires: int, ghost before: seq<Task>)
      returns (ids: seq<TaskId>)
      requires ReclaimedRows(before, tasks, now) && Valid() && AllLive(tasks, now) && expires > now
      modifies this
      ensures Valid() && Distinct(ids) && |ids| <= limit
      ensures Batched(before, tasks, old(tallies), tallies, old(turns), turns, ids, now, worker, expires)
      ensures |ids| < limit && LeasedIn(tasks, Everyone) < caps.global ==> NothingAdmissible(tasks, now, caps)
      ensures MarkersExact(old(tasks)) ==> MarkersExact(tasks)
    {
      var remaining := Headroom(now, limit);
      ids := LeaseUpTo(remaining, now, worker, expires, before);
    }

    /** How many leases the call may still grant: up to `limit`, and up to the global cap. */
    method Headroom(now: int, limit: nat) returns (remaining: nat)
      requires WithinCaps(tasks, caps) && AllLive(tasks, now)
      ensures remaining <= limit && LeasedIn(tasks, Everyone) + remaining <= caps.global
      ensures remaining < limit ==> LeasedIn(tasks, Everyone) + remaining == caps.global
    {
      var active := LiveIn(tasks, Everyone, now);
      LiveIsLeased(tasks, Everyone, now);
      assert LeasedIn(tasks, Everyone) <= Cap(caps, Everyone);
      remaining := if limit < caps.global - active then limit else caps.global - active;
    }

    /** Leases one best task at a time; `before` are the rows before expired leases returned. */
    method LeaseUpTo(remaining: nat, now: int, worker: string, expires: int, ghost before: seq<Task>)
      returns (ids: seq<TaskId>)
      requires ReclaimedRows(before, tasks, now) && Valid() && AllLive(tasks, now) && expires > now
      requires LeasedIn(tasks, Everyone) + remaining <= caps.global
      modifies this
      ensures Valid()
      ensures Distinct(ids) && |ids| <= remaining
      ensures Batched(before, tasks, old(tallies), tallies, old(turns), turns, ids, now, worker, expires)
      ensures LeasedIn(tasks, Everyone) == LeasedIn(old(tasks), Everyone) + |ids|
      ensures |ids| < remaining ==> NothingAdmissible(tasks, now, caps)
      ensures MarkersExact(old(tasks)) ==> MarkersExact(tasks)
    {
      ids := [];
      while |ids| < remaining
        invariant Valid() && AllLive(tasks, now) && |ids| <= remaining
        invariant LeasedIn(tasks, Everyone) == LeasedIn(old(tasks), Everyone) + |ids|
        invariant Distinct(ids)
        invariant Batched(before, tasks, old(tallies), tallies, old(turns), turns, ids, now, worker, expires)
        invariant MarkersExact(old(tasks)) ==> MarkersExact(tasks)
        decreases remaining - |ids|
      {
        var best := SelectNext(tasks, now, caps, lanes);
        if best.None? {
          return;
        }
        BatchGrows(
          before, tasks, old(tallies), tallies, old(turns), turns, ids,
          Turn(tasks, now, lanes, next, best.value), worker, expires);
        LeaseOne(best.value, now, worker, expires);
        ids := ids + [best.value];
      }
    }
  }

  ghost predicate NothingAdmissible(tasks: seq<Task>, now: int, caps: Caps) {
    forall i :: 0 <= i < |tasks| ==> !Admissible(tasks, now, caps, i)
  }

  /** The rows, tallies and turns after a lease call, in terms of those before it. */
  ghost predicate Batched(
    before: seq<Task>, after: seq<Task>, tallied: seq<Tally>, tallies: seq<Tally>,
    taken: seq<Turn>, turns: seq<Turn>, ids: seq<TaskId>, now: int, worker: string, expires: int)
  {
    && LeasedExactly(before, after, ids, now, worker, expires)
    && TurnsTaken(before, taken, turns, ids, now, worker, expires)
    && Charged(before, tallied, tallies, ids, now)
  }

  /** The record of selections so far, ending in the current lanes. */
  ghost predicate Recorded(turns: seq<Turn>, caps: Caps, lanes: Lanes, next: nat) {
    && Stamped(lanes, next) && History(turns, caps)
    && (turns != [] ==> FollowedBy(turns[|turns| - 1], lanes, next))
  }

  /** A lease is charged unless the task is only being recovered. */
  function TallyOfLease(t: Task, tally: Tally): Tally {
    if IsMarker(t.error) then tally else tally.(charged := tally.charged + 1)
  }

  lemma {:induction false} SoundAfterLease(
    tasks: seq<Task>, tallies: seq<Tally>, i: TaskId, now: int, worker: string, expires: int)
    requires AllSound(tasks) && Accounted(tasks, tallies) && i < |tasks| && tasks[i].state == Pending
    requires AllLive(tasks, now) && expires > now
    ensures AllSound(tasks[i := LeasedTo(tasks[i], worker, expires)])
    ensures AllLive(tasks[i := LeasedTo(tasks[i], worker, expires)], now)
    ensures MarkersExact(tasks) ==> MarkersExact(tasks[i := LeasedTo(tasks[i], worker, expires)])
    ensures Accounted(
              tasks[i := LeasedTo(tasks[i], worker, expires)], tallies[i := TallyOfLease(tasks[i], tallies[i])])
  {
    assert Sound(tasks[i]);
  }

  lemma {:induction false} RecordGrows(turns: seq<Turn>, caps: Caps, lanes: Lanes, next: nat, turn: Turn)
    requires Recorded(turns, caps, lanes, next) && turn.lanes == lanes && turn.next == next
    requires Chosen(turn.tasks, turn.now, caps, lanes, turn.chosen)
    ensures Recorded(turns + [turn], caps, Advanced(lanes, next, Winner(turn)), next + 1)
  {
    var grown := turns + [turn];
    forall t | 0 <= t < |grown| - 1
      ensures FollowedBy(grown[t], grown[t + 1].lanes, grown[t + 1].next)
    {
      if t < |turns| - 1 {
        assert FollowedBy(turns[t], turns[t + 1].lanes, turns[t + 1].next);
      }
    }
    forall t | 0 <= t < |grown|
      ensures TurnOk(grown[t], caps)
    {
      if t < |turns| {
        assert TurnOk(turns[t], caps);
      }
    }
  }

  lemma {:induction false} TurnsGrow(
    tasks0: seq<Task>, tasks: seq<Task>, before: seq<Turn>, middle: seq<Turn>, after: seq<Turn>,
    ids: seq<TaskId>, i: TaskId, now: int, worker: string, expires: int)
    requires TurnsTaken(tasks0, before, middle, ids, now, worker, expires)
    requires LeasedExactly(tasks0, tasks, ids, now, worker, expires)
    requires exists turn: Turn ::
               turn.chosen == i && turn.now == now && turn.tasks == tasks && after == middle + [turn]
    ensures TurnsTaken(tasks0, before, after, ids + [i], now, worker, expires)
  {
    assert after[..|before|] == middle[..|before|];
    forall k | 0 <= k < |ids + [i]|
      ensures TurnFor(tasks0, after, |before|, ids + [i], k, now, worker, expires)
    {
      if k < |ids| {
        assert TurnFor(tasks0, middle, |before|, ids, k, now, worker, expires);
        assert (ids + [i])[..k] == ids[..k];
      } else {
        assert (ids + [i])[..k] == ids;
      }
    }
  }

  /** What one more leased task does to the account of the whole batch. */
  lemma {:induction false} BatchGrows(
    before: seq<Task>, tasks: seq<Task>, tallied: seq<Tally>, tallies: seq<Tally>,
    taken: seq<Turn>, turns: seq<Turn>, ids: seq<TaskId>, turn: Turn, worker: string, expires: int)
    requires Batched(before, tasks, tallied, tallies, taken, turns, ids, turn.now, worker, expires)
    requires Distinct(ids) && turn.tasks == tasks && turn.chosen < |tasks| && tasks[turn.chosen].state == Pending
    ensures Distinct(ids + [turn.chosen])
    ensures Batched(
              before, tasks[turn.chosen := LeasedTo(tasks[turn.chosen], worker, expires)],
              tallied, tallies[turn.chosen := TallyOfLease(tasks[turn.chosen], tallies[turn.chosen])],
              taken, turns + [turn], ids + [turn.chosen], turn.now, worker, expires)
  {
    assert turn.chosen !in ids;
    TurnsGrow(before, tasks, taken, turns, turns + [turn], ids, turn.chosen, turn.now, worker, expires);
  }

  predicate SameEvent(a: Task, b: Task) {
    a.tenant == b.tenant && a.app == b.app && a.event == b.event
  }

  /** Turn `k` chose `ids[k]` among the rows as they were after leasing the earlier ones. */
  ghost predicate TurnFor(
    before: seq<Task>, turns: seq<Turn>, first: nat, ids: seq<TaskId>, k: nat, now: int, worker: string, expires: int)
    requires k < |ids| && first + k < |turns|
  {
    && turns[first + k].chosen == ids[k] && turns[first + k].now == now
    && LeasedExactly(before, turns[first + k].tasks, ids[..k], now, worker, expires)
  }

  /** One turn was recorded for each leased task, in order. */
  ghost predicate TurnsTaken(
    tasks: seq<Task>, before: seq<Turn>, after: seq<Turn>, ids: seq<TaskId>, now: int, worker: string, expires: int)
  {
    && |after| == |before| + |ids|
    && after[..|before|] == before
    && forall k :: 0 <= k < |ids| ==> TurnFor(tasks, after, |before|, ids, k, now, worker, expires)
  }

  /** Each leased task was charged one attempt unless it is being recovered. */
  ghost predicate Charged(tasks: seq<Task>, before: seq<Tally>, after: seq<Tally>, ids: seq<TaskId>, now: int) {
    && |before| == |after| == |tasks|
    && forall j :: 0 <= j < |tasks| ==>
         after[j] ==
           if j in ids then TallyOfLease(ReclaimedTask(tasks[j], now), before[j]) else before[j]
  }
}

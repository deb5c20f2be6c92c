/**
 Task rows, the rules that pick the next task to lease, and the fairness those
 rules give over whole histories of selections.

 Rows are kept in insertion order and named by their row number; `uuid` stands
 for the textual order of the random identifiers.
 */
module TaskRules {
  import opened Outcomes

  type TaskId = nat

  datatype TaskState = Pending | Leased | Succeeded | Blocked | Failed | Cancelled

  datatype Lease = NoLease | Lease(owner: string, expires: int)

  datatype Task = Task(
    event: string, command: string, session: string,
    tenant: string, app: string, group: Option<string>,
    priority: int, createdAt: int, uuid: int, availableAt: int,
    state: TaskState, attempts: nat, maxAttempts: nat, error: Option<string>, lease: Lease)

  datatype Caps = Caps(global: nat, tenant: nat, app: nat, group: nat)

  predicate IsMarker(error: Option<string>) {
    error == Some("retry_exhausted") || error == Some("lease_retry_exhausted")
  }

  // ----------------------------------------------------- per-task invariants

  /** No attempt beyond the limit, and a pending task can always be leased again. */
  predicate Sound(t: Task) {
    && 1 <= t.maxAttempts && t.attempts <= t.maxAttempts
    && (t.state == Leased <==> t.lease.Lease?)
    && (t.state == Pending ==> t.attempts < t.maxAttempts || IsMarker(t.error))
  }

  /** The markers mean what they say: every allowed attempt has been used. */
  predicate MarkedWhenExhausted(t: Task) {
    (t.state == Pending || t.state == Leased) && IsMarker(t.error) ==> t.attempts == t.maxAttempts
  }

  ghost predicate AllSound(tasks: seq<Task>) {
    forall i :: 0 <= i < |tasks| ==> Sound(tasks[i])
  }

  ghost predicate MarkersExact(tasks: seq<Task>) {
    forall i :: 0 <= i < |tasks| ==> MarkedWhenExhausted(tasks[i])
  }

  // ------------------------------------------------------------------ scopes

  datatype Scope =
    | Everyone | OfTenant(tenant: string) | OfApp(tenant: string, app: string)
    | OfGroup(tenant: string, app: string, group: string) | OfSession(session: string)

  predicate InScope(t: Task, s: Scope) {
    match s
    case Everyone => true
    case OfTenant(x) => t.tenant == x
    case OfApp(x, a) => t.tenant == x && t.app == a
    case OfGroup(x, a, g) => t.tenant == x && t.app == a && t.group == Some(g)
    case OfSession(x) => t.session == x
  }

  function Cap(caps: Caps, s: Scope): nat {
    match s
    case Everyone => caps.global
    case OfTenant(_) => caps.tenant
    case OfApp(_, _) => caps.app
    case OfGroup(_, _, _) => caps.group
    case OfSession(_) => 1
  }

  predicate Live(t: Task, now: int) {
    t.state == Leased && t.lease.Lease? && t.lease.expires > now
  }

  /** Leases of the scope that have not expired at `now`. */
  function LiveIn(tasks: seq<Task>, s: Scope, now: int): nat {
    if tasks == [] then 0
    else
      LiveIn(tasks[..|tasks| - 1], s, now)
      + if Live(tasks[|tasks| - 1], now) && InScope(tasks[|tasks| - 1], s) then 1 else 0
  }

  function LeasedIn(tasks: seq<Task>, s: Scope): nat {
    if tasks == [] then 0
    else
      LeasedIn(tasks[..|tasks| - 1], s)
      + if tasks[|tasks| - 1].state == Leased && InScope(tasks[|tasks| - 1], s) then 1 else 0
  }

  ghost predicate WithinCaps(tasks: seq<Task>, caps: Caps) {
    forall s: Scope :: LeasedIn(tasks, s) <= Cap(caps, s)
  }

  lemma {:induction false} LeasedAfterUpdate(tasks: seq<Task>, i: TaskId, t: Task, s: Scope)
    requires i < |tasks|
    ensures LeasedIn(tasks[i := t], s)
         == LeasedIn(tasks, s)
            - (if tasks[i].state == Leased && InScope(tasks[i], s) then 1 else 0)
            + (if t.state == Leased && InScope(t, s) then 1 else 0)
  {
    var last := |tasks| - 1;
    if i == last {
      assert tasks[i := t][..last] == tasks[..last];
    } else {
      LeasedAfterUpdate(tasks[..last], i, t, s);
      assert tasks[i := t][..last] == tasks[..last][i := t];
    }
  }

  lemma {:induction false} LiveIsLeased(tasks: seq<Task>, s: Scope, now: int)
    requires forall i :: 0 <= i < |tasks| && tasks[i].state == Leased ==> Live(tasks[i], now)
    ensures LiveIn(tasks, s, now) == LeasedIn(tasks, s)
  {
    if tasks != [] {
      LiveIsLeased(tasks[..|tasks| - 1], s, now);
    }
  }

  lemma {:induction false} SomebodyLeased(tasks: seq<Task>, s: Scope) returns (i: TaskId)
    requires LeasedIn(tasks, s) > 0
    ensures i < |tasks| && tasks[i].state == Leased && InScope(tasks[i], s)
  {
    var last := |tasks| - 1;
    if tasks[last].state == Leased && InScope(tasks[last], s) {
      i := last;
    } else {
      i := SomebodyLeased(tasks[..last], s);
    }
  }

  // ------------------------------------------------------------------- order

  /** Compares two sort keys column by column. */
  predicate LexLess(a: seq<int>, b: seq<int>)
    requires |a| == |b|
  {
    |a| > 0 && (a[0] < b[0] || (a[0] == b[0] && LexLess(a[1..], b[1..])))
  }

  lemma {:induction false} LexTransitive(a: seq<int>, b: seq<int>, c: seq<int>)
    requires |a| == |b| == |c| && LexLess(a, b) && LexLess(b, c)
    ensures LexLess(a, c)
  {
    if a[0] == b[0] == c[0] {
      LexTransitive(a[1..], b[1..], c[1..]);
    }
  }

  /** A key that nothing beats on equal leading columns is smallest in the next one. */
  lemma {:induction false} LexColumn(a: seq<int>, b: seq<int>, column: nat)
    requires |a| == |b| && column < |a| && a[..column] == b[..column] && !LexLess(b, a)
    ensures a[column] <= b[column]
  {
    if column > 0 {
      assert a[0] == a[..column][0] == b[..column][0] == b[0];
      assert a[1..][..column - 1] == a[..column][1..] == b[..column][1..] == b[1..][..column - 1];
      LexColumn(a[1..], b[1..], column - 1);
    }
  }

  lemma {:induction false} NotLessThanItself(a: seq<int>)
    ensures !LexLess(a, a)
  {
    if a != [] {
      NotLessThanItself(a[1..]);
    }
  }

  /** The first column in which two keys differ decides. */
  lemma {:induction false} LexDecided(a: seq<int>, b: seq<int>, column: nat)
    requires |a| == |b| && column < |a| && a[..column] == b[..column] && a[column] != b[column]
    ensures LexLess(a, b) <==> a[column] < b[column]
  {
    if column > 0 {
      assert a[0] == a[..column][0] == b[..column][0] == b[0];
      assert a[1..][..column - 1] == a[..column][1..] == b[..column][1..] == b[1..][..column - 1];
      LexDecided(a[1..], b[1..], column - 1);
    }
  }

  // ------------------------------------------------------------------- lanes

  datatype Lane =
    | TenantLane(tenant: string) | AppLane(tenant: string, app: string)
    | GroupLane(tenant: string, app: string, group: string) | SessionLane(session: string)

  type Lanes = map<Lane, nat>

  const SESSION_LEVEL: nat := 3

  /** The lane of a task at one of the four levels; a task without a group has no group lane. */
  function LaneAt(t: Task, level: nat): Option<Lane> {
    if level == 0 then Some(TenantLane(t.tenant))
    else if level == 1 then Some(AppLane(t.tenant, t.app))
    else if level == 2 then
      (match t.group case None => None case Some(g) => Some(GroupLane(t.tenant, t.app, g)))
    else Some(SessionLane(t.session))
  }

  function Served(lanes: Lanes, lane: Option<Lane>): nat {
    if lane.Some? && lane.value in lanes then lanes[lane.value] else 0
  }

  function LanesOf(t: Task): set<Lane> {
    {TenantLane(t.tenant), AppLane(t.tenant, t.app), SessionLane(t.session)}
    + match t.group case None => {} case Some(g) => {GroupLane(t.tenant, t.app, g)}
  }

  function Advanced(lanes: Lanes, next: nat, t: Task): Lanes {
    lanes + map lane | lane in LanesOf(t) :: next + 1
  }

  ghost predicate Stamped(lanes: Lanes, next: nat) {
    forall lane :: lane in lanes ==> 1 <= lanes[lane] <= next
  }

  // --------------------------------------------------------------- selection

  /** Pending, due, still allowed to run, and nobody of its session holds a live lease. */
  predicate Waiting(tasks: seq<Task>, now: int, i: TaskId) {
    && i < |tasks|
    && tasks[i].state == Pending && tasks[i].availableAt <= now
    && (tasks[i].attempts < tasks[i].maxAttempts || IsMarker(tasks[i].error))
    && forall j :: 0 <= j < |tasks| && tasks[j].session == tasks[i].session ==> !Live(tasks[j], now)
  }

  function SessionKey(tasks: seq<Task>, i: TaskId): seq<int>
    requires i < |tasks|
  {
    [-tasks[i].priority, tasks[i].createdAt, tasks[i].uuid, i]
  }

  /** First of its session. */
  predicate Head(tasks: seq<Task>, now: int, i: TaskId) {
    && Waiting(tasks, now, i)
    && forall j :: 0 <= j < |tasks| && tasks[j].session == tasks[i].session && Waiting(tasks, now, j)
         ==> !LexLess(SessionKey(tasks, j), SessionKey(tasks, i))
  }

  predicate Admissible(tasks: seq<Task>, now: int, caps: Caps, i: TaskId) {
    && Head(tasks, now, i)
    && LiveIn(tasks, OfTenant(tasks[i].tenant), now) < caps.tenant
    && LiveIn(tasks, OfApp(tasks[i].tenant, tasks[i].app), now) < caps.app
    && (tasks[i].group.Some? ==>
          LiveIn(tasks, OfGroup(tasks[i].tenant, tasks[i].app, tasks[i].group.value), now) < caps.group)
  }

  function SortKey(tasks: seq<Task>, lanes: Lanes, i: TaskId): seq<int>
    requires i < |tasks|
  {
    [Served(lanes, LaneAt(tasks[i], 0)), Served(lanes, LaneAt(tasks[i], 1)),
     Served(lanes, LaneAt(tasks[i], 2)), Served(lanes, LaneAt(tasks[i], 3))]
    + SessionKey(tasks, i)
  }

  /** `i` may be leased and no other task that may be leased sorts before it. */
  ghost predicate Chosen(tasks: seq<Task>, now: int, caps: Caps, lanes: Lanes, i: TaskId) {
    && Admissible(tasks, now, caps, i)
    && forall j :: 0 <= j < |tasks| && Admissible(tasks, now, caps, j)
         ==> !LexLess(SortKey(tasks, lanes, j), SortKey(tasks, lanes, i))
  }

  // ---------------------------------------------------------------- fairness

  /** One turn of the selection loop. Anything may happen to tasks between turns; only turns move lanes. */
  datatype Turn = Turn(tasks: seq<Task>, now: int, lanes: Lanes, next: nat, chosen: TaskId)

  ghost predicate TurnOk(turn: Turn, caps: Caps) {
    && Stamped(turn.lanes, turn.next)
    && Chosen(turn.tasks, turn.now, caps, turn.lanes, turn.chosen)
  }

  ghost predicate FollowedBy(turn: Turn, lanes: Lanes, next: nat) {
    && turn.chosen < |turn.tasks|
    && lanes == Advanced(turn.lanes, turn.next, turn.tasks[turn.chosen])
    && next == turn.next + 1
  }

  ghost predicate History(turns: seq<Turn>, caps: Caps) {
    && (forall i :: 0 <= i < |turns| ==> TurnOk(turns[i], caps))
    && (forall i :: 0 <= i < |turns| - 1 ==> FollowedBy(turns[i], turns[i + 1].lanes, turns[i + 1].next))
  }

  function Winner(turn: Turn): Task
    requires turn.chosen < |turn.tasks|
  {
    turn.tasks[turn.chosen]
  }

  /** `lane` has a task that could have been leased in this turn. */
  ghost predicate Contends(turn: Turn, caps: Caps, lane: Lane, level: nat, parents: Task) {
    exists e: TaskId ::
      && Admissible(turn.tasks, turn.now, caps, e)
      && LaneAt(turn.tasks[e], level) == Some(lane)
      && (forall above :: 0 <= above < level ==> LaneAt(turn.tasks[e], above) == LaneAt(parents, above))
  }

  /** Only what a history says about lanes. */
  ghost predicate LanesMove(turns: seq<Turn>) {
    && (forall i :: 0 <= i < |turns| ==> Stamped(turns[i].lanes, turns[i].next) && turns[i].chosen < |turns[i].tasks|)
    && (forall i :: 0 <= i < |turns| - 1 ==> FollowedBy(turns[i], turns[i + 1].lanes, turns[i + 1].next))
  }

  lemma {:induction false} HistoryMovesLanes(turns: seq<Turn>, caps: Caps)
    requires History(turns, caps)
    ensures LanesMove(turns)
  {
    forall i | 0 <= i < |turns|
      ensures Stamped(turns[i].lanes, turns[i].next) && turns[i].chosen < |turns[i].tasks|
    {
      assert TurnOk(turns[i], caps);
    }
  }

  /** One turn stamps the lanes of its winner with the next number and leaves the others alone. */
  lemma {:induction false} StampStep(turns: seq<Turn>, k: nat, lane: Lane)
    requires LanesMove(turns) && k + 1 < |turns|
    ensures turns[k + 1].next == turns[k].next + 1
    ensures Served(turns[k + 1].lanes, Some(lane))
         == if lane in LanesOf(Winner(turns[k])) then turns[k].next + 1 else Served(turns[k].lanes, Some(lane))
    ensures Served(turns[k].lanes, Some(lane)) <= turns[k].next
  {
    assert FollowedBy(turns[k], turns[k + 1].lanes, turns[k + 1].next);
  }

  lemma {:induction false} StampsGrow(turns: seq<Turn>, i: nat, j: nat, lane: Lane)
    requires LanesMove(turns) && i <= j < |turns|
    ensures turns[i].next + (j - i) == turns[j].next
    ensures Served(turns[i].lanes, Some(lane)) <= Served(turns[j].lanes, Some(lane))
    decreases j - i
  {
    if i < j {
      StampStep(turns, j - 1, lane);
      StampsGrow(turns, i, j - 1, lane);
    }
  }

  /** What is served in one turn is later than everything before it, from then on. */
  lemma {:induction false} ServedIsLater(turns: seq<Turn>, i: nat, j: nat, lane: Lane)
    requires LanesMove(turns) && i < j < |turns|
    ensures Served(turns[j].lanes, Some(lane)) <= turns[j].next
    ensures lane in LanesOf(Winner(turns[i])) ==> turns[i].next < Served(turns[j].lanes, Some(lane))
  {
    StampStep(turns, i, lane);
    StampsGrow(turns, i + 1, j, lane);
  }

  lemma {:induction false} StampStays(turns: seq<Turn>, i: nat, j: nat, lane: Lane)
    requires LanesMove(turns) && i < j < |turns|
    requires forall m :: i <= m < j ==> lane !in LanesOf(Winner(turns[m]))
    ensures Served(turns[j].lanes, Some(lane)) == Served(turns[i].lanes, Some(lane))
    decreases j - i
  {
    StampStep(turns, j - 1, lane);
    if i < j - 1 {
      StampStays(turns, i, j - 1, lane);
    }
  }

  /** Lanes keep their stamp until they are served again, and stamps only grow. */
  lemma {:induction false} StampBetween(turns: seq<Turn>, caps: Caps, i: nat, j: nat, lane: Lane)
    requires History(turns, caps) && i < j < |turns|
    ensures turns[i].next < turns[j].next
    ensures Served(turns[i].lanes, Some(lane)) <= Served(turns[j].lanes, Some(lane)) <= turns[j].next
    ensures lane in LanesOf(Winner(turns[i])) ==> turns[i].next < Served(turns[j].lanes, Some(lane))
    ensures (forall m :: i <= m < j ==> lane !in LanesOf(Winner(turns[m])))
              ==> Served(turns[j].lanes, Some(lane)) == Served(turns[i].lanes, Some(lane))
  {
    HistoryMovesLanes(turns, caps);
    StampsGrow(turns, i, j, lane);
    ServedIsLater(turns, i, j, lane);
    if forall m :: i <= m < j ==> lane !in LanesOf(Winner(turns[m])) {
      StampStays(turns, i, j, lane);
    }
  }

  /**
   No second turn: if a lane is served in turns `i` and `j` although another lane
   under the same parents could have been served in turn `j`, then that other lane
   was served in between.
   */
  lemma {:induction false} NoSecondTurn(turns: seq<Turn>, caps: Caps, i: nat, j: nat, level: nat, lane: Lane, rival: Lane)
    requires History(turns, caps) && i < j < |turns| && level <= SESSION_LEVEL
    requires LaneAt(Winner(turns[i]), level) == LaneAt(Winner(turns[j]), level) == Some(lane)
    requires rival != lane && Contends(turns[j], caps, rival, level, Winner(turns[j]))
    ensures exists m :: i < m < j && rival in LanesOf(Winner(turns[m]))
  {
    if forall m :: i < m < j ==> rival !in LanesOf(Winner(turns[m])) {
      var turn := turns[j];
      assert TurnOk(turn, caps) && TurnOk(turns[i], caps);
      var e: TaskId :| && Admissible(turn.tasks, turn.now, caps, e)
                       && LaneAt(turn.tasks[e], level) == Some(rival)
                       && (forall above :: 0 <= above < level ==> LaneAt(turn.tasks[e], above) == LaneAt(Winner(turn), above));
      var mine := SortKey(turn.tasks, turn.lanes, turn.chosen);
      var theirs := SortKey(turn.tasks, turn.lanes, e);
      SameLeadingColumns(turn, e, level);
      LexColumn(mine, theirs, level);
      LaneIsListed(Winner(turns[i]), level);
      StampBetween(turns, caps, i, j, lane);
      RivalUnserved(turns, caps, i, j, level, rival);
      assert false;
    }
  }

  lemma {:induction false} RivalUnserved(turns: seq<Turn>, caps: Caps, i: nat, j: nat, level: nat, rival: Lane)
    requires History(turns, caps) && i < j < |turns| && level <= SESSION_LEVEL
    requires LaneAt(Winner(turns[i]), level).Some? && LaneAt(Winner(turns[i]), level) != Some(rival)
    requires forall m :: i < m < j ==> rival !in LanesOf(Winner(turns[m]))
    requires exists e: Task :: LaneAt(e, level) == Some(rival)
    ensures Served(turns[j].lanes, Some(rival)) <= turns[i].next
  {
    assert TurnOk(turns[i], caps);
    assert rival !in LanesOf(Winner(turns[i]));
    StampBetween(turns, caps, i, j, rival);
  }

  lemma {:induction false} LaneIsListed(t: Task, level: nat)
    requires level <= SESSION_LEVEL && LaneAt(t, level).Some?
    ensures LaneAt(t, level).value in LanesOf(t)
  {
  }

  lemma {:induction false} SameLeadingColumns(turn: Turn, e: TaskId, level: nat)
    requires turn.chosen < |turn.tasks| && e < |turn.tasks| && level <= SESSION_LEVEL
    requires forall above :: 0 <= above < level ==> LaneAt(turn.tasks[e], above) == LaneAt(Winner(turn), above)
    ensures SortKey(turn.tasks, turn.lanes, turn.chosen)[..level] == SortKey(turn.tasks, turn.lanes, e)[..level]
  {
    forall c | 0 <= c < level
      ensures SortKey(turn.tasks, turn.lanes, turn.chosen)[c] == SortKey(turn.tasks, turn.lanes, e)[c]
    {
      assert LaneAt(turn.tasks[e], c) == LaneAt(Winner(turn), c);
    }
  }

  /** `waiting` could have been served in every turn, and never was. */
  ghost predicate PassedOver(turns: seq<Turn>, caps: Caps, waiting: string) {
    forall i :: 0 <= i < |turns| ==>
      && turns[i].chosen < |turns[i].tasks|
      && Winner(turns[i]).tenant != waiting
      && Contends(turns[i], caps, TenantLane(waiting), 0, Winner(turns[i]))
  }

  ghost function WinningTenants(turns: seq<Turn>): seq<string>
    requires forall i :: 0 <= i < |turns| ==> turns[i].chosen < |turns[i].tasks|
  {
    seq(|turns|, i requires 0 <= i < |turns| => Winner(turns[i]).tenant)
  }

  /**
   One round at most: a tenant that could have been served in every turn of a
   history but never was has let every other tenant go first at most once.
   */
  lemma {:induction false} WaitsOneRound(turns: seq<Turn>, caps: Caps, waiting: string, tenants: set<string>)
    requires History(turns, caps) && PassedOver(turns, caps, waiting) && waiting in tenants
    requires forall i :: 0 <= i < |turns| ==> Winner(turns[i]).tenant in tenants
    ensures forall i, j :: 0 <= i < j < |turns| ==> Winner(turns[i]).tenant != Winner(turns[j]).tenant
    ensures |turns| < |tenants|
  {
    var winners := WinningTenants(turns);
    forall i, j | 0 <= i < j < |turns|
      ensures Winner(turns[i]).tenant != Winner(turns[j]).tenant
    {
      WinnersDiffer(turns, caps, waiting, i, j);
    }
    DistinctTenants(winners);
    var seen := set x | x in winners;
    SmallerSubset(seen, tenants - {waiting});
  }

  lemma {:induction false} WinnersDiffer(turns: seq<Turn>, caps: Caps, waiting: string, i: nat, j: nat)
    requires History(turns, caps) && PassedOver(turns, caps, waiting) && i < j < |turns|
    ensures Winner(turns[i]).tenant != Winner(turns[j]).tenant
  {
    if Winner(turns[i]).tenant == Winner(turns[j]).tenant {
      NoSecondTurn(turns, caps, i, j, 0, TenantLane(Winner(turns[i]).tenant), TenantLane(waiting));
    }
  }

  /** `app` could have been served in every turn that went to its tenant, and never was. */
  ghost predicate AppPassedOver(turns: seq<Turn>, caps: Caps, tenant: string, app: string) {
    forall i :: 0 <= i < |turns| ==>
      && turns[i].chosen < |turns[i].tasks|
      && (Winner(turns[i]).tenant == tenant ==>
            Winner(turns[i]).app != app && Contends(turns[i], caps, AppLane(tenant, app), 1, Winner(turns[i])))
  }

  /** One round at most between the applications of one tenant, too. */
  lemma {:induction false} AppWaitsOneRound(turns: seq<Turn>, caps: Caps, tenant: string, app: string, i: nat, j: nat)
    requires History(turns, caps) && AppPassedOver(turns, caps, tenant, app) && i < j < |turns|
    requires Winner(turns[i]).tenant == Winner(turns[j]).tenant == tenant
    ensures Winner(turns[i]).app != Winner(turns[j]).app
  {
    if Winner(turns[i]).app == Winner(turns[j]).app {
      NoSecondTurn(turns, caps, i, j, 1, AppLane(tenant, Winner(turns[i]).app), AppLane(tenant, app));
    }
  }

  lemma {:induction false} DistinctTenants(xs: seq<string>)
    requires forall i, j :: 0 <= i < j < |xs| ==> xs[i] != xs[j]
    ensures |set x | x in xs| == |xs|
  {
    if xs == [] {
      assert (set x | x in xs) == {};
    } else {
      var last := |xs| - 1;
      DistinctTenants(xs[..last]);
      assert xs == xs[..last] + [xs[last]];
      assert (set x | x in xs) == (set x | x in xs[..last]) + {xs[last]};
    }
  }

  lemma {:induction false} SmallerSubset(a: set<string>, b: set<string>)
    requires a <= b
    ensures |a| <= |b|
  {
    assert b == a + (b - a);
  }

  /**
   Where fairness between groups ends. A task without a group always counts as
   never served, so while one is admissible, no task whose group was ever served
   is chosen in the same application: groups can starve behind direct messages.
   */
  lemma {:induction false} GrouplessGoFirst(
    tasks: seq<Task>, now: int, caps: Caps, lanes: Lanes, next: nat, direct: TaskId, grouped: TaskId)
    requires Stamped(lanes, next)
    requires Admissible(tasks, now, caps, direct) && tasks[direct].group.None?
    requires grouped < |tasks| && tasks[grouped].group.Some?
    requires tasks[grouped].tenant == tasks[direct].tenant && tasks[grouped].app == tasks[direct].app
    requires LaneAt(tasks[grouped], 2).value in lanes
    ensures !Chosen(tasks, now, caps, lanes, grouped)
  {
    var mine := SortKey(tasks, lanes, grouped);
    var theirs := SortKey(tasks, lanes, direct);
    if !LexLess(theirs, mine) {
      assert mine[..2] == theirs[..2];
      LexColumn(mine, theirs, 2);
    }
  }
}

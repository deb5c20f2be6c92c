/** Where fairness between the groups of an application ends, and exactly when it holds. */
module TaskStarvation {
  import opened Outcomes
  import opened TaskRules

  // ------------------------------------------------------ the exact condition

  function GroupStamp(lanes: Lanes, t: Task): nat {
    Served(lanes, LaneAt(t, 2))
  }

  /** `mine` was served in turn `i`, and `rival`, of another session of the application, not since. */
  ghost predicate ServedSince(turns: seq<Turn>, caps: Caps, i: nat, j: nat, mine: TaskId, rival: TaskId) {
    && History(turns, caps) && i < j < |turns|
    && mine < |turns[j].tasks| && rival < |turns[j].tasks|
    && turns[j].tasks[mine].tenant == turns[j].tasks[rival].tenant
    && turns[j].tasks[mine].app == turns[j].tasks[rival].app
    && turns[i].chosen < |turns[i].tasks| && Winner(turns[i]).session == turns[j].tasks[mine].session
    && turns[j].tasks[rival].session != turns[j].tasks[mine].session
    && forall m :: i < m < j ==> m < |turns| && turns[m].chosen < |turns[m].tasks|
                                 && SessionLane(turns[j].tasks[rival].session) !in LanesOf(Winner(turns[m]))
  }

  /** Then the keys of the two agree up to the group, and the session stamp of `mine` is the later one. */
  lemma {:induction false} KeysBeforeGroups(turns: seq<Turn>, caps: Caps, i: nat, j: nat, mine: TaskId, rival: TaskId)
    requires ServedSince(turns, caps, i, j, mine, rival)
    ensures var a := SortKey(turns[j].tasks, turns[j].lanes, mine);
            var b := SortKey(turns[j].tasks, turns[j].lanes, rival);
            a[..2] == b[..2] && a[3] > b[3]
  {
    var turn := turns[j];
    var lane := SessionLane(turn.tasks[mine].session);
    assert LaneAt(Winner(turns[i]), SESSION_LEVEL) == Some(lane) && lane in LanesOf(Winner(turns[i]));
    HistoryMovesLanes(turns, caps);
    ServedIsLater(turns, i, j, lane);
    assert LaneAt(turn.tasks[rival], SESSION_LEVEL) == Some(SessionLane(turn.tasks[rival].session));
    RivalUnserved(turns, caps, i, j, SESSION_LEVEL, SessionLane(turn.tasks[rival].session));
  }

  /**
   Two sessions of one application, of which `mine` was served in turn `i` and
   `rival` has not been served since: in turn `j` the served one still sorts first
   exactly when the other's group was served later than its own, where having no
   group counts as never served. Otherwise the other one sorts first.
   */
  lemma {:induction false} OvertakesExactly(turns: seq<Turn>, caps: Caps, i: nat, j: nat, mine: TaskId, rival: TaskId)
    requires ServedSince(turns, caps, i, j, mine, rival)
    ensures var later := GroupStamp(turns[j].lanes, turns[j].tasks[mine]) < GroupStamp(turns[j].lanes, turns[j].tasks[rival]);
            && (LexLess(SortKey(turns[j].tasks, turns[j].lanes, mine), SortKey(turns[j].tasks, turns[j].lanes, rival)) <==> later)
            && (LexLess(SortKey(turns[j].tasks, turns[j].lanes, rival), SortKey(turns[j].tasks, turns[j].lanes, mine)) <==> !later)
  {
    var a := SortKey(turns[j].tasks, turns[j].lanes, mine);
    var b := SortKey(turns[j].tasks, turns[j].lanes, rival);
    KeysBeforeGroups(turns, caps, i, j, mine, rival);
    if a[2] != b[2] {
      LexDecided(a, b, 2);
      LexDecided(b, a, 2);
    } else {
      assert a[..3] == a[..2] + [a[2]] && b[..3] == b[..2] + [b[2]];
      LexDecided(a, b, 3);
      LexDecided(b, a, 3);
    }
  }

  /** So a second turn over a waiting session of the application means that its group was served later. */
  lemma {:induction false} SecondTurnNeedsLaterGroup(turns: seq<Turn>, caps: Caps, i: nat, j: nat, rival: TaskId)
    requires j < |turns| && ServedSince(turns, caps, i, j, turns[j].chosen, rival)
    requires Admissible(turns[j].tasks, turns[j].now, caps, rival)
    ensures GroupStamp(turns[j].lanes, Winner(turns[j])) < GroupStamp(turns[j].lanes, turns[j].tasks[rival])
  {
    OvertakesExactly(turns, caps, i, j, turns[j].chosen, rival);
    assert TurnOk(turns[j], caps);
  }

  /** Of the two, the one already served is chosen if and only if the other's group was served later. */
  lemma {:induction false} ChosenExactly(turns: seq<Turn>, caps: Caps, i: nat, j: nat, mine: TaskId, rival: TaskId)
    requires ServedSince(turns, caps, i, j, mine, rival)
    requires Admissible(turns[j].tasks, turns[j].now, caps, mine) && Admissible(turns[j].tasks, turns[j].now, caps, rival)
    requires turns[j].chosen == mine || turns[j].chosen == rival
    ensures turns[j].chosen == mine
            <==> GroupStamp(turns[j].lanes, turns[j].tasks[mine]) < GroupStamp(turns[j].lanes, turns[j].tasks[rival])
  {
    OvertakesExactly(turns, caps, i, j, mine, rival);
    assert TurnOk(turns[j], caps);
  }

  // ------------------------------------------------- applications of one kind

  /** All tasks of the application belong to groups, or none does. */
  predicate OneKind(tasks: seq<Task>, tenant: string, app: string) {
    forall x, y :: 0 <= x < |tasks| && 0 <= y < |tasks|
      && tasks[x].tenant == tasks[y].tenant == tenant && tasks[x].app == tasks[y].app == app
      ==> (tasks[x].group.Some? <==> tasks[y].group.Some?)
  }

  /** What takes turns inside an application: its groups, or its sessions where there are no groups. */
  function TurnTaker(t: Task): Lane {
    match t.group
    case Some(g) => GroupLane(t.tenant, t.app, g)
    case None => SessionLane(t.session)
  }

  /** With groups everywhere or nowhere in an application, the documented rule holds inside it. */
  lemma {:induction false} OneKindIsFair(turns: seq<Turn>, caps: Caps, i: nat, j: nat, rival: TaskId)
    requires History(turns, caps) && i < j < |turns|
    requires Admissible(turns[j].tasks, turns[j].now, caps, rival)
    requires turns[i].chosen < |turns[i].tasks| && turns[j].chosen < |turns[j].tasks|
    requires OneKind(turns[j].tasks, Winner(turns[j]).tenant, Winner(turns[j]).app)
    requires Winner(turns[j]).tenant == turns[j].tasks[rival].tenant && Winner(turns[j]).app == turns[j].tasks[rival].app
    requires TurnTaker(Winner(turns[i])) == TurnTaker(Winner(turns[j])) != TurnTaker(turns[j].tasks[rival])
    ensures exists m :: i < m < j && TurnTaker(turns[j].tasks[rival]) in LanesOf(Winner(turns[m]))
  {
    var mine, other := Winner(turns[j]), turns[j].tasks[rival];
    var level := if mine.group.Some? then 2 else SESSION_LEVEL;
    forall above: nat | above < level
      ensures LaneAt(other, above) == LaneAt(mine, above)
    {
    }
    assert LaneAt(other, level) == Some(TurnTaker(other));
    assert Contends(turns[j], caps, TurnTaker(other), level, mine);
    NoSecondTurn(turns, caps, i, j, level, TurnTaker(mine), TurnTaker(other));
  }

  // -------------------------------------------------------- a starving group

  function Fresh(k: nat, session: string, tenant: string, app: string, group: Option<string>): Task {
    Task("", "", session, tenant, app, group, 0, k, k, 0, Pending, 0, 5, None, NoLease)
  }

  function Finished(t: Task): Task {
    t.(state := Succeeded, attempts := t.attempts + 1)
  }

  function First(tenant: string, app: string, group: string): Task {
    Fresh(0, "group", tenant, app, Some(group))
  }

  function Direct(k: nat, tenant: string, app: string): Task {
    Fresh(k, "direct", tenant, app, None)
  }

  /** The rows before turn `k`: the group was served once, its next task waits, and one direct message after another is served. */
  function Rows(k: nat, tenant: string, app: string, group: string): seq<Task> {
    if k == 0 then [First(tenant, app, group)]
    else if k == 1 then
      [Finished(First(tenant, app, group)), Fresh(1, "group", tenant, app, Some(group)), Direct(1, tenant, app)]
    else
      var before := Rows(k - 1, tenant, app, group);
      (if before == [] then [] else before[|before| - 1 := Finished(before[|before| - 1])]) + [Direct(k, tenant, app)]
  }

  function LanesBefore(k: nat, tenant: string, app: string, group: string): Lanes {
    if k == 0 then map[]
    else
      Advanced(LanesBefore(k - 1, tenant, app, group), k - 1,
               if k == 1 then First(tenant, app, group) else Direct(k - 1, tenant, app))
  }

  function StarvingTurn(k: nat, tenant: string, app: string, group: string): Turn {
    Turn(Rows(k, tenant, app, group), 0, LanesBefore(k, tenant, app, group), k, if k == 0 then 0 else k + 1)
  }

  lemma {:induction false} RowsShape(k: nat, tenant: string, app: string, group: string)
    requires k >= 1
    ensures var rows := Rows(k, tenant, app, group);
            && |rows| == k + 2
            && rows[1] == Fresh(1, "group", tenant, app, Some(group)) && rows[k + 1] == Direct(k, tenant, app)
            && forall x :: 0 <= x < |rows| && x != 1 && x != k + 1 ==> rows[x].state == Succeeded && rows[x].lease == NoLease
  {
    if k > 1 {
      RowsShape(k - 1, tenant, app, group);
    }
  }

  lemma {:induction false} LanesShape(k: nat, tenant: string, app: string, group: string)
    requires k >= 1
    ensures var lanes := LanesBefore(k, tenant, app, group);
            && Stamped(lanes, k)
            && GroupLane(tenant, app, group) in lanes && lanes[GroupLane(tenant, app, group)] == 1
  {
    if k > 1 {
      LanesShape(k - 1, tenant, app, group);
    }
  }

  lemma {:induction false} NobodyLive(tasks: seq<Task>, s: Scope, now: int)
    requires forall x :: 0 <= x < |tasks| ==> tasks[x].state != Leased
    ensures LiveIn(tasks, s, now) == 0
  {
    if tasks != [] {
      NobodyLive(tasks[..|tasks| - 1], s, now);
    }
  }

  /** A pending, due task that nobody of its session competes with may be leased while nothing is. */
  lemma {:induction false} AloneIsAdmissible(tasks: seq<Task>, caps: Caps, x: TaskId)
    requires x < |tasks| && tasks[x].state == Pending && tasks[x].availableAt <= 0 && tasks[x].attempts < tasks[x].maxAttempts
    requires forall y :: 0 <= y < |tasks| ==> tasks[y].state != Leased
    requires forall y :: 0 <= y < |tasks| && y != x && tasks[y].session == tasks[x].session ==> tasks[y].state != Pending
    requires caps.tenant >= 1 && caps.app >= 1 && caps.group >= 1
    ensures Admissible(tasks, 0, caps, x)
  {
    forall s: Scope
      ensures LiveIn(tasks, s, 0) == 0
    {
      NobodyLive(tasks, s, 0);
    }
    NotLessThanItself(SessionKey(tasks, x));
  }

  /** The waiting task of the group could be leased, the group was served before, and a task without a group is chosen. */
  ghost predicate PassesOver(turn: Turn, caps: Caps, tenant: string, app: string, group: string) {
    && 1 < turn.chosen < |turn.tasks|
    && turn.tasks[1] == Fresh(1, "group", tenant, app, Some(group))
    && Admissible(turn.tasks, turn.now, caps, 1)
    && GroupLane(tenant, app, group) in turn.lanes
    && Winner(turn).tenant == tenant && Winner(turn).app == app && Winner(turn).group == None
  }

  lemma {:induction false} StarvingTurnIsRight(k: nat, tenant: string, app: string, group: string, caps: Caps)
    requires caps.tenant >= 1 && caps.app >= 1 && caps.group >= 1
    ensures TurnOk(StarvingTurn(k, tenant, app, group), caps)
    ensures k >= 1 ==> PassesOver(StarvingTurn(k, tenant, app, group), caps, tenant, app, group)
  {
    var turn := StarvingTurn(k, tenant, app, group);
    if k == 0 {
      AloneIsAdmissible(turn.tasks, caps, 0);
      NotLessThanItself(SortKey(turn.tasks, turn.lanes, 0));
    } else {
      RowsShape(k, tenant, app, group);
      LanesShape(k, tenant, app, group);
      AloneIsAdmissible(turn.tasks, caps, 1);
      AloneIsAdmissible(turn.tasks, caps, k + 1);
      var waiting, direct := SortKey(turn.tasks, turn.lanes, 1), SortKey(turn.tasks, turn.lanes, k + 1);
      assert waiting[..2] == direct[..2] && waiting[2] == 1 && direct[2] == 0;
      LexDecided(waiting, direct, 2);
      NotLessThanItself(direct);
    }
  }

  /**
   A group can starve for as long as one likes: after it was served once, `n` turns
   in a row go to tasks without a group, while its next task could be leased in
   every one of them.
   */
  lemma {:induction false} GroupStarves(n: nat, tenant: string, app: string, group: string, caps: Caps)
    returns (turns: seq<Turn>)
    requires caps.tenant >= 1 && caps.app >= 1 && caps.group >= 1
    ensures History(turns, caps) && |turns| == n + 1
    ensures Winner(turns[0]).group == Some(group)
    ensures forall k :: 1 <= k <= n ==> PassesOver(turns[k], caps, tenant, app, group)
    ensures forall k :: 1 <= k < n ==> GoesOn(turns[k], turns[k + 1], k + 1, tenant, app)
  {
    turns := seq(n + 1, k requires 0 <= k < n + 1 => StarvingTurn(k, tenant, app, group));
    forall k: nat | k <= n
      ensures TurnOk(turns[k], caps)
      ensures k >= 1 ==> PassesOver(turns[k], caps, tenant, app, group)
    {
      StarvingTurnIsRight(k, tenant, app, group, caps);
    }
    forall k: nat | k < n
      ensures FollowedBy(turns[k], turns[k + 1].lanes, turns[k + 1].next)
      ensures k >= 1 ==> GoesOn(turns[k], turns[k + 1], k + 1, tenant, app)
    {
      StarvingTurnsFollow(k, tenant, app, group);
      assert turns[k] == StarvingTurn(k, tenant, app, group) && turns[k + 1] == StarvingTurn(k + 1, tenant, app, group);
    }
  }

  /** The rows of a turn are those of the one before, with its winner finished and message `k` arrived. */
  predicate GoesOn(turn: Turn, next: Turn, k: nat, tenant: string, app: string) {
    && turn.chosen < |turn.tasks|
    && next.tasks == turn.tasks[turn.chosen := Finished(Winner(turn))] + [Direct(k, tenant, app)]
  }

  lemma {:induction false} StarvingTurnsFollow(k: nat, tenant: string, app: string, group: string)
    ensures var turn, next := StarvingTurn(k, tenant, app, group), StarvingTurn(k + 1, tenant, app, group);
            && FollowedBy(turn, next.lanes, next.next)
            && (k >= 1 ==> GoesOn(turn, next, k + 1, tenant, app))
  {
    if k >= 1 {
      RowsShape(k, tenant, app, group);
    }
  }
}

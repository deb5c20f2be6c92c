/** The transactions of the durable Agent graph store, each one atomic. */
module AgentStore {
  import opened Outcomes
  import opened AgentGraph
  import opened AgentMoves

  datatype SpawnError =
    | GraphNotActive | NoSuchParent | NodeLimit | DepthLimit
    | ForeignDependency | InsufficientBudget | DuplicateName | DuplicateDependency

  /** Whether `parent` can put `budgets` aside for one more child. */
  predicate Affordable(accounts: map<Kind, Account>, budgets: map<Kind, nat>) {
    forall k :: k in budgets ==>
      k in accounts && accounts[k].reserved + accounts[k].consumed + budgets[k] <= accounts[k].maximum
  }

  function Reserved(accounts: map<Kind, Account>, budgets: map<Kind, nat>): map<Kind, Account> {
    map k | k in accounts ::
      if k in budgets then accounts[k].(reserved := accounts[k].reserved + budgets[k]) else accounts[k]
  }

  predicate Distinct(xs: seq<NodeId>) {
    forall a, b :: 0 <= a < b < |xs| ==> xs[a] != xs[b]
  }

  predicate NameTaken(nodes: seq<Node>, p: NodeId, name: string) {
    exists c :: 0 <= c < |nodes| && nodes[c].parent == Some(p) && nodes[c].spec.name == name
  }

  /** The first reason, in the order the store looks for them, to refuse a child. */
  function SpawnRefusal(
    graphs: map<GraphId, Graph>, nodes: seq<Node>, ledger: Ledger, g: GraphId, p: NodeId, spec: Spec)
    : Option<SpawnError>
    requires |ledger| == |nodes|
  {
    if g !in graphs || graphs[g].status != Active then Some(GraphNotActive)
    else if p >= |nodes| || nodes[p].graph != g then Some(NoSuchParent)
    else if Members(nodes, g) >= graphs[g].limits.maxNodes then Some(NodeLimit)
    else if nodes[p].depth + 1 > graphs[g].limits.maxDepth then Some(DepthLimit)
    else if exists d :: d in spec.deps && (d >= |nodes| || nodes[d].graph != g) then Some(ForeignDependency)
    else if !Affordable(ledger[p], spec.budgets) then Some(InsufficientBudget)
    else if NameTaken(nodes, p, spec.name) then Some(DuplicateName)
    else if !Distinct(spec.deps) then Some(DuplicateDependency)
    else None
  }

  function Parked(nodes: seq<Node>, p: NodeId): seq<Node>
    requires p < |nodes|
  {
    if nodes[p].status == Ready || nodes[p].status == Interrupted
    then nodes[p := nodes[p].(status := Waiting)] else nodes
  }

  function Opened(budgets: map<Kind, nat>): map<Kind, Account> {
    map k | k in budgets :: Account(budgets[k], 0, 0)
  }

  /** A leasable row: no open child, every predecessor completed, deadline ahead. */
  predicate Eligible(nodes: seq<Node>, g: GraphId, now: int, i: NodeId) {
    && i < |nodes|
    && nodes[i].graph == g
    && (nodes[i].status == Ready || nodes[i].status == Interrupted)
    && (nodes[i].spec.deadline.Some? ==> nodes[i].spec.deadline.value > now)
    && !HasOpenChild(nodes, i)
    && DepsCompleted(nodes, i)
  }

  predicate Ahead(a: Node, b: Node) {
    || a.depth > b.depth
    || (a.depth == b.depth
        && (a.createdAt < b.createdAt || (a.createdAt == b.createdAt && a.uuid < b.uuid)))
  }

  function Reclaimed(n: Node, g: GraphId, now: int): Node {
    if n.graph == g && n.status == Running && n.lease.Lease? && n.lease.expires <= now
    then n.(status := Ready, lease := NoLease) else n
  }

  function LeasedTo(n: Node, worker: Worker, expires: int): Node {
    n.(status := Running, lease := Lease(worker, expires), attempts := n.attempts + 1)
  }

  predicate OwnedBy(nodes: seq<Node>, i: NodeId, worker: Worker) {
    i < |nodes| && nodes[i].status == Running && nodes[i].lease.Lease? && nodes[i].lease.owner == worker
  }

  /** A row that is terminal now was so before, or is an open dependent of `d` that got blocked. */
  ghost predicate KeptOrBlocked(before: seq<Node>, after: seq<Node>, d: NodeId, j: NodeId)
    requires j < |before| == |after|
  {
    Terminal(after[j].status) ==>
      || after[j] == before[j]
      || (Open(before[j]) && d in before[j].spec.deps && after[j] == Ended(before[j], Blocked))
  }

  lemma {:induction false} BalancedAfterSpawn(
    graphs: map<GraphId, Graph>, nodes: seq<Node>, ledger: Ledger, p: NodeId, child: Node)
    requires Shaped(graphs, nodes) && Balanced(nodes, ledger) && p < |nodes|
    requires child.parent == Some(p) && Open(child) && Affordable(ledger[p], child.spec.budgets)
    ensures Balanced(
              Parked(nodes, p) + [child],
              ledger[p := Reserved(ledger[p], child.spec.budgets)] + [Opened(child.spec.budgets)])
  {
    var parked := Parked(nodes, p);
    BalancedWhileOpen(nodes, parked, ledger);
    var after := parked + [child];
    var ledger' := ledger[p := Reserved(ledger[p], child.spec.budgets)] + [Opened(child.spec.budgets)];
    forall j | 0 <= j < |after|
      ensures BalancedAt(after, ledger', j)
    {
      forall k | k in ledger'[j]
        ensures ledger'[j][k].reserved == OpenChildBudget(after, j, k)
      {
        SumAfterAppend(parked, child, j, k);
        if j < |nodes| {
          assert BalancedAt(parked, ledger, j);
        } else {
          forall c | 0 <= c < |parked|
            ensures Share(parked[c], j, k) == 0
          {
            assert ShapedAt(graphs, nodes, c);
          }
          SumOfNone(parked, j, k);
        }
      }
      if j < |nodes| {
        assert BalancedAt(parked, ledger, j);
      }
    }
  }

  predicate RunTaken(graphs: map<GraphId, Graph>, run: string) {
    exists g :: g in graphs && graphs[g].run == run
  }

  predicate OneGraphPerRun(graphs: map<GraphId, Graph>) {
    forall g, h :: g in graphs && h in graphs && graphs[g].run == graphs[h].run ==> g == h
  }

  class Store {
    var graphs: map<GraphId, Graph>
    var nodes: seq<Node>
    var ledger: Ledger

    ghost predicate Valid()
      reads this
    {
      Consistent(graphs, nodes, ledger)
    }

    constructor ()
      ensures Valid() && graphs == map[] && nodes == [] && ledger == []
    {
      graphs, nodes, ledger := map[], [], [];
    }

    method CreateGraph(g: GraphId, run: string, spec: Spec, limits: Limits, now: int, uuid: int) returns (r: Result<NodeId, ()>)
      requires Valid()
      requires limits.maxDepth >= 1 && limits.maxNodes >= 1 && limits.maxConcurrency >= 1
      modifies this
      ensures Valid()
      ensures r.Err? <==> g in old(graphs) || RunTaken(old(graphs), run)
      ensures OneGraphPerRun(old(graphs)) ==> OneGraphPerRun(graphs)
      ensures r.Err? ==> graphs == old(graphs) && nodes == old(nodes) && ledger == old(ledger)
      ensures r.Ok? ==>
                && r.value == |old(nodes)|
                && graphs == old(graphs)[g := Graph(run, r.value, Active, limits)]
                && nodes == old(nodes)
                     + [Node(g, None, spec.(deps := []), 1, now, uuid, Ready, NoLease, 0)]
                && ledger == old(ledger) + [Opened(spec.budgets)]
    {
      if g in graphs || RunTaken(graphs, run) {
        return Err(());
      }
      var root := Node(g, None, spec.(deps := []), 1, now, uuid, Ready, NoLease, 0);
      AfterRoot(graphs, nodes, ledger, g, run, limits, root);
      r := Ok(|nodes|);
      graphs := graphs[g := Graph(run, |nodes|, Active, limits)];
      nodes := nodes + [root];
      ledger := ledger + [Opened(spec.budgets)];
    }

    method SpawnChild(g: GraphId, p: NodeId, spec: Spec, ready: bool, now: int, uuid: int)
      returns (r: Result<NodeId, SpawnError>)
      requires Valid()
      modifies this
      ensures Valid() && graphs == old(graphs)
      ensures r.Err? <==> SpawnRefusal(old(graphs), old(nodes), old(ledger), g, p, spec).Some?
      ensures r.Err? ==>
                && SpawnRefusal(old(graphs), old(nodes), old(ledger), g, p, spec) == Some(r.error)
                && nodes == old(nodes) && ledger == old(ledger)
      ensures r.Ok? ==>
                && r.value == |old(nodes)| && p < |old(nodes)|
                && nodes == Parked(old(nodes), p)
                     + [Node(g, Some(p), spec, old(nodes)[p].depth + 1, now, uuid,
                             if ready then Ready else Created, NoLease, 0)]
                && ledger == old(ledger)[p := Reserved(old(ledger)[p], spec.budgets)] + [Opened(spec.budgets)]
    {
      if g !in graphs || graphs[g].status != Active {
        return Err(GraphNotActive);
      }
      if p >= |nodes| || nodes[p].graph != g {
        return Err(NoSuchParent);
      }
      if Members(nodes, g) >= graphs[g].limits.maxNodes {
        return Err(NodeLimit);
      }
      if nodes[p].depth + 1 > graphs[g].limits.maxDepth {
        return Err(DepthLimit);
      }
      for i := 0 to |spec.deps|
        invariant forall a :: 0 <= a < i ==> spec.deps[a] < |nodes| && nodes[spec.deps[a]].graph == g
      {
        if spec.deps[i] >= |nodes| || nodes[spec.deps[i]].graph != g {
          assert spec.deps[i] in spec.deps;
          return Err(ForeignDependency);
        }
      }
      var paid, accounts := ReserveBudget(ledger[p], spec.budgets);
      if !paid {
        return Err(InsufficientBudget);
      }
      if NameTaken(nodes, p, spec.name) {
        return Err(DuplicateName);
      }
      if !Distinct(spec.deps) {
        return Err(DuplicateDependency);
      }
      var status := if ready then Ready else Created;
      var child := Node(g, Some(p), spec, nodes[p].depth + 1, now, uuid, status, NoLease, 0);
      AfterChild(graphs, nodes, ledger, g, p, child);
      r := Ok(|nodes|);
      ledger := ledger[p := accounts] + [Opened(spec.budgets)];
      nodes := Parked(nodes, p) + [child];
    }

    /** Reserves kind by kind and gives up, keeping nothing, at the first kind that does not fit. */
    method ReserveBudget(accounts: map<Kind, Account>, budgets: map<Kind, nat>)
      returns (ok: bool, after: map<Kind, Account>)
      ensures ok <==> Affordable(accounts, budgets)
      ensures ok ==> after == Reserved(accounts, budgets)
    {
      after := accounts;
      var todo := budgets.Keys;
      while todo != {}
        invariant todo <= budgets.Keys
        invariant after.Keys == accounts.Keys
        invariant forall k :: k in budgets.Keys - todo ==>
                    && k in accounts
                    && accounts[k].reserved + accounts[k].consumed + budgets[k] <= accounts[k].maximum
                    && after[k] == accounts[k].(reserved := accounts[k].reserved + budgets[k])
        invariant forall k :: k in accounts && k !in budgets.Keys - todo ==> after[k] == accounts[k]
      {
        var k :| k in todo;
        if k !in after || after[k].maximum - after[k].reserved - after[k].consumed < budgets[k] {
          return false, accounts;
        }
        after := after[k := after[k].(reserved := after[k].reserved + budgets[k])];
        todo := todo - {k};
      }
      assert after == Reserved(accounts, budgets);
      ok := true;
    }

    method ActivateNode(i: NodeId) returns (ok: bool)
      requires Valid()
      modifies this`nodes
      ensures Valid()
      ensures ok <==> i < |old(nodes)| && (old(nodes)[i].status == Created || old(nodes)[i].status == Ready)
      ensures nodes == if ok then old(nodes)[i := AsReady(old(nodes)[i])] else old(nodes)
    {
      if i >= |nodes| {
        return false;
      }
      if nodes[i].status == Created {
        AfterRelabel(graphs, nodes, ledger, i, AsReady(nodes[i]));
        nodes := nodes[i := AsReady(nodes[i])];
      }
      ok := nodes[i].status == Ready;
    }

    method InterruptNode(i: NodeId) returns (ok: bool)
      requires Valid()
      modifies this`nodes
      ensures Valid()
      ensures ok <==> i < |old(nodes)| && old(nodes)[i].status in {Ready, Running, Waiting}
      ensures nodes == if ok then old(nodes)[i := Ended(old(nodes)[i], Interrupted)] else old(nodes)
    {
      ok := i < |nodes| && nodes[i].status in {Ready, Running, Waiting};
      if ok {
        AfterRelabel(graphs, nodes, ledger, i, Ended(nodes[i], Interrupted));
        nodes := nodes[i := Ended(nodes[i], Interrupted)];
      }
    }

    method FinishGraph(g: GraphId, i: NodeId, status: GraphStatus) returns (ok: bool)
      requires Valid() && status != Active
      modifies this`graphs
      ensures Valid()
      ensures ok <==> g in old(graphs) && old(graphs)[g].root == i && old(graphs)[g].status == Active
      ensures graphs == if ok then old(graphs)[g := old(graphs)[g].(status := status)] else old(graphs)
    {
      ok := g in graphs && graphs[g].root == i && graphs[g].status == Active;
      if ok {
        AfterVerdict(graphs, nodes, ledger, g, status);
        graphs := graphs[g := graphs[g].(status := status)];
      }
    }

    // ---------------------------------------------- steps inside transactions

    /** Gives a finished child's budget back to its parent, never below zero. */
    method ReleaseParentBudget(n: Node)
      requires n.parent.Some? ==> n.parent.value < |ledger|
      modifies this`ledger
      ensures ledger == ReleasedFrom(old(ledger), n)
    {
      if n.parent.None? {
        return;
      }
      var p := n.parent.value;
      var before := ledger[p];
      var todo := n.spec.budgets.Keys;
      while todo != {}
        invariant todo <= n.spec.budgets.Keys
        invariant |ledger| == |old(ledger)| && ledger == old(ledger)[p := ledger[p]]
        invariant ledger[p].Keys == before.Keys
        invariant forall k :: k in before ==>
                    ledger[p][k] ==
                      if k in n.spec.budgets.Keys - todo
                      then before[k].(reserved := Clip(before[k].reserved - n.spec.budgets[k]))
                      else before[k]
      {
        var k :| k in todo;
        if k in ledger[p] {
          var account := ledger[p][k];
          ledger := ledger[p := ledger[p][k := account.(reserved := Clip(account.reserved - n.spec.budgets[k]))]];
        }
        todo := todo - {k};
      }
      assert ledger[p] == Released(before, n.spec.budgets);
    }

    /**
     Ends one open row and returns its budget. The sums stay exact, so the clip at
     zero never bites: the parent's reserve drops by precisely the child's budget.
     */
    method EndNode(i: NodeId, s: NodeStatus)
      requires i < |nodes| && Open(nodes[i]) && Terminal(s)
      requires Shaped(graphs, nodes) && Balanced(nodes, ledger)
      modifies this`nodes, this`ledger
      ensures nodes == old(nodes)[i := Ended(old(nodes)[i], s)]
      ensures Shaped(graphs, nodes) && Balanced(nodes, ledger)
      ensures SameCeilings(old(ledger), ledger)
      ensures forall p, k :: nodes[i].parent == Some(p) && p < |nodes| && k in nodes[i].spec.budgets ==>
                && k in ledger[p] && k in old(ledger)[p]
                && ledger[p][k].reserved == old(ledger)[p][k].reserved - nodes[i].spec.budgets[k]
    {
      var n := nodes[i];
      BalancedAfterEnd(graphs, nodes, ledger, i, s);
      assert ShapedAt(graphs, nodes, i);
      if n.parent.Some? {
        assert BalancedAt(nodes, ledger, n.parent.value);
        forall k | k in n.spec.budgets
          ensures k in ledger[n.parent.value] && n.spec.budgets[k] <= ledger[n.parent.value][k].reserved
        {
          ShareWithinReserve(nodes, ledger, i, k);
        }
      }
      EndIsSettling(nodes, i, s);
      SettlingFacts(nodes, nodes[i := Ended(n, s)]);
      ShapedBySameRows(graphs, nodes, nodes[i := Ended(n, s)]);
      nodes := nodes[i := Ended(n, s)];
      ReleaseParentBudget(n);
    }

    method WakeParent(p: Option<NodeId>)
      requires Shaped(graphs, nodes) && Balanced(nodes, ledger)
      modifies this`nodes
      ensures nodes == Woken(old(nodes), p)
      ensures Shaped(graphs, nodes) && Balanced(nodes, ledger)
    {
      WakeIsSettling(nodes, p);
      SettlingFacts(nodes, Woken(nodes, p));
      ShapedBySameRows(graphs, nodes, Woken(nodes, p));
      BalancedWhileOpen(nodes, Woken(nodes, p), ledger);
      if p.Some? && p.value < |nodes| && nodes[p.value].status == Waiting && !HasOpenChild(nodes, p.value) {
        nodes := nodes[p.value := AsReady(nodes[p.value])];
      }
    }

    /** The invariants that hold between the statements of one transaction; `pending` parents still need their wake-up. */
    ghost predicate Midway(pending: set<NodeId>)
      reads this
    {
      && Shaped(graphs, nodes) && Balanced(nodes, ledger) && Leased(nodes)
      && DepsRespected(nodes) && NoLostWakeup(nodes, pending)
    }

    /** Blocks every open direct dependent of `d`, releasing and waking as it goes. */
    method BlockDependents(d: NodeId, ghost pending: set<NodeId>)
      requires Midway(pending)
      modifies this`nodes, this`ledger
      ensures Midway(pending)
      ensures Settling(old(nodes), nodes) && SameCeilings(old(ledger), ledger)
      ensures OnlyBlocked(old(nodes), nodes, d)
    {
      var rows := Dependents(nodes, d, |nodes|);
      for t := 0 to |rows|
        invariant Midway(pending)
        invariant Settling(old(nodes), nodes) && SameCeilings(old(ledger), ledger)
        invariant BlockedSoFar(old(nodes), nodes, d, rows, t)
      {
        ghost var middle := nodes;
        BlockOne(rows[t], pending);
        SettlingComposes(old(nodes), middle, nodes);
        BlockedStep(old(nodes), middle, nodes, d, rows, t);
      }
      BlockedAll(old(nodes), nodes, d, rows);
    }

    method BlockOne(i: NodeId, ghost pending: set<NodeId>)
      requires i < |nodes| && Open(nodes[i]) && Midway(pending)
      modifies this`nodes, this`ledger
      ensures Midway(pending)
      ensures Settling(old(nodes), nodes) && SameCeilings(old(ledger), ledger)
      ensures OnlyEnded(old(nodes), nodes, i, Blocked)
    {
      ghost var n0 := nodes;
      EndIsSettling(nodes, i, Blocked);
      WakeupsAfterEnd(nodes, i, Blocked, pending);
      DepsAfterEnd(nodes, i, Blocked);
      EndNode(i, Blocked);
      ghost var n1 := nodes;
      WakeIsSettling(nodes, nodes[i].parent);
      WakeupsAfterWake(nodes, nodes[i].parent, pending + ParentSet(nodes[i]));
      DepsAfterWake(n1, nodes[i].parent);
      WakeParent(nodes[i].parent);
      SettlingComposes(n0, n1, nodes);
    }

    // ------------------------------------------------------ ends of a node

    method EndOwned(i: NodeId, s: NodeStatus)
      requires Valid() && i < |nodes| && nodes[i].status == Running && (s == Completed || s == Failed)
      modifies this`nodes, this`ledger
      ensures nodes == old(nodes)[i := Ended(old(nodes)[i], s)]
      ensures Midway(ParentSet(nodes[i])) && Settling(old(nodes), nodes) && SameCeilings(old(ledger), ledger)
    {
      EndIsSettling(nodes, i, s);
      WakeupsAfterEnd(nodes, i, s, {});
      DepsAfterEnd(nodes, i, s);
      EndNode(i, s);
    }

    /** The last statement of a transaction that began in the consistent rows `before`. */
    method WakeLast(p: Option<NodeId>, ghost before: seq<Node>, ghost pending: set<NodeId>)
      requires Midway(pending) && (forall x :: x in pending ==> p == Some(x) || (x < |nodes| && Terminal(nodes[x].status)))
      requires Settling(before, nodes) && Leased(before) && WithinLimits(graphs, before)
      modifies this`nodes
      ensures Valid() && Settling(before, nodes)
      ensures nodes == Woken(old(nodes), p)
    {
      ghost var n1 := nodes;
      WakeIsSettling(nodes, p);
      WakeupsAfterWake(nodes, p, pending);
      DepsAfterWake(nodes, p);
      WakeParent(p);
      SettlingComposes(before, n1, nodes);
      LimitsAfterSettling(graphs, before, nodes);
      SettlingFacts(n1, nodes);
      assert NoLostWakeup(nodes, {});
    }

    /** The owner of the lease gives up: dependents are blocked, whoever waited for the last child is woken. */
    method FailNode(i: NodeId, worker: Worker) returns (ok: bool)
      requires Valid()
      modifies this`nodes, this`ledger
      ensures Valid()
      ensures ok <==> OwnedBy(old(nodes), i, worker)
      ensures !ok ==> nodes == old(nodes) && ledger == old(ledger)
      ensures ok ==> SettledInto(old(nodes), nodes, Victims(old(nodes), i, Failed, true))
      ensures ok ==> SameCeilings(old(ledger), ledger)
    {
      ok := OwnedBy(nodes, i, worker);
      if !ok {
        return;
      }
      EndOwned(i, Failed);
      ghost var n1 := nodes;
      BlockDependents(i, ParentSet(nodes[i]));
      ghost var n2 := nodes;
      SettlingComposes(old(nodes), n1, n2);
      SettlingFacts(n1, n2);
      WakeLast(nodes[i].parent, old(nodes), ParentSet(nodes[i]));
      VictimsOfFailure(graphs, old(nodes), n1, n2, nodes, i);
    }

    /** The owner of the lease succeeds; dependents are left alone. */
    method CompleteNode(i: NodeId, worker: Worker) returns (ok: bool)
      requires Valid()
      modifies this`nodes, this`ledger
      ensures Valid()
      ensures ok <==> OwnedBy(old(nodes), i, worker)
      ensures !ok ==> nodes == old(nodes) && ledger == old(ledger)
      ensures ok ==> SettledInto(old(nodes), nodes, Victims(old(nodes), i, Completed, false))
      ensures ok ==> SameCeilings(old(ledger), ledger)
    {
      ok := OwnedBy(nodes, i, worker);
      if !ok {
        return;
      }
      EndOwned(i, Completed);
      WakeLast(nodes[i].parent, old(nodes), ParentSet(nodes[i]));
      SettledExactly(old(nodes), nodes, Victims(old(nodes), i, Completed, false));
    }

    // -------------------------------------------------------- cancellation

    /** The node and everything under it, breadth first. */
    method Descendants(root: NodeId) returns (ids: seq<NodeId>)
      requires Shaped(graphs, nodes)
      ensures forall j :: j in ids <==> Below(nodes, j, root)
      ensures Distinct(ids)
      ensures if root < |nodes| then |ids| > 0 && ids[0] == root else ids == []
    {
      if root >= |nodes| {
        NothingBelow(nodes, root);
        return [];
      }
      ids := [root];
      var next := 0;
      BreadthFirstStart(nodes, root);
      while next < |ids|
        invariant next <= |ids|
        invariant BreadthFirst(nodes, ids, next, root)
        decreases Unvisited(nodes, ids[..next])
      {
        var kids := Children(nodes, ids[next], |nodes|);
        BreadthFirstStep(graphs, nodes, ids, next, root);
        OneMoreVisited(nodes, ids, next, kids);
        ids := ids + kids;
        next := next + 1;
      }
      BreadthFirstIsAll(nodes, ids, root);
    }

    method CancelSubtree(root: NodeId) returns (ids: seq<NodeId>)
      requires Valid()
      modifies this
      ensures Valid()
      ensures forall j :: j in ids <==> Below(old(nodes), j, root)
      ensures SubtreeEnded(old(nodes), nodes, root)
      ensures OutsideSettled(old(nodes), nodes, root)
      ensures SameCeilings(old(ledger), ledger)
      ensures graphs == CancelledAtRoot(old(graphs), root)
    {
      ids := Descendants(root);
      if ids == [] {
        NothingBelow(nodes, root);
        RootsExist(graphs, nodes, ledger, root);
        return;
      }
      CancelRows(root, ids);
      MarkGraphs(root);
    }

    method CancelRows(root: NodeId, ids: seq<NodeId>)
      requires Valid() && root < |nodes| && |ids| > 0 && ids[0] == root
      requires forall j :: j in ids <==> Below(nodes, j, root)
      modifies this`nodes, this`ledger
      ensures Valid()
      ensures SubtreeEnded(old(nodes), nodes, root) && OutsideSettled(old(nodes), nodes, root)
      ensures SameCeilings(old(ledger), ledger)
    {
      ghost var before := nodes;
      ghost var pending := (set j | j in ids) + ParentSet(nodes[root]);
      PendingCovers(nodes, ids, root, pending);
      CancelEach(ids, pending);
      ghost var n1 := nodes;
      SettlingFacts(before, nodes);
      assert SameRow(before[root], nodes[root]);
      EndedAll(before, nodes, ids);
      WakeLast(nodes[root].parent, before, pending);
      SubtreeSettled(graphs, before, n1, nodes, ids, root);
    }

    method CancelEach(ids: seq<NodeId>, ghost pending: set<NodeId>)
      requires Midway(pending)
      requires ParentsCovered(nodes, ids, pending)
      modifies this`nodes, this`ledger
      ensures Midway(pending) && Settling(old(nodes), nodes) && SameCeilings(old(ledger), ledger)
      ensures CancelledSoFar(old(nodes), nodes, ids, |ids|)
    {
      for t := 0 to |ids|
        invariant Midway(pending) && Settling(old(nodes), nodes) && SameCeilings(old(ledger), ledger)
        invariant CancelledSoFar(old(nodes), nodes, ids, t)
      {
        if Open(nodes[ids[t]]) {
          SettlingFacts(old(nodes), nodes);
          assert SameRow(old(nodes)[ids[t]], nodes[ids[t]]);
          CancelOne(ids[t], pending, old(nodes), ids, t);
        }
      }
    }

    /** Cancels the active graph whose root node this is. */
    method MarkGraphs(root: NodeId)
      requires Valid()
      modifies this`graphs
      ensures Valid() && graphs == CancelledAtRoot(old(graphs), root)
    {
      var all := graphs.Keys;
      while all != {}
        invariant Valid()
        invariant graphs.Keys == old(graphs).Keys && all <= graphs.Keys
        invariant forall g :: g in graphs ==>
                    graphs[g] == if g in all then old(graphs)[g] else Verdict(old(graphs)[g], root)
      {
        var g :| g in all;
        if graphs[g].root == root && graphs[g].status == Active {
          AfterVerdict(graphs, nodes, ledger, g, GraphCancelled);
          graphs := graphs[g := graphs[g].(status := GraphCancelled)];
        }
        all := all - {g};
      }
      assert graphs == CancelledAtRoot(old(graphs), root);
    }

    method CancelOne(
      i: NodeId, ghost pending: set<NodeId>, ghost before: seq<Node>, ghost ids: seq<NodeId>, ghost t: nat)
      requires i < |nodes| && Open(nodes[i]) && Midway(pending) && ParentSet(nodes[i]) <= pending
      requires t < |ids| && ids[t] == i
      requires Settling(before, nodes) && Leased(before) && CancelledSoFar(before, nodes, ids, t)
      modifies this`nodes, this`ledger
      ensures Midway(pending) && Settling(before, nodes) && SameCeilings(old(ledger), ledger)
      ensures CancelledSoFar(before, nodes, ids, t + 1)
    {
      ghost var n0 := nodes;
      EndIsSettling(nodes, i, Cancelled);
      WakeupsAfterEnd(nodes, i, Cancelled, pending);
      DepsAfterEnd(nodes, i, Cancelled);
      EndNode(i, Cancelled);
      ghost var n1 := nodes;
      assert pending + ParentSet(n0[i]) == pending;
      BlockDependents(i, pending);
      SettlingComposes(before, n0, n1);
      SettlingComposes(before, n1, nodes);
      CancelStep(before, n0, n1, nodes, ids, t);
    }

    // -------------------------------------------------------------- leasing

    /**
     Reclaims expired leases of the graph, then leases up to the free capacity,
     deepest and oldest rows first.
     */
    method LeaseReady(g: GraphId, worker: Worker, now: int, leaseMs: int, limit: int)
      returns (r: Result<seq<NodeId>, ()>)
      requires Valid()
      modifies this`nodes
      ensures Valid()
      ensures r.Err? <==> leaseMs < 1 || limit < 1 || worker == ""
      ensures r.Err? ==> nodes == old(nodes)
      ensures r.Ok? ==>
                && LeasedExactly(ReclaimedRows(old(nodes), g, now), nodes, r.value, worker, now + leaseMs)
                && (if g in graphs && graphs[g].status == Active
                    then BestReady(ReclaimedRows(old(nodes), g, now), g, now,
                                   FreeSlots(graphs, ReclaimedRows(old(nodes), g, now), g, limit), r.value)
                    else r.value == [])
    {
      if leaseMs < 1 || limit < 1 || worker == "" {
        return Err(());
      }
      ReclaimExpired(g, now);
      if g !in graphs || graphs[g].status != Active {
        return Ok([]);
      }
      var capacity := FreeSlots(graphs, nodes, g, limit);
      var rows := PickReady(nodes, g, now, capacity);
      LeaseRows(rows, g, now, worker, now + leaseMs);
      r := Ok(rows);
    }

    method LeaseRows(rows: seq<NodeId>, g: GraphId, now: int, worker: Worker, expires: int)
      requires Valid() && g in graphs && Distinct(rows)
      requires forall x: NodeId :: x in rows ==> Eligible(nodes, g, now, x)
      requires Count(nodes, g, Running) + |rows| <= graphs[g].limits.maxConcurrency
      modifies this`nodes
      ensures Valid() && LeasedExactly(old(nodes), nodes, rows, worker, expires)
    {
      for t := 0 to |rows|
        invariant Valid() && LeasedExactly(old(nodes), nodes, rows[..t], worker, expires)
        invariant Count(nodes, g, Running) == Count(old(nodes), g, Running) + t
      {
        var i := rows[t];
        NextToLease(old(nodes), nodes, g, now, rows, t, worker, expires);
        var n := LeasedTo(nodes[i], worker, expires);
        AfterLease(graphs, nodes, ledger, i, n, g);
        nodes := nodes[i := n];
      }
      assert rows[..|rows|] == rows;
    }

    method ReclaimExpired(g: GraphId, now: int)
      requires Valid()
      modifies this`nodes
      ensures Valid() && nodes == ReclaimedRows(old(nodes), g, now)
    {
      ghost var before := nodes;
      for i := 0 to |nodes|
        invariant Valid() && |nodes| == |before|
        invariant forall j :: 0 <= j < i ==> nodes[j] == Reclaimed(before[j], g, now)
        invariant forall j :: i <= j < |nodes| ==> nodes[j] == before[j]
      {
        if Reclaimed(nodes[i], g, now) != nodes[i] {
          AfterRelabel(graphs, nodes, ledger, i, Reclaimed(nodes[i], g, now));
          nodes := nodes[i := Reclaimed(nodes[i], g, now)];
        }
      }
      assert nodes == ReclaimedRows(before, g, now);
    }
  }

  // -------------------------------------------------------------- leasing

  function ReclaimedRows(nodes: seq<Node>, g: GraphId, now: int): seq<Node> {
    seq(|nodes|, i requires 0 <= i < |nodes| => Reclaimed(nodes[i], g, now))
  }

  function FreeSlots(graphs: map<GraphId, Graph>, nodes: seq<Node>, g: GraphId, limit: int): nat
    requires g in graphs
  {
    var free := graphs[g].limits.maxConcurrency - Count(nodes, g, Running);
    Clip(if limit < free then limit else free)
  }

  /** Exactly the rows in `rows` were leased. */
  ghost predicate LeasedExactly(before: seq<Node>, after: seq<Node>, rows: seq<NodeId>, worker: Worker, expires: int) {
    && |before| == |after|
    && forall j :: 0 <= j < |before| ==>
         after[j] == if j in rows then LeasedTo(before[j], worker, expires) else before[j]
  }

  predicate Outranks(nodes: seq<Node>, y: NodeId, x: NodeId) {
    y < |nodes| && x < |nodes| && Ahead(nodes[y], nodes[x])
  }

  /** Sorted, best row first. */
  ghost predicate Ranked(nodes: seq<Node>, rows: seq<NodeId>) {
    forall a, b :: 0 <= a < b < |rows| ==> !Outranks(nodes, rows[b], rows[a])
  }

  /** No eligible row outside `rows` is ahead of one inside, and room is left only if none remains. */
  ghost predicate BestReady(nodes: seq<Node>, g: GraphId, now: int, capacity: nat, rows: seq<NodeId>) {
    && Distinct(rows) && |rows| <= capacity && Ranked(nodes, rows)
    && (forall x: NodeId :: x in rows ==> Eligible(nodes, g, now, x))
    && (|rows| < capacity ==> forall y: NodeId :: Eligible(nodes, g, now, y) ==> y in rows)
    && (forall x: NodeId, y: NodeId :: x in rows && Eligible(nodes, g, now, y) && y !in rows ==> !Outranks(nodes, y, x))
  }

  ghost predicate Picking(nodes: seq<Node>, g: GraphId, now: int, rows: seq<NodeId>, rest: seq<NodeId>) {
    && Distinct(rows) && Distinct(rest) && Ranked(nodes, rows)
    && (forall x: NodeId :: x in rows ==> x !in rest)
    && (forall y: NodeId :: Eligible(nodes, g, now, y) <==> y in rows || y in rest)
    && (forall x: NodeId, y: NodeId :: x in rows && y in rest ==> !Outranks(nodes, y, x))
  }

  function EligibleRows(nodes: seq<Node>, g: GraphId, now: int, upto: nat): (rows: seq<NodeId>)
    requires upto <= |nodes|
    ensures forall x: NodeId :: x in rows <==> x < upto && Eligible(nodes, g, now, x)
    ensures Distinct(rows)
  {
    if upto == 0 then []
    else
      var rest := EligibleRows(nodes, g, now, upto - 1);
      if Eligible(nodes, g, now, upto - 1) then rest + [upto - 1] else rest
  }

  /** The `capacity` best eligible rows, best first; fewer only when there are no more. */
  method PickReady(nodes: seq<Node>, g: GraphId, now: int, capacity: nat) returns (rows: seq<NodeId>)
    ensures BestReady(nodes, g, now, capacity, rows)
  {
    rows := [];
    var rest := EligibleRows(nodes, g, now, |nodes|);
    while |rows| < capacity && rest != []
      invariant |rows| <= capacity
      invariant Picking(nodes, g, now, rows, rest)
      decreases |rest|
    {
      var best := 0;
      for m := 1 to |rest|
        invariant best < m
        invariant forall b :: 0 <= b < m ==> !Outranks(nodes, rest[b], rest[best])
      {
        if Outranks(nodes, rest[m], rest[best]) {
          best := m;
        }
      }
      PickingStep(nodes, g, now, rows, rest, best);
      rows, rest := rows + [rest[best]], rest[..best] + rest[best + 1..];
    }
  }

  lemma {:induction false} PickingStep(
    nodes: seq<Node>, g: GraphId, now: int, rows: seq<NodeId>, rest: seq<NodeId>, best: nat)
    requires Picking(nodes, g, now, rows, rest) && best < |rest|
    requires forall b :: 0 <= b < |rest| ==> !Outranks(nodes, rest[b], rest[best])
    ensures Picking(nodes, g, now, rows + [rest[best]], rest[..best] + rest[best + 1..])
  {
    var rows' := rows + [rest[best]];
    var rest' := rest[..best] + rest[best + 1..];
    TakenOut(rest, best);
    DistinctTogether(rows, [rest[best]]);
    forall a, b | 0 <= a < b < |rows'|
      ensures !Outranks(nodes, rows'[b], rows'[a])
    {
      if b == |rows| {
        assert rows'[a] in rows && rows'[b] in rest;
      } else {
        assert rows'[a] == rows[a] && rows'[b] == rows[b];
      }
    }
    forall x: NodeId, y: NodeId | x in rows' && y in rest'
      ensures !Outranks(nodes, y, x)
    {
      if x !in rows {
        var b :| 0 <= b < |rest| && rest[b] == y;
      }
    }
  }

  lemma {:induction false} TakenOut(xs: seq<NodeId>, at: nat)
    requires Distinct(xs) && at < |xs|
    ensures Distinct(xs[..at] + xs[at + 1..])
    ensures forall y :: y in xs[..at] + xs[at + 1..] <==> y in xs && y != xs[at]
  {
    var left := xs[..at] + xs[at + 1..];
    assert forall a :: 0 <= a < |left| ==> left[a] == if a < at then xs[a] else xs[a + 1];
    forall y | y in xs && y != xs[at]
      ensures y in left
    {
      var b :| 0 <= b < |xs| && xs[b] == y;
      assert y == if b < at then left[b] else left[b - 1];
    }
  }

  lemma {:induction false} NextToLease(
    before: seq<Node>, nodes: seq<Node>, g: GraphId, now: int, rows: seq<NodeId>, t: nat, worker: Worker, expires: int)
    requires t < |rows| && Distinct(rows) && LeasedExactly(before, nodes, rows[..t], worker, expires)
    requires forall x: NodeId :: x in rows ==> Eligible(before, g, now, x)
    ensures rows[t] < |nodes| && nodes[rows[t]] == before[rows[t]] && Eligible(before, g, now, rows[t])
    ensures DepsCompleted(nodes, rows[t])
    ensures rows[..t + 1] == rows[..t] + [rows[t]]
  {
    assert rows[t] in rows && rows[t] !in rows[..t];
    forall d | d in before[rows[t]].spec.deps
      ensures nodes[d].status == Completed
    {
      assert before[d].status == Completed && !Eligible(before, g, now, d);
      assert d !in rows[..t];
    }
  }

  lemma {:induction false} AfterLease(
    graphs: map<GraphId, Graph>, nodes: seq<Node>, ledger: Ledger, i: NodeId, n: Node, g: GraphId)
    requires Consistent(graphs, nodes, ledger) && i < |nodes| && SameRow(nodes[i], n)
    requires nodes[i].status == Ready || nodes[i].status == Interrupted
    requires n.status == Running && n.lease.Lease? && n.graph == g && DepsCompleted(nodes, i)
    requires g in graphs && Count(nodes, g, Running) < graphs[g].limits.maxConcurrency
    ensures Consistent(graphs, nodes[i := n], ledger)
    ensures Count(nodes[i := n], g, Running) == Count(nodes, g, Running) + 1
  {
    var after := nodes[i := n];
    ShapedBySameRows(graphs, nodes, after);
    BalancedWhileOpen(nodes, after, ledger);
    forall j | 0 <= j < |after| && (after[j].status == Running || after[j].status == Completed || after[j].status == Failed)
      ensures DepsCompleted(after, j)
    {
      assert DepsCompleted(nodes, j);
    }
    forall j | 0 <= j < |after| && after[j].status == Waiting
      ensures HasOpenChild(after, j)
    {
      assert HasOpenChild(nodes, j);
      var c :| 0 <= c < |nodes| && nodes[c].parent == Some(j) && Open(nodes[c]);
      assert after[c].parent == Some(j) && Open(after[c]);
    }
    forall h | h in graphs
      ensures Count(after, h, Running) == Count(nodes, h, Running) + if h == g then 1 else 0
      ensures Members(after, h) == Members(nodes, h)
    {
      CountAfterUpdate(nodes, i, n, h, Running);
      MembersDependOnGraphs(nodes, after, h);
    }
  }

  // ---------------------------------------------------- ends of one node

  function Victims(nodes: seq<Node>, i: NodeId, s: NodeStatus, blocks: bool): map<NodeId, NodeStatus> {
    map j | 0 <= j < |nodes| && (j == i || (blocks && Open(nodes[j]) && i in nodes[j].spec.deps)) ::
      if j == i then s else Blocked
  }

  lemma {:induction false} VictimsOfFailure(
    graphs: map<GraphId, Graph>, before: seq<Node>, n1: seq<Node>, n2: seq<Node>, after: seq<Node>, i: NodeId)
    requires Shaped(graphs, before) && i < |before| && Open(before[i])
    requires n1 == before[i := Ended(before[i], Failed)]
    requires OnlyBlocked(n1, n2, i) && Settling(n1, n2)
    requires Settling(before, after) && NoLostWakeup(after, {})
    requires exists p :: after == Woken(n2, p)
    ensures SettledInto(before, after, Victims(before, i, Failed, true))
  {
    assert ShapedAt(graphs, before, i);
    SettlingFacts(n1, n2);
    var victims := Victims(before, i, Failed, true);
    forall j | 0 <= j < |before|
      ensures j in victims ==> after[j] == Ended(before[j], victims[j])
      ensures j !in victims && Terminal(after[j].status) ==> after[j] == before[j]
    {
      assert KeptOrBlocked(n1, n2, i, j);
    }
    SettledExactly(before, after, victims);
  }

  // -------------------------------------------------------- cancellation

  function Verdict(g: Graph, root: NodeId): Graph {
    if g.root == root && g.status == Active then g.(status := GraphCancelled) else g
  }

  function CancelledAtRoot(graphs: map<GraphId, Graph>, root: NodeId): map<GraphId, Graph> {
    map g | g in graphs :: Verdict(graphs[g], root)
  }

  /** `d` was open and this transaction cancelled it. */
  predicate CancelledNow(before: seq<Node>, after: seq<Node>, d: NodeId) {
    d < |before| && d < |after| && Open(before[d]) && after[d] == Ended(before[d], Cancelled)
  }

  /** `j` depends directly on a node this transaction cancelled. */
  predicate CutOff(before: seq<Node>, after: seq<Node>, j: NodeId) {
    j < |before| && exists d :: d in before[j].spec.deps && CancelledNow(before, after, d)
  }

  /** Every node at or below `root` is terminal; those that were open are cancelled, or blocked by a cancelled predecessor. */
  ghost predicate SubtreeEnded(before: seq<Node>, after: seq<Node>, root: NodeId) {
    && |before| == |after|
    && (forall j :: 0 <= j < |before| && Below(before, j, root) ==>
          && Terminal(after[j].status)
          && (Terminal(before[j].status) ==> after[j] == before[j])
          && (Open(before[j]) ==>
                || after[j] == Ended(before[j], Cancelled)
                || (j != root && after[j] == Ended(before[j], Blocked) && CutOff(before, after, j))))
  }

  /** Outside the subtree a row is blocked exactly when it is cut off, and woken exactly when it waits for nobody. */
  ghost predicate OutsideSettled(before: seq<Node>, after: seq<Node>, root: NodeId) {
    && |before| == |after|
    && forall j :: 0 <= j < |before| && !Below(before, j, root) ==>
         after[j] ==
           if Open(before[j]) && CutOff(before, after, j) then Ended(before[j], Blocked)
           else if before[j].status == Waiting && !HasOpenChild(after, j) then AsReady(before[j])
           else before[j]
  }

  ghost predicate CancelledSoFar(before: seq<Node>, after: seq<Node>, ids: seq<NodeId>, t: nat) {
    && |before| == |after| && t <= |ids|
    && (forall a :: 0 <= a < |ids| ==> ids[a] < |before|)
    && (forall a :: 0 <= a < t ==> Terminal(after[ids[a]].status))
    && (t > 0 && Open(before[ids[0]]) ==> after[ids[0]] == Ended(before[ids[0]], Cancelled))
    && (t == 0 ==> after == before)
    && (forall j :: 0 <= j < |before| ==> FateSoFar(before, after, ids, j))
  }

  ghost predicate FateSoFar(before: seq<Node>, after: seq<Node>, ids: seq<NodeId>, j: NodeId)
    requires j < |before| == |after|
  {
    && (Terminal(after[j].status) ==>
          || after[j] == before[j]
          || (Open(before[j])
              && ((j in ids && after[j] == Ended(before[j], Cancelled))
                  || (after[j] == Ended(before[j], Blocked) && CutOff(before, after, j)))))
    && (Open(before[j]) && CutOff(before, after, j) ==> Terminal(after[j].status))
  }

  ghost predicate ParentsCovered(nodes: seq<Node>, ids: seq<NodeId>, pending: set<NodeId>) {
    forall t :: 0 <= t < |ids| ==> ids[t] < |nodes| && ParentSet(nodes[ids[t]]) <= pending
  }

  lemma {:induction false} PendingCovers(nodes: seq<Node>, ids: seq<NodeId>, root: NodeId, pending: set<NodeId>)
    requires root < |nodes|
    requires forall j :: j in ids <==> Below(nodes, j, root)
    requires pending == (set j | j in ids) + ParentSet(nodes[root])
    ensures ParentsCovered(nodes, ids, pending)
  {
    forall t | 0 <= t < |ids|
      ensures ids[t] < |nodes| && ParentSet(nodes[ids[t]]) <= pending
    {
      assert ids[t] in ids && Below(nodes, ids[t], root);
      if ids[t] != root {
        assert Below(nodes, nodes[ids[t]].parent.value, root);
      }
    }
  }

  lemma {:induction false} EndedAll(before: seq<Node>, nodes: seq<Node>, ids: seq<NodeId>)
    requires CancelledSoFar(before, nodes, ids, |ids|)
    ensures forall x :: x in ids ==> x < |nodes| && Terminal(nodes[x].status)
  {
    forall x | x in ids
      ensures x < |nodes| && Terminal(nodes[x].status)
    {
      var a :| 0 <= a < |ids| && ids[a] == x;
    }
  }

  lemma {:induction false} CancelStep(
    before: seq<Node>, n0: seq<Node>, n1: seq<Node>, after: seq<Node>, ids: seq<NodeId>, t: nat)
    requires t < |ids| && CancelledSoFar(before, n0, ids, t)
    requires Open(n0[ids[t]]) && n1 == n0[ids[t] := Ended(n0[ids[t]], Cancelled)]
    requires Settling(before, n0) && Settling(n1, after) && Settling(before, after) && Leased(before)
    requires OnlyBlocked(n1, after, ids[t])
    ensures CancelledSoFar(before, after, ids, t + 1)
  {
    SettlingFacts(before, n0);
    SettlingFacts(n1, after);
    var i := ids[t];
    assert Moved(before, n0, i);
    assert after[i] == Ended(before[i], Cancelled);
    forall j | 0 <= j < |before|
      ensures FateSoFar(before, after, ids, j)
    {
      assert FateSoFar(before, n0, ids, j) && KeptOrBlocked(n1, after, i, j) && Moved(before, n0, j);
      assert SameRow(before[j], n0[j]);
      if Open(before[j]) && CutOff(before, after, j) {
        var d :| d in before[j].spec.deps && CancelledNow(before, after, d);
        if d != i {
          CancelledBefore(before, n0, n1, after, i, d);
          assert CutOff(before, n0, j);
        }
      }
      if CutOff(before, n0, j) {
        var d :| d in before[j].spec.deps && CancelledNow(before, n0, d);
        assert CancelledNow(before, after, d);
      }
    }
  }

  lemma {:induction false} CancelledBefore(
    before: seq<Node>, n0: seq<Node>, n1: seq<Node>, after: seq<Node>, i: NodeId, d: NodeId)
    requires i < |before| == |n0| == |after| && Settling(n1, after) && OnlyBlocked(n1, after, i)
    requires n1 == n0[i := Ended(n0[i], Cancelled)]
    requires CancelledNow(before, after, d) && d != i
    ensures CancelledNow(before, n0, d)
  {
    assert KeptOrBlocked(n1, after, i, d);
  }

  lemma {:induction false} SubtreeSettled(
    graphs: map<GraphId, Graph>, before: seq<Node>, n1: seq<Node>, after: seq<Node>, ids: seq<NodeId>, root: NodeId)
    requires Shaped(graphs, before) && root < |before| && ids != [] && ids[0] == root
    requires forall j :: j in ids <==> Below(before, j, root)
    requires CancelledSoFar(before, n1, ids, |ids|) && Settling(before, n1)
    requires Settling(before, after) && NoLostWakeup(after, {}) && after == Woken(n1, before[root].parent)
    ensures SubtreeEnded(before, after, root) && OutsideSettled(before, after, root)
  {
    SettlingFacts(before, n1);
    assert forall j :: 0 <= j < |before| && Terminal(n1[j].status) ==> after[j] == n1[j];
    assert forall j :: 0 <= j < |before| && Terminal(after[j].status) ==> after[j] == n1[j];
    assert forall d :: CancelledNow(before, n1, d) <==> CancelledNow(before, after, d);
    forall j | 0 <= j < |before|
      ensures FateSoFar(before, after, ids, j)
      ensures j in ids ==> Terminal(after[j].status)
    {
      assert FateSoFar(before, n1, ids, j);
      assert CutOff(before, n1, j) == CutOff(before, after, j);
    }
    forall j | 0 <= j < |before| && !Below(before, j, root)
      ensures after[j] ==
              if Open(before[j]) && CutOff(before, after, j) then Ended(before[j], Blocked)
              else if before[j].status == Waiting && !HasOpenChild(after, j) then AsReady(before[j])
              else before[j]
    {
      assert FateSoFar(before, after, ids, j) && Moved(before, after, j) && j !in ids;
    }
  }

  lemma {:induction false} NothingBelow(nodes: seq<Node>, root: NodeId)
    requires root >= |nodes|
    ensures forall j :: !Below(nodes, j, root)
    ensures SubtreeEnded(nodes, nodes, root)
    ensures NoLostWakeup(nodes, {}) ==> OutsideSettled(nodes, nodes, root)
  {
    forall j | Below(nodes, j, root)
      ensures false
    {
      BelowIsYounger(nodes, j, root);
    }
  }

  lemma {:induction false} RootsExist(graphs: map<GraphId, Graph>, nodes: seq<Node>, ledger: Ledger, root: NodeId)
    requires Consistent(graphs, nodes, ledger) && root >= |nodes|
    ensures graphs == CancelledAtRoot(graphs, root)
  {
  }

  /** A queue whose first `next` rows have had their children appended. */
  ghost predicate BreadthFirst(nodes: seq<Node>, ids: seq<NodeId>, next: nat, root: NodeId) {
    && Distinct(ids) && next <= |ids| && |ids| > 0 && ids[0] == root
    && (forall a :: 0 <= a < |ids| ==> Below(nodes, ids[a], root))
    && ParentsSeen(nodes, ids, next)
    && ChildrenSeen(nodes, ids, next)
  }

  ghost predicate ParentsSeen(nodes: seq<Node>, ids: seq<NodeId>, next: nat) {
    forall a :: 0 < a < |ids| ==> ids[a] < |nodes| && ParentWithin(nodes[ids[a]], ids, next)
  }

  ghost predicate ParentWithin(n: Node, ids: seq<NodeId>, next: nat) {
    n.parent.Some? && exists b :: 0 <= b < next && b < |ids| && ids[b] == n.parent.value
  }

  ghost predicate ChildrenSeen(nodes: seq<Node>, ids: seq<NodeId>, next: nat) {
    forall c :: 0 <= c < |nodes| && ParentWithin(nodes[c], ids, next) ==> c in ids
  }

  ghost function Unvisited(nodes: seq<Node>, visited: seq<NodeId>): set<NodeId> {
    set j: NodeId | j < |nodes| && j !in visited
  }

  lemma {:induction false} BreadthFirstStart(nodes: seq<Node>, root: NodeId)
    requires root < |nodes|
    ensures BreadthFirst(nodes, [root], 0, root)
  {
  }

  lemma {:induction false} KidsAreNew(
    graphs: map<GraphId, Graph>, nodes: seq<Node>, ids: seq<NodeId>, next: nat, root: NodeId, x: NodeId)
    requires Shaped(graphs, nodes) && next < |ids| && BreadthFirst(nodes, ids, next, root)
    requires x < |nodes| && nodes[x].parent == Some(ids[next])
    ensures Below(nodes, x, root) && x !in ids
  {
    assert ShapedAt(graphs, nodes, x);
    BelowIsYounger(nodes, ids[next], root);
    forall a | 0 <= a < |ids|
      ensures ids[a] != x
    {
      if a > 0 {
        assert ParentWithin(nodes[ids[a]], ids, next);
      }
    }
  }

  lemma {:induction false} DistinctTogether(a: seq<NodeId>, b: seq<NodeId>)
    requires Distinct(a) && Distinct(b) && forall x :: x in b ==> x !in a
    ensures Distinct(a + b)
  {
    forall i, j | 0 <= i < j < |a + b|
      ensures (a + b)[i] != (a + b)[j]
    {
      if i < |a| <= j {
        assert b[j - |a|] in b && a[i] in a;
      }
    }
  }

  lemma {:induction false} ParentsSeenStep(nodes: seq<Node>, ids: seq<NodeId>, next: nat, kids: seq<NodeId>)
    requires next < |ids| && ParentsSeen(nodes, ids, next)
    requires forall x :: x in kids ==> x < |nodes| && nodes[x].parent == Some(ids[next])
    ensures ParentsSeen(nodes, ids + kids, next + 1)
  {
    var grown := ids + kids;
    forall a | 0 < a < |grown|
      ensures grown[a] < |nodes| && ParentWithin(nodes[grown[a]], grown, next + 1)
    {
      if a < |ids| {
        assert ParentWithin(nodes[ids[a]], ids, next);
        var b :| 0 <= b < next && b < |ids| && ids[b] == nodes[ids[a]].parent.value;
        assert grown[b] == ids[b];
      } else {
        assert grown[a] in kids && grown[next] == ids[next];
      }
    }
  }

  lemma {:induction false} ChildrenSeenStep(nodes: seq<Node>, ids: seq<NodeId>, next: nat, kids: seq<NodeId>)
    requires next < |ids| && ChildrenSeen(nodes, ids, next)
    requires kids == Children(nodes, ids[next], |nodes|)
    ensures ChildrenSeen(nodes, ids + kids, next + 1)
  {
    var grown := ids + kids;
    forall c | 0 <= c < |nodes| && ParentWithin(nodes[c], grown, next + 1)
      ensures c in grown
    {
      var b :| 0 <= b < next + 1 && b < |grown| && grown[b] == nodes[c].parent.value;
      if b == next {
        assert c in kids;
      } else {
        assert ids[b] == grown[b] && ParentWithin(nodes[c], ids, next) && c in ids;
      }
    }
  }

  lemma {:induction false} BreadthFirstStep(
    graphs: map<GraphId, Graph>, nodes: seq<Node>, ids: seq<NodeId>, next: nat, root: NodeId)
    requires Shaped(graphs, nodes) && next < |ids| && BreadthFirst(nodes, ids, next, root)
    ensures BreadthFirst(nodes, ids + Children(nodes, ids[next], |nodes|), next + 1, root)
  {
    var kids := Children(nodes, ids[next], |nodes|);
    var grown := ids + kids;
    forall x | x in kids
      ensures Below(nodes, x, root) && x !in ids
    {
      KidsAreNew(graphs, nodes, ids, next, root, x);
    }
    DistinctTogether(ids, kids);
    ParentsSeenStep(nodes, ids, next, kids);
    ChildrenSeenStep(nodes, ids, next, kids);
    forall a | 0 <= a < |grown|
      ensures Below(nodes, grown[a], root)
    {
      if a >= |ids| {
        assert grown[a] in kids;
      }
    }
  }

  lemma {:induction false} OneMoreVisited(nodes: seq<Node>, ids: seq<NodeId>, next: nat, kids: seq<NodeId>)
    requires next < |ids| && ids[next] < |nodes| && Distinct(ids)
    ensures Unvisited(nodes, (ids + kids)[..next + 1]) < Unvisited(nodes, ids[..next])
  {
    assert (ids + kids)[..next + 1] == ids[..next] + [ids[next]];
    assert ids[next] in Unvisited(nodes, ids[..next]);
  }

  lemma {:induction false} BreadthFirstIsAll(nodes: seq<Node>, ids: seq<NodeId>, root: NodeId)
    requires BreadthFirst(nodes, ids, |ids|, root)
    ensures forall j :: j in ids <==> Below(nodes, j, root)
  {
    forall j | Below(nodes, j, root)
      ensures j in ids
    {
      var found := set x | x in ids;
      forall c | 0 <= c < |nodes| && nodes[c].parent.Some? && nodes[c].parent.value in found
        ensures c in found
      {
        var a :| 0 <= a < |ids| && ids[a] == nodes[c].parent.value;
        assert ParentWithin(nodes[c], ids, |ids|);
      }
      ClosedSetHoldsDescendants(nodes, found, root, j);
    }
  }

  /** Of all rows only `i` became terminal, with status `s`. */
  ghost predicate OnlyEnded(before: seq<Node>, after: seq<Node>, i: NodeId, s: NodeStatus) {
    && i < |before| == |after|
    && after[i] == Ended(before[i], s)
    && forall j :: 0 <= j < |after| && j != i && Terminal(after[j].status) ==> after[j] == before[j]
  }

  /** The rows that became terminal are the open dependents of `d`, all blocked. */
  ghost predicate OnlyBlocked(before: seq<Node>, after: seq<Node>, d: NodeId) {
    && |before| == |after|
    && (forall j :: 0 <= j < |before| && Open(before[j]) && d in before[j].spec.deps
          ==> after[j] == Ended(before[j], Blocked))
    && (forall j :: 0 <= j < |before| ==> KeptOrBlocked(before, after, d, j))
  }

  ghost predicate BlockedSoFar(before: seq<Node>, after: seq<Node>, d: NodeId, rows: seq<NodeId>, t: nat) {
    && |before| == |after| && t <= |rows|
    && (forall a :: 0 <= a < |rows| ==> rows[a] < |before| && Open(before[rows[a]]) && d in before[rows[a]].spec.deps)
    && (forall a, b :: 0 <= a < b < |rows| ==> rows[a] < rows[b])
    && (forall a :: 0 <= a < |rows| ==> (a < t <==> Terminal(after[rows[a]].status)))
    && (forall j :: 0 <= j < |before| ==> KeptOrBlocked(before, after, d, j))
  }

  lemma {:induction false} BlockedStep(
    before: seq<Node>, middle: seq<Node>, after: seq<Node>, d: NodeId, rows: seq<NodeId>, t: nat)
    requires t < |rows| && BlockedSoFar(before, middle, d, rows, t)
    requires Settling(before, middle) && Settling(middle, after) && Leased(before)
    requires OnlyEnded(middle, after, rows[t], Blocked)
    ensures BlockedSoFar(before, after, d, rows, t + 1)
  {
    SettlingFacts(middle, after);
    forall a | 0 <= a < |rows|
      ensures a < t + 1 <==> Terminal(after[rows[a]].status)
    {
      if a < t {
        assert rows[a] < rows[t];
      } else if t < a {
        assert rows[t] < rows[a];
      }
    }
    forall j | 0 <= j < |before|
      ensures KeptOrBlocked(before, after, d, j)
    {
      assert KeptOrBlocked(before, middle, d, j) && Moved(before, middle, j);
    }
  }

  lemma {:induction false} BlockedAll(before: seq<Node>, after: seq<Node>, d: NodeId, rows: seq<NodeId>)
    requires BlockedSoFar(before, after, d, rows, |rows|)
    requires rows == Dependents(before, d, |before|)
    ensures OnlyBlocked(before, after, d)
  {
    forall j | 0 <= j < |before| && Open(before[j]) && d in before[j].spec.deps
      ensures after[j] == Ended(before[j], Blocked)
    {
      assert j in rows && KeptOrBlocked(before, after, d, j);
    }
  }

  lemma {:induction false} DepsAfterWake(nodes: seq<Node>, p: Option<NodeId>)
    requires DepsRespected(nodes)
    ensures DepsRespected(Woken(nodes, p))
  {
    var after := Woken(nodes, p);
    forall j | 0 <= j < |after|
      && (after[j].status == Running || after[j].status == Completed || after[j].status == Failed)
      ensures DepsCompleted(after, j)
    {
      assert DepsCompleted(nodes, j);
    }
  }

  lemma {:induction false} AfterRoot(
    graphs: map<GraphId, Graph>, nodes: seq<Node>, ledger: Ledger, g: GraphId, run: string, limits: Limits, root: Node)
    requires Consistent(graphs, nodes, ledger) && g !in graphs
    requires limits.maxDepth >= 1 && limits.maxNodes >= 1
    requires root.graph == g && root.parent == None && root.depth == 1 && root.spec.deps == []
    requires root.status == Ready && root.lease == NoLease
    ensures Consistent(
              graphs[g := Graph(run, |nodes|, Active, limits)], nodes + [root], ledger + [Opened(root.spec.budgets)])
  {
    AfterAppend(graphs, graphs[g := Graph(run, |nodes|, Active, limits)], nodes, root);
    forall j | 0 <= j < |nodes|
      ensures nodes[j].graph != g
    {
      assert ShapedAt(graphs, nodes, j);
    }
    NoMembers(nodes, g);
    var after := nodes + [root];
    var ledger' := ledger + [Opened(root.spec.budgets)];
    forall j | 0 <= j < |after|
      ensures BalancedAt(after, ledger', j)
    {
      forall k | k in ledger'[j]
        ensures ledger'[j][k].reserved == OpenChildBudget(after, j, k)
      {
        SumAfterAppend(nodes, root, j, k);
        if j < |nodes| {
          assert BalancedAt(nodes, ledger, j);
        } else {
          forall c | 0 <= c < |nodes|
            ensures Share(nodes[c], j, k) == 0
          {
            assert ShapedAt(graphs, nodes, c);
          }
          SumOfNone(nodes, j, k);
        }
      }
      if j < |nodes| {
        assert BalancedAt(nodes, ledger, j);
      }
    }
    forall h | h in graphs || h == g
      ensures Count(after, h, Running) == Count(nodes, h, Running)
      ensures Members(after, h) == Members(nodes, h) + if h == g then 1 else 0
    {
      assert after[..|nodes|] == nodes;
    }
  }

  lemma {:induction false} NoMembers(nodes: seq<Node>, g: GraphId)
    requires forall j :: 0 <= j < |nodes| ==> nodes[j].graph != g
    ensures Members(nodes, g) == 0 && Count(nodes, g, Running) == 0
  {
    if nodes != [] {
      NoMembers(nodes[..|nodes| - 1], g);
    }
  }

  /** Everything but sums and counts, when one row is appended. */
  lemma {:induction false} AfterAppend(
    graphs: map<GraphId, Graph>, graphs': map<GraphId, Graph>, nodes: seq<Node>, n: Node)
    requires Shaped(graphs, nodes) && DepsRespected(nodes) && NoLostWakeup(nodes, {}) && Leased(nodes)
    requires forall h :: h in graphs ==> h in graphs' && graphs'[h].limits == graphs[h].limits
    requires n.graph in graphs' && n.depth <= graphs'[n.graph].limits.maxDepth
    requires n.parent.None? ==> n.depth == 1
    requires n.parent.Some? ==>
               && n.parent.value < |nodes| && nodes[n.parent.value].graph == n.graph
               && n.depth == nodes[n.parent.value].depth + 1
               && n.spec.budgets.Keys <= nodes[n.parent.value].spec.budgets.Keys
    requires forall d :: d in n.spec.deps ==> d < |nodes| && nodes[d].graph == n.graph
    requires (n.status == Ready || n.status == Created) && n.lease == NoLease
    ensures Shaped(graphs', nodes + [n]) && DepsRespected(nodes + [n])
    ensures NoLostWakeup(nodes + [n], {}) && Leased(nodes + [n])
  {
    var after := nodes + [n];
    forall j | 0 <= j < |after|
      ensures ShapedAt(graphs', after, j)
    {
      if j < |nodes| {
        assert ShapedAt(graphs, nodes, j);
      }
    }
    forall j | 0 <= j < |after| && (after[j].status == Running || after[j].status == Completed || after[j].status == Failed)
      ensures DepsCompleted(after, j)
    {
      assert DepsCompleted(nodes, j) && ShapedAt(graphs, nodes, j);
    }
    forall j | 0 <= j < |after| && after[j].status == Waiting
      ensures HasOpenChild(after, j)
    {
      assert HasOpenChild(nodes, j);
      var c :| 0 <= c < |nodes| && nodes[c].parent == Some(j) && Open(nodes[c]);
      assert after[c] == nodes[c];
    }
  }

  /** A parked parent has the new child to wait for, and nobody else's edges change. */
  lemma {:induction false} ChildKeepsOrder(
    graphs: map<GraphId, Graph>, nodes: seq<Node>, ledger: Ledger, p: NodeId, child: Node)
    requires Consistent(graphs, nodes, ledger) && p < |nodes| && child.parent == Some(p)
    requires child.status == Ready || child.status == Created
    ensures DepsRespected(Parked(nodes, p) + [child]) && NoLostWakeup(Parked(nodes, p) + [child], {})
  {
    var after := Parked(nodes, p) + [child];
    forall j | 0 <= j < |after| && (after[j].status == Running || after[j].status == Completed || after[j].status == Failed)
      ensures DepsCompleted(after, j)
    {
      assert DepsCompleted(nodes, j) && ShapedAt(graphs, nodes, j);
    }
    forall j | 0 <= j < |after| && after[j].status == Waiting
      ensures HasOpenChild(after, j)
    {
      if j == p {
        assert after[|nodes|].parent == Some(p) && Open(after[|nodes|]);
      } else {
        assert HasOpenChild(nodes, j);
        var c :| 0 <= c < |nodes| && nodes[c].parent == Some(j) && Open(nodes[c]);
        assert after[c].parent == Some(j) && Open(after[c]);
      }
    }
  }

  lemma {:induction false} AfterChild(
    graphs: map<GraphId, Graph>, nodes: seq<Node>, ledger: Ledger, g: GraphId, p: NodeId, child: Node)
    requires Consistent(graphs, nodes, ledger)
    requires SpawnRefusal(graphs, nodes, ledger, g, p, child.spec) == None
    requires child.graph == g && child.parent == Some(p) && child.depth == nodes[p].depth + 1
    requires (child.status == Ready || child.status == Created) && child.lease == NoLease
    ensures Consistent(
              graphs, Parked(nodes, p) + [child],
              ledger[p := Reserved(ledger[p], child.spec.budgets)] + [Opened(child.spec.budgets)])
  {
    var parked := Parked(nodes, p);
    var after := parked + [child];
    BalancedAfterSpawn(graphs, nodes, ledger, p, child);
    ChildKeepsOrder(graphs, nodes, ledger, p, child);
    ShapedBySameRows(graphs, nodes, parked);
    assert BalancedAt(nodes, ledger, p);
    forall j | 0 <= j < |after|
      ensures ShapedAt(graphs, after, j)
    {
      if j < |nodes| {
        assert ShapedAt(graphs, parked, j);
      }
    }
    forall h | h in graphs
      ensures Count(after, h, Running) == Count(nodes, h, Running)
      ensures Members(after, h) == Members(nodes, h) + if h == g then 1 else 0
    {
      assert after[..|nodes|] == parked;
      MembersDependOnGraphs(nodes, parked, h);
      CountAfterUpdate(nodes, p, parked[p], h, Running);
      assert parked == nodes[p := parked[p]];
    }
  }

  /** One open row changes its label to another open one that neither waits nor runs. */
  lemma {:induction false} AfterRelabel(
    graphs: map<GraphId, Graph>, nodes: seq<Node>, ledger: Ledger, i: NodeId, n: Node)
    requires Consistent(graphs, nodes, ledger) && i < |nodes|
    requires SameRow(nodes[i], n) && Open(nodes[i]) && (n.status == Ready || n.status == Interrupted)
    requires n.lease == NoLease
    ensures Consistent(graphs, nodes[i := n], ledger)
  {
    var after := nodes[i := n];
    ShapedBySameRows(graphs, nodes, after);
    BalancedWhileOpen(nodes, after, ledger);
    forall j | 0 <= j < |after| && (after[j].status == Running || after[j].status == Completed || after[j].status == Failed)
      ensures DepsCompleted(after, j)
    {
      assert DepsCompleted(nodes, j);
    }
    forall j | 0 <= j < |after| && after[j].status == Waiting
      ensures HasOpenChild(after, j)
    {
      assert HasOpenChild(nodes, j);
      var c :| 0 <= c < |nodes| && nodes[c].parent == Some(j) && Open(nodes[c]);
      assert after[c].parent == Some(j) && Open(after[c]);
    }
    forall h | h in graphs
      ensures Count(after, h, Running) <= Count(nodes, h, Running)
      ensures Members(after, h) == Members(nodes, h)
    {
      CountAfterUpdate(nodes, i, n, h, Running);
      MembersDependOnGraphs(nodes, after, h);
    }
  }

  lemma {:induction false} AfterVerdict(
    graphs: map<GraphId, Graph>, nodes: seq<Node>, ledger: Ledger, g: GraphId, status: GraphStatus)
    requires Consistent(graphs, nodes, ledger) && g in graphs
    ensures Consistent(graphs[g := graphs[g].(status := status)], nodes, ledger)
  {
    var graphs' := graphs[g := graphs[g].(status := status)];
    forall j | 0 <= j < |nodes|
      ensures ShapedAt(graphs', nodes, j)
    {
      assert ShapedAt(graphs, nodes, j);
    }
  }
}

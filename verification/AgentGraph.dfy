/**
 The rows behind one store of Agent graphs, the invariants they keep, and the
 facts about sums over children and reachability through parents.

 Rows are kept in insertion order, so a node's identity is its row number and
 "older" is "smaller". The textual order of the random identifiers, which only
 breaks ties when leasing, is the separate field `uuid`.
 */
module AgentGraph {
  import opened Outcomes

  type NodeId = nat
  type GraphId = nat
  type Kind = string
  type Worker = string

  datatype NodeStatus =
    | Created | Ready | Running | Waiting | Interrupted | Cancelling
    | Completed | Blocked | Failed | Cancelled

  datatype GraphStatus = Active | GraphCompleted | GraphBlocked | GraphFailed | GraphCancelled

  datatype Lease = NoLease | Lease(owner: Worker, expires: int)

  datatype Limits = Limits(maxDepth: nat, maxNodes: nat, maxConcurrency: nat)

  /** A graph and the run it was created for. */
  datatype Graph = Graph(run: string, root: NodeId, status: GraphStatus, limits: Limits)

  /** What a caller asks for when it creates a node. */
  datatype Spec = Spec(name: string, budgets: map<Kind, nat>, deps: seq<NodeId>, deadline: Option<int>)

  datatype Node = Node(
    graph: GraphId, parent: Option<NodeId>, spec: Spec, depth: nat,
    createdAt: int, uuid: int, status: NodeStatus, lease: Lease, attempts: nat)

  /** One row of the budget ledger. */
  datatype Account = Account(maximum: nat, reserved: nat, consumed: nat)

  type Ledger = seq<map<Kind, Account>>

  predicate Terminal(s: NodeStatus) {
    s == Completed || s == Blocked || s == Failed || s == Cancelled
  }

  predicate Open(n: Node) {
    !Terminal(n.status)
  }

  function Ended(n: Node, s: NodeStatus): Node {
    n.(status := s, lease := NoLease)
  }

  function AsReady(n: Node): Node {
    n.(status := Ready)
  }

  predicate HasOpenChild(nodes: seq<Node>, p: NodeId) {
    exists c :: 0 <= c < |nodes| && nodes[c].parent == Some(p) && Open(nodes[c])
  }

  // ---------------------------------------------------------------- sums

  /** What node `n` holds of its parent's budget while it is open. */
  function Share(n: Node, p: NodeId, k: Kind): nat {
    if n.parent == Some(p) && Open(n) && k in n.spec.budgets then n.spec.budgets[k] else 0
  }

  /** The total budget of kind `k` held by the open children of `p`. */
  function OpenChildBudget(nodes: seq<Node>, p: NodeId, k: Kind): nat {
    if nodes == [] then 0
    else OpenChildBudget(nodes[..|nodes| - 1], p, k) + Share(nodes[|nodes| - 1], p, k)
  }

  function Count(nodes: seq<Node>, g: GraphId, s: NodeStatus): nat {
    if nodes == [] then 0
    else
      Count(nodes[..|nodes| - 1], g, s)
      + if nodes[|nodes| - 1].graph == g && nodes[|nodes| - 1].status == s then 1 else 0
  }

  function Members(nodes: seq<Node>, g: GraphId): nat {
    if nodes == [] then 0
    else Members(nodes[..|nodes| - 1], g) + if nodes[|nodes| - 1].graph == g then 1 else 0
  }

  lemma {:induction false} SumAfterUpdate(nodes: seq<Node>, i: NodeId, n: Node, p: NodeId, k: Kind)
    requires i < |nodes|
    ensures OpenChildBudget(nodes[i := n], p, k)
         == OpenChildBudget(nodes, p, k) - Share(nodes[i], p, k) + Share(n, p, k)
    ensures Share(nodes[i], p, k) <= OpenChildBudget(nodes, p, k)
  {
    var last := |nodes| - 1;
    if i == last {
      assert nodes[i := n][..last] == nodes[..last];
    } else {
      SumAfterUpdate(nodes[..last], i, n, p, k);
      assert nodes[i := n][..last] == nodes[..last][i := n];
    }
  }

  lemma {:induction false} SumAfterAppend(nodes: seq<Node>, n: Node, p: NodeId, k: Kind)
    ensures OpenChildBudget(nodes + [n], p, k) == OpenChildBudget(nodes, p, k) + Share(n, p, k)
  {
    assert (nodes + [n])[..|nodes|] == nodes;
  }

  lemma {:induction false} SumOfNone(nodes: seq<Node>, p: NodeId, k: Kind)
    requires forall c :: 0 <= c < |nodes| ==> Share(nodes[c], p, k) == 0
    ensures OpenChildBudget(nodes, p, k) == 0
  {
    if nodes != [] {
      SumOfNone(nodes[..|nodes| - 1], p, k);
    }
  }

  lemma {:induction false} SumDependsOnShares(a: seq<Node>, b: seq<Node>, p: NodeId, k: Kind)
    requires |a| == |b|
    requires forall c :: 0 <= c < |a| ==> Share(a[c], p, k) == Share(b[c], p, k)
    ensures OpenChildBudget(a, p, k) == OpenChildBudget(b, p, k)
  {
    if a != [] {
      var last := |a| - 1;
      forall c | 0 <= c < last
        ensures Share(a[..last][c], p, k) == Share(b[..last][c], p, k)
      {
        assert a[..last][c] == a[c] && b[..last][c] == b[c];
      }
      SumDependsOnShares(a[..last], b[..last], p, k);
    }
  }

  lemma {:induction false} CountAfterUpdate(nodes: seq<Node>, i: NodeId, n: Node, g: GraphId, s: NodeStatus)
    requires i < |nodes|
    ensures Count(nodes[i := n], g, s)
         == Count(nodes, g, s)
            - (if nodes[i].graph == g && nodes[i].status == s then 1 else 0)
            + (if n.graph == g && n.status == s then 1 else 0)
  {
    var last := |nodes| - 1;
    if i == last {
      assert nodes[i := n][..last] == nodes[..last];
    } else {
      CountAfterUpdate(nodes[..last], i, n, g, s);
      assert nodes[i := n][..last] == nodes[..last][i := n];
    }
  }

  lemma {:induction false} CountOnlyShrinks(a: seq<Node>, b: seq<Node>, g: GraphId, s: NodeStatus)
    requires |a| == |b|
    requires forall c :: 0 <= c < |a| && b[c].graph == g && b[c].status == s
               ==> a[c].graph == g && a[c].status == s
    ensures Count(b, g, s) <= Count(a, g, s)
  {
    if a != [] {
      var last := |a| - 1;
      forall c | 0 <= c < last && b[..last][c].graph == g && b[..last][c].status == s
        ensures a[..last][c].graph == g && a[..last][c].status == s
      {
        assert a[..last][c] == a[c] && b[..last][c] == b[c];
      }
      CountOnlyShrinks(a[..last], b[..last], g, s);
    }
  }

  lemma {:induction false} MembersDependOnGraphs(a: seq<Node>, b: seq<Node>, g: GraphId)
    requires |a| == |b|
    requires forall c :: 0 <= c < |a| ==> a[c].graph == b[c].graph
    ensures Members(a, g) == Members(b, g)
  {
    if a != [] {
      var last := |a| - 1;
      forall c | 0 <= c < last
        ensures a[..last][c].graph == b[..last][c].graph
      {
        assert a[..last][c] == a[c] && b[..last][c] == b[c];
      }
      MembersDependOnGraphs(a[..last], b[..last], g);
    }
  }

  // ---------------------------------------------------------- invariants

  /** Parents and predecessors are older rows of the same graph; a child asks only for kinds its parent has. */
  ghost predicate Shaped(graphs: map<GraphId, Graph>, nodes: seq<Node>) {
    forall i :: 0 <= i < |nodes| ==> ShapedAt(graphs, nodes, i)
  }

  ghost predicate ShapedAt(graphs: map<GraphId, Graph>, nodes: seq<Node>, i: NodeId)
    requires i < |nodes|
  {
    var n := nodes[i];
    && n.graph in graphs
    && n.depth <= graphs[n.graph].limits.maxDepth
    && (n.parent.None? ==> n.depth == 1)
    && (n.parent.Some? ==>
          var p := n.parent.value;
          && p < i && nodes[p].graph == n.graph && n.depth == nodes[p].depth + 1
          && n.spec.budgets.Keys <= nodes[p].spec.budgets.Keys)
    && (forall d :: d in n.spec.deps ==> d < i && nodes[d].graph == n.graph)
  }

  /** Only finished predecessors stand behind a node that runs or has run to an end. */
  ghost predicate DepsRespected(nodes: seq<Node>) {
    forall i :: 0 <= i < |nodes|
      && (nodes[i].status == Running || nodes[i].status == Completed || nodes[i].status == Failed)
      ==> DepsCompleted(nodes, i)
  }

  predicate DepsCompleted(nodes: seq<Node>, i: NodeId)
    requires i < |nodes|
  {
    forall d :: d in nodes[i].spec.deps ==> d < |nodes| && nodes[d].status == Completed
  }

  /** Every waiting node outside `pending` waits for a child that is still open. */
  ghost predicate NoLostWakeup(nodes: seq<Node>, pending: set<NodeId>) {
    forall i :: 0 <= i < |nodes| && i !in pending && nodes[i].status == Waiting ==> HasOpenChild(nodes, i)
  }

  ghost predicate Leased(nodes: seq<Node>) {
    forall i :: 0 <= i < |nodes| ==> (nodes[i].status == Running <==> nodes[i].lease.Lease?)
  }

  /** Each account reserves exactly what the open children hold, and never more than it has. */
  ghost predicate Balanced(nodes: seq<Node>, ledger: Ledger) {
    && |ledger| == |nodes|
    && forall i :: 0 <= i < |nodes| ==> BalancedAt(nodes, ledger, i)
  }

  ghost predicate BalancedAt(nodes: seq<Node>, ledger: Ledger, i: NodeId)
    requires i < |nodes| == |ledger|
  {
    && ledger[i].Keys == nodes[i].spec.budgets.Keys
    && forall k :: k in ledger[i] ==>
         && ledger[i][k].maximum == nodes[i].spec.budgets[k]
         && ledger[i][k].reserved == OpenChildBudget(nodes, i, k)
         && ledger[i][k].reserved + ledger[i][k].consumed <= ledger[i][k].maximum
  }

  ghost predicate WithinLimits(graphs: map<GraphId, Graph>, nodes: seq<Node>) {
    forall g :: g in graphs ==>
      && Count(nodes, g, Running) <= graphs[g].limits.maxConcurrency
      && Members(nodes, g) <= graphs[g].limits.maxNodes
      && graphs[g].root < |nodes|
  }

  /** What every reachable state of the store satisfies. */
  ghost predicate Consistent(graphs: map<GraphId, Graph>, nodes: seq<Node>, ledger: Ledger) {
    && Shaped(graphs, nodes)
    && DepsRespected(nodes)
    && NoLostWakeup(nodes, {})
    && Leased(nodes)
    && Balanced(nodes, ledger)
    && WithinLimits(graphs, nodes)
  }

  // -------------------------------------------------------- reachability

  /** `j` is `root` or has `root` among its ancestors. */
  predicate Below(nodes: seq<Node>, j: NodeId, root: NodeId)
    decreases j
  {
    && j < |nodes|
    && (j == root
        || (nodes[j].parent.Some? && nodes[j].parent.value < j && Below(nodes, nodes[j].parent.value, root)))
  }

  lemma {:induction false} BelowIsYounger(nodes: seq<Node>, j: NodeId, root: NodeId)
    requires Below(nodes, j, root)
    ensures root <= j
    decreases j
  {
    if j != root {
      BelowIsYounger(nodes, nodes[j].parent.value, root);
    }
  }

  lemma {:induction false} BelowDependsOnParents(a: seq<Node>, b: seq<Node>, j: NodeId, root: NodeId)
    requires |a| == |b|
    requires forall c :: 0 <= c < |a| ==> a[c].parent == b[c].parent
    ensures Below(a, j, root) == Below(b, j, root)
    decreases j
  {
    if j < |a| && j != root && a[j].parent.Some? && a[j].parent.value < j {
      BelowDependsOnParents(a, b, a[j].parent.value, root);
    }
  }

  /** A set that holds the root and the children of each of its members holds every descendant. */
  lemma {:induction false} ClosedSetHoldsDescendants(nodes: seq<Node>, found: set<NodeId>, root: NodeId, j: NodeId)
    requires root in found
    requires forall c :: 0 <= c < |nodes| && nodes[c].parent.Some? && nodes[c].parent.value in found ==> c in found
    requires Below(nodes, j, root)
    ensures j in found
    decreases j
  {
    if j != root {
      ClosedSetHoldsDescendants(nodes, found, root, nodes[j].parent.value);
    }
  }
}

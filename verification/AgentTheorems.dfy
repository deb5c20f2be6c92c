/** What the invariants of the graph store mean for whole trees and whole chains of dependencies. */
module AgentTheorems {
  import opened Outcomes
  import opened AgentGraph

  function Budget(n: Node, k: Kind): nat {
    if k in n.spec.budgets then n.spec.budgets[k] else 0
  }

  /** The nodes `d` steps below `root` that are reached through open nodes only. */
  function Level(nodes: seq<Node>, root: NodeId, d: nat): set<NodeId> {
    if d == 0 then {root}
    else OpenChildrenOf(nodes, Level(nodes, root, d - 1))
  }

  function OpenChildrenOf(nodes: seq<Node>, parents: set<NodeId>): set<NodeId> {
    set c: NodeId | c < |nodes| && Open(nodes[c]) && nodes[c].parent.Some? && nodes[c].parent.value in parents
  }

  /** The budgets of the rows of `level` among the first `m` rows. */
  function Held(nodes: seq<Node>, level: set<NodeId>, k: Kind, m: nat): nat
    requires m <= |nodes|
  {
    if m == 0 then 0
    else Held(nodes, level, k, m - 1) + if m - 1 in level then Budget(nodes[m - 1], k) else 0
  }

  /** What the open children of those rows hold. */
  function HeldByChildren(nodes: seq<Node>, level: set<NodeId>, k: Kind, m: nat): nat {
    if m == 0 then 0
    else HeldByChildren(nodes, level, k, m - 1) + if m - 1 in level then OpenChildBudget(nodes, m - 1, k) else 0
  }

  lemma {:induction false} ChildrenOfNobody(level: set<NodeId>, k: Kind, m: nat)
    ensures HeldByChildren([], level, k, m) == 0
  {
    if m > 0 {
      ChildrenOfNobody(level, k, m - 1);
    }
  }

  lemma {:induction false} OneMoreChild(nodes: seq<Node>, n: Node, level: set<NodeId>, k: Kind, m: nat)
    ensures HeldByChildren(nodes + [n], level, k, m)
         == HeldByChildren(nodes, level, k, m)
            + if n.parent.Some? && n.parent.value < m && n.parent.value in level then Share(n, n.parent.value, k) else 0
  {
    if m > 0 {
      OneMoreChild(nodes, n, level, k, m - 1);
      SumAfterAppend(nodes, n, m - 1, k);
    }
  }

  /** Summing over the children directly, or parent by parent, gives the same. */
  lemma {:induction false} SumByParents(nodes: seq<Node>, level: set<NodeId>, k: Kind, n: nat)
    requires n <= |nodes|
    requires forall p :: p in level ==> p < |nodes|
    ensures Held(nodes, OpenChildrenOf(nodes, level), k, n) == HeldByChildren(nodes[..n], level, k, |nodes|)
  {
    if n == 0 {
      ChildrenOfNobody(level, k, |nodes|);
    } else {
      SumByParents(nodes, level, k, n - 1);
      assert nodes[..n] == nodes[..n - 1] + [nodes[n - 1]];
      OneMoreChild(nodes[..n - 1], nodes[n - 1], level, k, |nodes|);
    }
  }

  lemma {:induction false} ChildrenWithinBudget(
    graphs: map<GraphId, Graph>, nodes: seq<Node>, ledger: Ledger, p: NodeId, k: Kind)
    requires Consistent(graphs, nodes, ledger) && p < |nodes|
    ensures OpenChildBudget(nodes, p, k) <= Budget(nodes[p], k)
  {
    assert BalancedAt(nodes, ledger, p);
    if k !in ledger[p] {
      forall c | 0 <= c < |nodes|
        ensures Share(nodes[c], p, k) == 0
      {
        assert ShapedAt(graphs, nodes, c);
      }
      SumOfNone(nodes, p, k);
    }
  }

  lemma {:induction false} ChildrenWithinLevel(
    graphs: map<GraphId, Graph>, nodes: seq<Node>, ledger: Ledger, level: set<NodeId>, k: Kind, m: nat)
    requires Consistent(graphs, nodes, ledger) && m <= |nodes|
    ensures HeldByChildren(nodes, level, k, m) <= Held(nodes, level, k, m)
  {
    if m > 0 {
      ChildrenWithinLevel(graphs, nodes, ledger, level, k, m - 1);
      ChildrenWithinBudget(graphs, nodes, ledger, m - 1, k);
    }
  }

  lemma {:induction false} HeldByOne(nodes: seq<Node>, root: NodeId, k: Kind, m: nat)
    requires m <= |nodes| && root < |nodes|
    ensures Held(nodes, {root}, k, m) == if root < m then Budget(nodes[root], k) else 0
  {
    if m > 0 {
      HeldByOne(nodes, root, k, m - 1);
    }
  }

  /**
   Delegation creates no budget: at every depth below a node, the open nodes that
   are reached through open nodes hold together no more than that node was given.
   */
  lemma {:induction false} NoBudgetFromNothing(
    graphs: map<GraphId, Graph>, nodes: seq<Node>, ledger: Ledger, root: NodeId, k: Kind, d: nat)
    requires Consistent(graphs, nodes, ledger) && root < |nodes|
    ensures forall j :: j in Level(nodes, root, d) ==> j < |nodes|
    ensures Held(nodes, Level(nodes, root, d), k, |nodes|) <= Budget(nodes[root], k)
  {
    if d == 0 {
      HeldByOne(nodes, root, k, |nodes|);
    } else {
      NoBudgetFromNothing(graphs, nodes, ledger, root, k, d - 1);
      var level := Level(nodes, root, d - 1);
      SumByParents(nodes, level, k, |nodes|);
      assert nodes[..|nodes|] == nodes;
      ChildrenWithinLevel(graphs, nodes, ledger, level, k, |nodes|);
    }
  }

  /** `d` is reached from `i` through one or more dependency edges. */
  ghost predicate Precedes(nodes: seq<Node>, d: NodeId, i: NodeId)
    decreases i
  {
    i < |nodes| && exists e :: e in nodes[i].spec.deps && e < i && (e == d || Precedes(nodes, d, e))
  }

  /** Dependencies never loop, and everything that stands before a started node is completed. */
  lemma {:induction false} StartedAfterAllPredecessors(
    graphs: map<GraphId, Graph>, nodes: seq<Node>, ledger: Ledger, d: NodeId, i: NodeId)
    requires Consistent(graphs, nodes, ledger) && Precedes(nodes, d, i)
    ensures d < i
    ensures nodes[i].status in {Running, Completed, Failed} ==> nodes[d].status == Completed
    decreases i
  {
    var e :| e in nodes[i].spec.deps && e < i && (e == d || Precedes(nodes, d, e));
    if nodes[i].status in {Running, Completed, Failed} {
      assert DepsCompleted(nodes, i);
    }
    if e != d {
      StartedAfterAllPredecessors(graphs, nodes, ledger, d, e);
    }
  }

  /** A waiting node is never forgotten: some node below it can still make progress. */
  lemma {:induction false} WaitingHasWork(
    graphs: map<GraphId, Graph>, nodes: seq<Node>, ledger: Ledger, i: NodeId) returns (j: NodeId)
    requires Consistent(graphs, nodes, ledger) && i < |nodes| && nodes[i].status == Waiting
    ensures Below(nodes, j, i) && j != i && Open(nodes[j]) && nodes[j].status != Waiting
    decreases |nodes| - i
  {
    assert HasOpenChild(nodes, i);
    var c :| 0 <= c < |nodes| && nodes[c].parent == Some(i) && Open(nodes[c]);
    assert ShapedAt(graphs, nodes, c) && Below(nodes, c, i);
    j := c;
    if nodes[c].status == Waiting {
      j := WaitingHasWork(graphs, nodes, ledger, c);
      BelowTransitive(nodes, j, c, i);
      BelowIsYounger(nodes, j, c);
    }
  }

  lemma {:induction false} BelowTransitive(nodes: seq<Node>, j: NodeId, m: NodeId, i: NodeId)
    requires Below(nodes, j, m) && Below(nodes, m, i)
    ensures Below(nodes, j, i)
    decreases j
  {
    if j != m {
      BelowTransitive(nodes, nodes[j].parent.value, m, i);
    }
  }
}

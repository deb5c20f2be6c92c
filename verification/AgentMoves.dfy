/**
 How one transaction may move node rows, and why the invariants survive the moves.
 Every lemma here is about values; the store's methods apply them step by step.
 */
module AgentMoves {
  import opened Outcomes
  import opened AgentGraph

  // -------------------------------------------------- releasing a budget

  function Clip(x: int): nat {
    if x < 0 then 0 else x
  }

  /** The accounts of a parent after a child with these budgets gives them back. */
  function Released(accounts: map<Kind, Account>, budgets: map<Kind, nat>): map<Kind, Account> {
    map k | k in accounts ::
      if k in budgets then accounts[k].(reserved := Clip(accounts[k].reserved - budgets[k])) else accounts[k]
  }

  function ReleasedFrom(ledger: Ledger, n: Node): Ledger
    requires n.parent.Some? ==> n.parent.value < |ledger|
  {
    if n.parent.None? then ledger
    else ledger[n.parent.value := Released(ledger[n.parent.value], n.spec.budgets)]
  }

  ghost predicate SameCeilings(a: Ledger, b: Ledger) {
    && |a| == |b|
    && forall i :: 0 <= i < |a| ==> SameCeilingsAt(a[i], b[i])
  }

  ghost predicate SameCeilingsAt(a: map<Kind, Account>, b: map<Kind, Account>) {
    && a.Keys == b.Keys
    && forall k :: k in a ==> a[k].maximum == b[k].maximum && a[k].consumed == b[k].consumed
  }

  lemma {:induction false} ShareWithinReserve(nodes: seq<Node>, ledger: Ledger, i: NodeId, k: Kind)
    requires Balanced(nodes, ledger) && i < |nodes| && Open(nodes[i])
    requires nodes[i].parent.Some? && nodes[i].parent.value < |nodes|
    requires k in nodes[i].spec.budgets && k in ledger[nodes[i].parent.value]
    ensures nodes[i].spec.budgets[k] <= ledger[nodes[i].parent.value][k].reserved
  {
    var p := nodes[i].parent.value;
    SumAfterUpdate(nodes, i, nodes[i], p, k);
    assert BalancedAt(nodes, ledger, p);
  }

  lemma {:induction false} BalancedAfterEnd(
    graphs: map<GraphId, Graph>, nodes: seq<Node>, ledger: Ledger, i: NodeId, s: NodeStatus)
    requires Shaped(graphs, nodes) && Balanced(nodes, ledger)
    requires i < |nodes| && Open(nodes[i]) && Terminal(s)
    ensures ShapedAt(graphs, nodes, i)
    ensures Balanced(nodes[i := Ended(nodes[i], s)], ReleasedFrom(ledger, nodes[i]))
    ensures SameCeilings(ledger, ReleasedFrom(ledger, nodes[i]))
  {
    assert ShapedAt(graphs, nodes, i);
    var n := nodes[i];
    var after := nodes[i := Ended(n, s)];
    var ledger' := ReleasedFrom(ledger, n);
    forall j | 0 <= j < |after|
      ensures BalancedAt(after, ledger', j)
    {
      assert BalancedAt(nodes, ledger, j);
      forall k | k in ledger[j]
        ensures ledger'[j][k].reserved == OpenChildBudget(after, j, k)
        ensures ledger'[j][k].reserved <= ledger[j][k].reserved
      {
        SumAfterUpdate(nodes, i, Ended(n, s), j, k);
        if n.parent == Some(j) && k in n.spec.budgets {
          ShareWithinReserve(nodes, ledger, i, k);
        }
      }
    }
  }

  /** Changing only bookkeeping, never openness, leaves every sum alone. */
  lemma {:induction false} BalancedWhileOpen(a: seq<Node>, b: seq<Node>, ledger: Ledger)
    requires Balanced(a, ledger) && SameRows(a, b)
    requires forall j :: 0 <= j < |a| ==> Open(a[j]) == Open(b[j])
    ensures Balanced(b, ledger)
  {
    forall j | 0 <= j < |b|
      ensures BalancedAt(b, ledger, j)
    {
      assert BalancedAt(a, ledger, j) && SameRow(a[j], b[j]);
      forall k | k in ledger[j]
        ensures OpenChildBudget(b, j, k) == OpenChildBudget(a, j, k)
      {
        forall c | 0 <= c < |a|
          ensures Share(a[c], j, k) == Share(b[c], j, k)
        {
          assert SameRow(a[c], b[c]);
        }
        SumDependsOnShares(a, b, j, k);
      }
    }
  }

  // ------------------------------------------------------- rows and moves

  /** The columns no transaction rewrites. */
  predicate SameRow(a: Node, b: Node) {
    && a.graph == b.graph && a.parent == b.parent && a.spec == b.spec && a.depth == b.depth
    && a.createdAt == b.createdAt && a.uuid == b.uuid
  }

  ghost predicate SameRows(a: seq<Node>, b: seq<Node>) {
    |a| == |b| && forall j :: 0 <= j < |a| ==> SameRow(a[j], b[j])
  }

  lemma {:induction false} ShapedBySameRows(graphs: map<GraphId, Graph>, a: seq<Node>, b: seq<Node>)
    requires Shaped(graphs, a) && SameRows(a, b)
    ensures Shaped(graphs, b)
  {
    forall i | 0 <= i < |b|
      ensures ShapedAt(graphs, b, i)
    {
      assert ShapedAt(graphs, a, i) && SameRow(a[i], b[i]);
      if b[i].parent.Some? {
        assert SameRow(a[b[i].parent.value], b[b[i].parent.value]);
      }
      forall d | d in b[i].spec.deps
        ensures d < i && b[d].graph == b[i].graph
      {
        assert SameRow(a[d], b[d]);
      }
    }
  }

  /**
   Row `j` may stay, may end, or may be woken; it is woken only when nothing it
   waits for is open any more.
   */
  ghost predicate Moved(before: seq<Node>, after: seq<Node>, j: NodeId)
    requires j < |before| == |after|
  {
    || after[j] == before[j]
    || (Open(before[j]) && Terminal(after[j].status) && after[j] == Ended(before[j], after[j].status))
    || (before[j].status == Waiting && after[j] == AsReady(before[j]) && !HasOpenChild(after, j))
  }

  ghost predicate Settling(before: seq<Node>, after: seq<Node>) {
    |before| == |after| && forall j :: 0 <= j < |before| ==> Moved(before, after, j)
  }

  function Woken(nodes: seq<Node>, p: Option<NodeId>): seq<Node> {
    if p.Some? && p.value < |nodes| && nodes[p.value].status == Waiting && !HasOpenChild(nodes, p.value)
    then nodes[p.value := AsReady(nodes[p.value])]
    else nodes
  }

  /** Rows keep their columns, and nothing is reopened. */
  lemma {:induction false} SettlingFacts(before: seq<Node>, after: seq<Node>)
    requires Settling(before, after)
    ensures SameRows(before, after)
    ensures forall j :: 0 <= j < |before| && Open(after[j]) ==> Open(before[j])
    ensures forall j :: 0 <= j < |before| && Terminal(before[j].status) ==> after[j] == before[j]
    ensures forall j :: 0 <= j < |before| && after[j].status == Running ==> after[j] == before[j]
    ensures forall j :: 0 <= j < |before| && HasOpenChild(after, j) ==> HasOpenChild(before, j)
  {
    forall j | 0 <= j < |before|
      ensures SameRow(before[j], after[j])
      ensures Open(after[j]) ==> Open(before[j])
      ensures Terminal(before[j].status) ==> after[j] == before[j]
      ensures after[j].status == Running ==> after[j] == before[j]
    {
      assert Moved(before, after, j);
    }
    forall j | 0 <= j < |before| && HasOpenChild(after, j)
      ensures HasOpenChild(before, j)
    {
      var c :| 0 <= c < |after| && after[c].parent == Some(j) && Open(after[c]);
      assert SameRow(before[c], after[c]);
      assert before[c].parent == Some(j) && Open(before[c]);
    }
  }

  lemma {:induction false} SettlingComposes(a: seq<Node>, b: seq<Node>, c: seq<Node>)
    requires Settling(a, b) && Settling(b, c)
    requires Leased(a)
    ensures Settling(a, c)
  {
    SettlingFacts(a, b);
    SettlingFacts(b, c);
    forall j | 0 <= j < |a|
      ensures Moved(a, c, j)
    {
      assert Moved(a, b, j) && Moved(b, c, j);
    }
  }

  lemma {:induction false} EndIsSettling(nodes: seq<Node>, i: NodeId, s: NodeStatus)
    requires i < |nodes| && Open(nodes[i]) && Terminal(s)
    ensures Settling(nodes, nodes[i := Ended(nodes[i], s)])
  {
  }

  lemma {:induction false} WakeIsSettling(nodes: seq<Node>, p: Option<NodeId>)
    ensures Settling(nodes, Woken(nodes, p))
  {
    var after := Woken(nodes, p);
    if after != nodes {
      assert forall c :: 0 <= c < |nodes| ==> after[c].parent == nodes[c].parent && Open(after[c]) == Open(nodes[c]);
      assert !HasOpenChild(after, p.value);
    }
  }

  function ParentSet(n: Node): set<NodeId> {
    if n.parent.Some? then {n.parent.value} else {}
  }

  /** Ending a row can rob only its own parent of its last open child. */
  lemma {:induction false} WakeupsAfterEnd(nodes: seq<Node>, i: NodeId, s: NodeStatus, pending: set<NodeId>)
    requires i < |nodes| && Open(nodes[i]) && Terminal(s)
    requires NoLostWakeup(nodes, pending)
    ensures NoLostWakeup(nodes[i := Ended(nodes[i], s)], pending + ParentSet(nodes[i]))
  {
    var after := nodes[i := Ended(nodes[i], s)];
    forall j | 0 <= j < |after| && j !in pending && nodes[i].parent != Some(j) && after[j].status == Waiting
      ensures HasOpenChild(after, j)
    {
      var c :| 0 <= c < |nodes| && nodes[c].parent == Some(j) && Open(nodes[c]);
      assert after[c] == nodes[c];
    }
  }

  lemma {:induction false} WakeupsAfterWake(nodes: seq<Node>, p: Option<NodeId>, pending: set<NodeId>)
    requires NoLostWakeup(nodes, pending)
    ensures NoLostWakeup(Woken(nodes, p), pending - if p.Some? then {p.value} else {})
  {
    var after := Woken(nodes, p);
    assert forall c :: 0 <= c < |nodes| ==> after[c].parent == nodes[c].parent && Open(after[c]) == Open(nodes[c]);
    forall j | 0 <= j < |after| && (j !in pending || p == Some(j)) && after[j].status == Waiting
      ensures HasOpenChild(after, j)
    {
      assert HasOpenChild(nodes, j);
      var c :| 0 <= c < |nodes| && nodes[c].parent == Some(j) && Open(nodes[c]);
      assert after[c].parent == Some(j) && Open(after[c]);
    }
  }

  lemma {:induction false} DepsAfterEnd(nodes: seq<Node>, i: NodeId, s: NodeStatus)
    requires i < |nodes| && Open(nodes[i]) && DepsRespected(nodes)
    requires s == Blocked || s == Cancelled || (Terminal(s) && nodes[i].status == Running)
    ensures DepsRespected(nodes[i := Ended(nodes[i], s)])
  {
    var after := nodes[i := Ended(nodes[i], s)];
    forall j | 0 <= j < |after|
      && (after[j].status == Running || after[j].status == Completed || after[j].status == Failed)
      ensures DepsCompleted(after, j)
    {
      assert DepsCompleted(nodes, j);
    }
  }

  lemma {:induction false} LimitsAfterSettling(graphs: map<GraphId, Graph>, before: seq<Node>, after: seq<Node>)
    requires WithinLimits(graphs, before) && Settling(before, after)
    ensures WithinLimits(graphs, after)
  {
    SettlingFacts(before, after);
    forall g | g in graphs
      ensures Count(after, g, Running) <= Count(before, g, Running)
      ensures Members(after, g) == Members(before, g)
    {
      assert forall c :: 0 <= c < |before| ==> SameRow(before[c], after[c]);
      CountOnlyShrinks(before, after, g, Running);
      MembersDependOnGraphs(before, after, g);
    }
  }

  /**
   The exact outcome of a transaction that ends the nodes in `victims` and wakes
   whoever then waits for nobody: every other row is untouched.
   */
  ghost predicate SettledInto(before: seq<Node>, after: seq<Node>, victims: map<NodeId, NodeStatus>) {
    && |before| == |after|
    && forall j :: 0 <= j < |before| ==>
         after[j] ==
           if j in victims then Ended(before[j], victims[j])
           else if before[j].status == Waiting && !HasOpenChild(after, j) then AsReady(before[j])
           else before[j]
  }

  lemma {:induction false} SettledExactly(before: seq<Node>, after: seq<Node>, victims: map<NodeId, NodeStatus>)
    requires Settling(before, after) && NoLostWakeup(after, {})
    requires forall j :: j in victims && j < |before| ==> after[j] == Ended(before[j], victims[j])
    requires forall j :: 0 <= j < |before| && j !in victims && Terminal(after[j].status) ==> after[j] == before[j]
    ensures SettledInto(before, after, victims)
  {
    forall j | 0 <= j < |before| && j !in victims
      ensures after[j] ==
              if before[j].status == Waiting && !HasOpenChild(after, j) then AsReady(before[j]) else before[j]
    {
      assert Moved(before, after, j);
    }
  }

  function Dependents(nodes: seq<Node>, d: NodeId, upto: nat): (rows: seq<NodeId>)
    requires upto <= |nodes|
    ensures forall x :: x in rows <==> 0 <= x < upto && Open(nodes[x]) && d in nodes[x].spec.deps
    ensures forall a :: 0 <= a < |rows| ==> rows[a] < upto
    ensures forall a, b :: 0 <= a < b < |rows| ==> rows[a] < rows[b]
  {
    if upto == 0 then []
    else
      var rest := Dependents(nodes, d, upto - 1);
      if Open(nodes[upto - 1]) && d in nodes[upto - 1].spec.deps then rest + [upto - 1] else rest
  }

  function Children(nodes: seq<Node>, p: NodeId, upto: nat): (rows: seq<NodeId>)
    requires upto <= |nodes|
    ensures forall x :: x in rows <==> 0 <= x < upto && nodes[x].parent == Some(p)
    ensures forall a :: 0 <= a < |rows| ==> rows[a] < upto
    ensures forall a, b :: 0 <= a < b < |rows| ==> rows[a] < rows[b]
  {
    if upto == 0 then []
    else
      var rest := Children(nodes, p, upto - 1);
      if nodes[upto - 1].parent == Some(p) then rest + [upto - 1] else rest
  }
}

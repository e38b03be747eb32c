/**
 Persisted node states of a workflow run, the moves the executor may make on
 them, and what every sequence of such moves keeps.
 */
module WorkflowStates {
  import opened Options
  import opened WorkflowGraph

  datatype NodeStatus = NodePending | NodeRunning | NodeCompleted | NodeFailed | NodeSkipped | NodeCancelled

  datatype NodeState = NodeState(status: NodeStatus, attempts: nat, result: Option<string>, error: Option<string>)

  type States = map<string, NodeState>

  const FRESH := NodeState(NodePending, 0, None, None)

  function FreshStates(nodes: seq<Node>): States {
    map x | x in IdsOf(nodes) :: FRESH
  }

  predicate IsDone(s: States, x: string) {
    x in s && s[x].status == NodeCompleted
  }

  predicate DependenciesDone(s: States, n: Node) {
    forall d | d in n.dependencies :: IsDone(s, d)
  }

  // ---------- one persisted move ----------

  ghost predicate StateMove(n: Node, s: States, was: NodeState, now: NodeState) {
    match was.status
    case NodePending =>
      now == NodeState(NodeRunning, was.attempts + 1, was.result, None) && DependenciesDone(s, n)
    case NodeRunning =>
      (match now.status
       case NodeRunning => was.attempts <= now.attempts <= was.attempts + 1
                           && (was.attempts < now.attempts ==> was.attempts < n.maxAttempts)
       case NodeCompleted => now.attempts == was.attempts && now.result.Some?
       case NodeFailed => now.attempts == was.attempts && n.maxAttempts <= was.attempts
       case NodeCancelled => now.attempts == was.attempts
       case _ => false)
    case _ => false
  }

  ghost predicate NodeMove(n: Node, s: States, t: States) {
    n.id in s && n.id in t && t == s[n.id := t[n.id]] && StateMove(n, s, s[n.id], t[n.id])
  }

  /** Consecutive saves differ by at most one node's move. */
  ghost predicate Step(nodes: seq<Node>, s: States, t: States) {
    s == t || exists n :: n in nodes && NodeMove(n, s, t)
  }

  ghost predicate IsTrace(nodes: seq<Node>, trace: seq<States>) {
    && trace != []
    && trace[0] == FreshStates(nodes)
    && forall i | 0 <= i < |trace| - 1 :: Step(nodes, trace[i], trace[i + 1])
  }

  lemma TraceExtends(nodes: seq<Node>, trace: seq<States>, t: States)
    requires IsTrace(nodes, trace) && Step(nodes, trace[|trace| - 1], t)
    ensures IsTrace(nodes, trace + [t])
  {
  }

  // ---------- what every reachable state satisfies ----------

  /** A node that left PENDING has all its dependencies COMPLETED. */
  ghost predicate Causal(nodes: seq<Node>, s: States) {
    && s.Keys == IdsOf(nodes)
    && (forall n | n in nodes && s[n.id].status != NodePending :: DependenciesDone(s, n))
    && (forall x | x in s && s[x].status == NodePending :: s[x] == FRESH)
  }

  lemma StepKeepsCausal(nodes: seq<Node>, s: States, t: States)
    requires UniqueIds(nodes) && Causal(nodes, s) && Step(nodes, s, t)
    ensures Causal(nodes, t)
    ensures forall x | IsDone(s, x) :: IsDone(t, x) && t[x] == s[x]
  {
    if s != t {
      var n :| n in nodes && NodeMove(n, s, t);
      assert forall x | IsDone(s, x) :: x != n.id;
      forall m | m in nodes && t[m.id].status != NodePending ensures DependenciesDone(t, m) {
        if m.id == n.id {
          SameNode(nodes, m, n);
        }
        assert DependenciesDone(s, m);
      }
    }
  }

  lemma SameNode(nodes: seq<Node>, m: Node, n: Node)
    requires UniqueIds(nodes) && m in nodes && n in nodes && m.id == n.id
    ensures m == n
  {
    var i :| 0 <= i < |nodes| && nodes[i] == m;
    var j :| 0 <= j < |nodes| && nodes[j] == n;
  }

  /** Every saved state of a run is causal. */
  lemma {:induction false} TraceIsCausal(nodes: seq<Node>, trace: seq<States>, i: nat)
    requires UniqueIds(nodes) && IsTrace(nodes, trace) && i < |trace|
    ensures Causal(nodes, trace[i])
  {
    if i > 0 {
      TraceIsCausal(nodes, trace, i - 1);
      StepKeepsCausal(nodes, trace[i - 1], trace[i]);
    }
  }

  /** Once COMPLETED, a node's record never changes again. */
  lemma {:induction false} CompletedIsFinal(nodes: seq<Node>, trace: seq<States>, i: nat, j: nat, x: string)
    requires UniqueIds(nodes) && IsTrace(nodes, trace) && i <= j < |trace|
    requires IsDone(trace[i], x)
    ensures IsDone(trace[j], x) && trace[j][x] == trace[i][x]
  {
    if i < j {
      CompletedIsFinal(nodes, trace, i, j - 1, x);
      TraceIsCausal(nodes, trace, j - 1);
      StepKeepsCausal(nodes, trace[j - 1], trace[j]);
    }
  }

  /** A started node's transitive dependencies are all COMPLETED: `w` walks from it to one of them. */
  lemma {:induction false} TransitiveDependenciesDone(nodes: seq<Node>, s: States, w: seq<string>, k: nat)
    requires UniqueIds(nodes) && Causal(nodes, s)
    requires IsWalk(GraphOf(nodes), w) && 0 < k < |w|
    requires w[0] in s && s[w[0]].status != NodePending
    ensures IsDone(s, w[k])
  {
    if k > 1 {
      TransitiveDependenciesDone(nodes, s, w, k - 1);
    }
    assert w[k - 1] in GraphOf(nodes) && w[k] in GraphOf(nodes)[w[k - 1]];
    var n :| n in nodes && n.id == w[k - 1];
    GraphOfNode(nodes, n);
    assert DependenciesDone(s, n);
  }

  /** Everything that transitively depends on a FAILED node is still PENDING. */
  lemma FailureBlocksDependents(nodes: seq<Node>, trace: seq<States>, i: nat, w: seq<string>)
    requires UniqueIds(nodes) && IsTrace(nodes, trace) && i < |trace|
    requires IsWalk(GraphOf(nodes), w) && |w| >= 2 && w[0] in trace[i]
    requires var last := w[|w| - 1]; last in trace[i] && trace[i][last].status == NodeFailed
    ensures trace[i][w[0]] == FRESH
  {
    TraceIsCausal(nodes, trace, i);
    if trace[i][w[0]].status != NodePending {
      TransitiveDependenciesDone(nodes, trace[i], w, |w| - 1);
    }
  }

  // ---------- readiness ----------

  /** PENDING nodes with every dependency COMPLETED, in definition order. */
  function ReadyNodes(nodes: seq<Node>, s: States): (ready: seq<Node>)
    ensures forall n :: n in ready <==> n in nodes && n.id in s && s[n.id].status == NodePending && DependenciesDone(s, n)
  {
    if nodes == [] then []
    else
      var n := nodes[0];
      var rest := ReadyNodes(nodes[1..], s);
      assert forall m :: m in nodes <==> m == n || m in nodes[1..];
      if n.id in s && s[n.id].status == NodePending && DependenciesDone(s, n) then [n] + rest else rest
  }

  /** The first ready node is the first of the definition that is PENDING with all its dependencies COMPLETED. */
  lemma {:induction false} FirstReady(nodes: seq<Node>, s: States) returns (p: nat)
    requires ReadyNodes(nodes, s) != []
    ensures p < |nodes| && nodes[p] == ReadyNodes(nodes, s)[0]
    ensures nodes[p].id in s && s[nodes[p].id].status == NodePending
    ensures forall d | d in nodes[p].dependencies :: d in s && s[d].status == NodeCompleted
    ensures forall q | 0 <= q < p :: nodes[q].id in s && s[nodes[q].id].status == NodePending ==>
      exists d :: d in nodes[q].dependencies && (d in s ==> s[d].status != NodeCompleted)
  {
    var n := nodes[0];
    if n.id in s && s[n.id].status == NodePending && DependenciesDone(s, n) {
      p := 0;
    } else {
      var q := FirstReady(nodes[1..], s);
      p := q + 1;
      assert n.id in s && s[n.id].status == NodePending ==> !DependenciesDone(s, n);
      forall i | 0 < i < p && nodes[i].id in s && s[nodes[i].id].status == NodePending
        ensures exists d :: d in nodes[i].dependencies && (d in s ==> s[d].status != NodeCompleted)
      {
        assert nodes[1..][i - 1] == nodes[i];
      }
    }
  }

  /** A new run: every node once, PENDING, with nothing attempted, returned or raised. */
  lemma FreshMeans(nodes: seq<Node>, x: string)
    ensures x in FreshStates(nodes) <==> exists n :: n in nodes && n.id == x
    ensures x in FreshStates(nodes) ==> FreshStates(nodes)[x] == NodeState(NodePending, 0, None, None)
  {
  }

  ghost predicate OnlyPendingOrDone(s: States) {
    forall x | x in s :: s[x].status == NodePending || s[x].status == NodeCompleted
  }

  predicate AllDone(s: States) {
    forall x | x in s :: s[x].status == NodeCompleted
  }

  /** A PENDING node that is not ready depends on one that is PENDING too. */
  lemma WaitsForOpen(nodes: seq<Node>, s: States, n: Node)
    requires UniqueIds(nodes) && KnownDependencies(nodes) && s.Keys == IdsOf(nodes) && OnlyPendingOrDone(s)
    requires n in nodes && !DependenciesDone(s, n)
    ensures DependsInto(GraphOf(nodes), n.id, set x | x in s && s[x].status == NodePending)
  {
    hide UniqueIds;
    GraphOfNode(nodes, n);
    var d :| d in n.dependencies && !IsDone(s, d);
    assert d in GraphOf(nodes)[n.id] && d in s;
  }

  /** Acyclicity is what keeps the executor from ever finding nothing to do. */
  lemma SomethingIsReady(nodes: seq<Node>, s: States)
    requires ValidDefinition(nodes) && s.Keys == IdsOf(nodes)
    requires OnlyPendingOrDone(s) && !AllDone(s)
    ensures ReadyNodes(nodes, s) != []
  {
    hide UniqueIds, Acyclic, IsWalk;
    if ReadyNodes(nodes, s) == [] {
      var g := GraphOf(nodes);
      var open := set x | x in s && s[x].status == NodePending;
      forall x | x in open ensures DependsInto(g, x, open) {
        var n :| n in nodes && n.id == x;
        assert n !in ReadyNodes(nodes, s);
        WaitsForOpen(nodes, s, n);
      }
      var x :| x in s && s[x].status != NodeCompleted;
      assert x in open;
      StuckHasCycle(g, open);
    }
  }
}

/**
 What a run must end in, as a function of the handlers alone: the reference the
 executor is proved against.  A handler is a function of the node and the
 number of the attempt.
 */
module WorkflowOutcome {
  import opened Options
  import opened WorkflowGraph
  import opened WorkflowStates

  datatype Outcome = Returns(value: string) | Raises(error: string) | SelfCancels
  type Handler = (string, nat) -> Outcome

  /** How the attempts at one node end; `error` is the last error recorded before the end. */
  datatype NodeEnd =
    | Done(attempts: nat, value: string, error: Option<string>)
    | Exhausted(attempts: nat, lastError: string)
    | Aborted(attempts: nat)

  function Budget(n: Node): nat {
    if n.maxAttempts < 1 then 1 else n.maxAttempts
  }

  function AttemptsFrom(h: Handler, n: Node, k: nat, error: Option<string>): NodeEnd
    decreases n.maxAttempts - k
  {
    match h(n.id, k)
    case Returns(v) => Done(k, v, error)
    case SelfCancels => Aborted(k)
    case Raises(e) => if k < n.maxAttempts then AttemptsFrom(h, n, k + 1, Some(e)) else Exhausted(k, e)
  }

  function EndOf(h: Handler, n: Node): NodeEnd {
    AttemptsFrom(h, n, 1, None)
  }

  function Closed(end: NodeEnd): NodeState {
    match end
    case Done(k, v, e) => NodeState(NodeCompleted, k, Some(v), e)
    case Exhausted(k, e) => NodeState(NodeFailed, k, None, Some(e))
    case Aborted(k) => NodeState(NodeCancelled, k, None, Some("cancelled"))
  }

  lemma AttemptUnfolds(h: Handler, n: Node, k: nat, error: Option<string>)
    ensures AttemptsFrom(h, n, k, error) ==
      match h(n.id, k)
      case Returns(v) => Done(k, v, error)
      case SelfCancels => Aborted(k)
      case Raises(e) => if k < n.maxAttempts then AttemptsFrom(h, n, k + 1, Some(e)) else Exhausted(k, e)
  {
  }

  predicate Raised(h: Handler, n: Node, k: nat) {
    h(n.id, k).Raises?
  }

  /** The end is the first attempt that does not raise, or the last attempt allowed. */
  lemma {:induction false} EndIsFirstDecisive(h: Handler, n: Node, k: nat, error: Option<string>)
    requires 1 <= k <= Budget(n)
    ensures var end := AttemptsFrom(h, n, k, error);
      && k <= end.attempts <= Budget(n)
      && (forall j | k <= j < end.attempts :: Raised(h, n, j))
      && (end.Done? <==> h(n.id, end.attempts) == Returns(if end.Done? then end.value else ""))
      && (end.Aborted? <==> h(n.id, end.attempts) == SelfCancels)
      && (end.Exhausted? <==> Raised(h, n, end.attempts))
      && (end.Exhausted? ==> end.attempts == Budget(n) && h(n.id, end.attempts) == Raises(end.lastError))
      && (end.Done? && end.attempts == k ==> end.error == error)
      && (end.Done? && end.attempts > k ==> end.error.Some? && h(n.id, end.attempts - 1) == Raises(end.error.value))
    decreases n.maxAttempts - k
  {
    if h(n.id, k).Raises? && k < n.maxAttempts {
      EndIsFirstDecisive(h, n, k + 1, Some(h(n.id, k).error));
    }
  }

  /** A node succeeds iff some attempt within its budget returns and all earlier ones raise. */
  ghost predicate Succeeds(h: Handler, n: Node) {
    exists k :: 1 <= k <= Budget(n) && h(n.id, k).Returns? && forall j | 1 <= j < k :: Raised(h, n, j)
  }

  lemma DoneMeansSucceeds(h: Handler, n: Node)
    ensures EndOf(h, n).Done? <==> Succeeds(h, n)
  {
    EndIsFirstDecisive(h, n, 1, None);
    var end := EndOf(h, n);
    if Succeeds(h, n) {
      var k :| 1 <= k <= Budget(n) && h(n.id, k).Returns? && forall j | 1 <= j < k :: Raised(h, n, j);
      assert !Raised(h, n, k);
      assert end.attempts < k ==> Raised(h, n, end.attempts);
      assert end.attempts == k;
    }
  }

  // ---------- the uninterrupted run ----------

  function PendingIds(s: States): set<string> {
    set x | x in s && s[x].status == NodePending
  }

  predicate Halted(s: States) {
    exists x :: x in s && Stops(s[x])
  }

  predicate Stops(state: NodeState) {
    state.status == NodeFailed || state.status == NodeCancelled
  }

  /** The first ready node, run to its end. */
  function NextBoundary(nodes: seq<Node>, h: Handler, s: States): (t: States)
    requires ReadyNodes(nodes, s) != []
    ensures |PendingIds(t)| < |PendingIds(s)|
  {
    var n := ReadyNodes(nodes, s)[0];
    assert n in ReadyNodes(nodes, s);
    var t := s[n.id := Closed(EndOf(h, n))];
    assert PendingIds(t) == PendingIds(s) - {n.id};
    t
  }

  /** Node after node, until one fails or aborts or none is ready. */
  function RunOut(nodes: seq<Node>, h: Handler, s: States): States
    decreases |PendingIds(s)|
  {
    if Halted(s) || ReadyNodes(nodes, s) == [] then s
    else RunOut(nodes, h, NextBoundary(nodes, h, s))
  }

  ghost predicate StateAtBoundary(h: Handler, n: Node, state: NodeState) {
    state == FRESH || state == Closed(EndOf(h, n))
  }

  /** Between nodes: every node is untouched or at the end its handler gives it. */
  ghost predicate AtBoundary(nodes: seq<Node>, h: Handler, s: States) {
    && s.Keys == IdsOf(nodes)
    && forall n | n in nodes :: StateAtBoundary(h, n, s[n.id])
  }

  ghost predicate AtMostOneEnded(s: States) {
    forall x, y | x in s && y in s && Stops(s[x]) && Stops(s[y]) :: x == y
  }

  /** A state the executor may be started on: at a boundary, with no node cancelled. */
  ghost predicate Resumable(nodes: seq<Node>, h: Handler, s: States) {
    && AtBoundary(nodes, h, s)
    && AtMostOneEnded(s)
    && forall x | x in s :: s[x].status != NodeCancelled
  }

  lemma FreshIsResumable(nodes: seq<Node>, h: Handler)
    ensures Resumable(nodes, h, FreshStates(nodes))
  {
  }

  lemma BoundaryStates(nodes: seq<Node>, h: Handler, s: States)
    requires AtBoundary(nodes, h, s)
    requires !Halted(s)
    ensures OnlyPendingOrDone(s)
  {
    forall x | x in s ensures s[x].status == NodePending || s[x].status == NodeCompleted {
      var n :| n in nodes && n.id == x;
      assert StateAtBoundary(h, n, s[x]);
    }
  }

  lemma BoundaryStep(nodes: seq<Node>, h: Handler, s: States, n: Node)
    requires UniqueIds(nodes) && AtBoundary(nodes, h, s) && n in nodes
    ensures AtBoundary(nodes, h, s[n.id := Closed(EndOf(h, n))])
  {
    var t := s[n.id := Closed(EndOf(h, n))];
    forall m | m in nodes ensures StateAtBoundary(h, m, t[m.id]) {
      if m.id == n.id {
        SameNode(nodes, m, n);
      } else {
        assert StateAtBoundary(h, m, s[m.id]);
      }
    }
  }

  /** At a boundary that is neither halted nor complete there is a next boundary. */
  lemma BoundaryAdvances(nodes: seq<Node>, h: Handler, s: States)
    requires ValidDefinition(nodes) && AtBoundary(nodes, h, s) && !Halted(s) && !AllDone(s)
    ensures ReadyNodes(nodes, s) != []
    ensures AtBoundary(nodes, h, NextBoundary(nodes, h, s))
    ensures AtMostOneEnded(NextBoundary(nodes, h, s))
  {
    BoundaryStates(nodes, h, s);
    SomethingIsReady(nodes, s);
    var n := ReadyNodes(nodes, s)[0];
    assert n in ReadyNodes(nodes, s);
    BoundaryStep(nodes, h, s, n);
    assert forall y | y in s :: !Stops(s[y]);
  }

  /** A run from a boundary either completes every node or is halted by exactly one. */
  lemma {:induction false} RunOutVerdict(nodes: seq<Node>, h: Handler, s: States)
    requires ValidDefinition(nodes) && AtBoundary(nodes, h, s) && AtMostOneEnded(s)
    ensures var t := RunOut(nodes, h, s);
      && AtBoundary(nodes, h, t)
      && AtMostOneEnded(t)
      && (AllDone(t) || Halted(t))
    decreases |PendingIds(s)|
  {
    if !Halted(s) && !AllDone(s) {
      BoundaryAdvances(nodes, h, s);
      RunOutVerdict(nodes, h, NextBoundary(nodes, h, s));
    } else if !Halted(s) {
      NoneReadyWhenDone(nodes, s);
    }
  }

  lemma ReadyIsFresh(nodes: seq<Node>, h: Handler, s: States, n: Node)
    requires AtBoundary(nodes, h, s) && n in ReadyNodes(nodes, s)
    ensures n in nodes && n.id in s && s[n.id] == FRESH && DependenciesDone(s, n)
  {
    assert StateAtBoundary(h, n, s[n.id]);
  }

  lemma RunOutStops(nodes: seq<Node>, h: Handler, s: States)
    requires AllDone(s) || FailedNodes(nodes, s) != []
    ensures RunOut(nodes, h, s) == s
  {
    if AllDone(s) {
      NoneReadyWhenDone(nodes, s);
    } else {
      var n := FailedNodes(nodes, s)[0];
      assert n in FailedNodes(nodes, s);
      assert Stops(s[n.id]);
    }
  }

  /** Running the first ready node to an end other than an abort leads to a resumable state. */
  lemma BoundaryFinishes(nodes: seq<Node>, h: Handler, s: States, n: Node)
    requires ValidDefinition(nodes) && Resumable(nodes, h, s) && !Halted(s) && !AllDone(s)
    requires ReadyNodes(nodes, s) != [] && n == ReadyNodes(nodes, s)[0] && !EndOf(h, n).Aborted?
    ensures var t := s[n.id := Closed(EndOf(h, n))];
      && Resumable(nodes, h, t)
      && RunOut(nodes, h, t) == RunOut(nodes, h, s)
      && |PendingIds(t)| < |PendingIds(s)|
  {
    BoundaryAdvances(nodes, h, s);
    assert s[n.id := Closed(EndOf(h, n))] == NextBoundary(nodes, h, s);
  }

  lemma NoneReadyWhenDone(nodes: seq<Node>, s: States)
    requires AllDone(s)
    ensures ReadyNodes(nodes, s) == []
  {
    var ready := ReadyNodes(nodes, s);
    assert forall k | 0 <= k < |ready| :: ready[k] in ready;
  }

  /** A run completes every node iff every node's handler succeeds within its budget. */
  lemma CompletesIffAllSucceed(nodes: seq<Node>, h: Handler, s: States)
    requires ValidDefinition(nodes) && AtBoundary(nodes, h, s) && AtMostOneEnded(s)
    ensures AllDone(RunOut(nodes, h, s)) <==> forall n | n in nodes :: Succeeds(h, n)
  {
    hide AttemptsFrom, RunOut, Succeeds, ValidDefinition, AtMostOneEnded;
    RunOutVerdict(nodes, h, s);
    var t := RunOut(nodes, h, s);
    forall n | n in nodes ensures StateAtBoundary(h, n, t[n.id]) && (EndOf(h, n).Done? <==> Succeeds(h, n)) {
      DoneMeansSucceeds(h, n);
    }
    if AllDone(t) {
      forall n | n in nodes ensures Succeeds(h, n) {
        assert t[n.id].status == NodeCompleted;
      }
    } else {
      var x :| x in t && Stops(t[x]);
      var n :| n in nodes && n.id == x;
      assert StateAtBoundary(h, n, t[n.id]);
      assert !EndOf(h, n).Done?;
    }
  }

  /** A node that stopped a run by failing used its whole attempt budget. */
  lemma FailedUsedBudget(nodes: seq<Node>, h: Handler, s: States, n: Node)
    requires AtBoundary(nodes, h, s) && n in nodes && s[n.id].status == NodeFailed
    ensures s[n.id].attempts == Budget(n) && forall k | 1 <= k <= Budget(n) :: Raised(h, n, k)
  {
    assert StateAtBoundary(h, n, s[n.id]);
    EndIsFirstDecisive(h, n, 1, None);
  }

  function FailedNodes(nodes: seq<Node>, s: States): (failed: seq<Node>)
    ensures forall n :: n in failed <==> n in nodes && n.id in s && s[n.id].status == NodeFailed
  {
    if nodes == [] then []
    else
      var n := nodes[0];
      var rest := FailedNodes(nodes[1..], s);
      assert forall m :: m in nodes <==> m == n || m in nodes[1..];
      if n.id in s && s[n.id].status == NodeFailed then [n] + rest else rest
  }

  /** `n` alone failed, after raising on every attempt of its budget; no other node is in flight. */
  ghost predicate OnlyFailure(h: Handler, nodes: seq<Node>, s: States, n: Node) {
    && n in nodes && n.id in s
    && s[n.id].status == NodeFailed && s[n.id].attempts == Budget(n)
    && (forall k | 1 <= k <= Budget(n) :: Raised(h, n, k))
    && forall x | x in s && x != n.id :: s[x].status == NodePending || s[x].status == NodeCompleted
  }

  lemma FailureIsOnly(h: Handler, nodes: seq<Node>, s: States, n: Node)
    requires Resumable(nodes, h, s) && n in FailedNodes(nodes, s)
    ensures OnlyFailure(h, nodes, s, n) && !AllDone(s)
  {
    FailedUsedBudget(nodes, h, s, n);
    assert Stops(s[n.id]);
    forall x | x in s && x != n.id ensures s[x].status == NodePending || s[x].status == NodeCompleted {
      var m :| m in nodes && m.id == x;
      assert StateAtBoundary(h, m, s[m.id]);
      assert !Stops(s[x]);
    }
  }

  lemma NotHalted(nodes: seq<Node>, h: Handler, s: States)
    requires Resumable(nodes, h, s) && FailedNodes(nodes, s) == []
    ensures !Halted(s)
  {
    forall x | x in s ensures !Stops(s[x]) {
      var n :| n in nodes && n.id == x;
      assert n !in FailedNodes(nodes, s);
    }
  }

  // ---------- the end of a run, told by the handlers' answers alone ----------

  /** `max(1, max_attempts)` attempts at most; the k-th is the first that does not raise, and returns `v`. */
  ghost predicate AnswerIs(h: Handler, n: Node, k: nat, v: string) {
    && 1 <= k && (k == 1 || k <= n.maxAttempts)
    && (forall j | 1 <= j < k :: h(n.id, j).Raises?)
    && h(n.id, k) == Returns(v)
  }

  /** Every node's output is what its handler returned. */
  ghost predicate OutputIsAnswers(nodes: seq<Node>, h: Handler, output: map<string, Option<string>>) {
    && (forall x :: x in output <==> exists n :: n in nodes && n.id == x)
    && forall n | n in nodes :: exists k, v :: AnswerIs(h, n, k, v) && n.id in output && output[n.id] == Some(v)
  }

  /** Some node raised on every attempt it had, and this is the error of the last. */
  ghost predicate ErrorIsLast(nodes: seq<Node>, h: Handler, error: Option<string>) {
    exists n, k ::
      && n in nodes && 1 <= k && n.maxAttempts <= k && (k == 1 || k == n.maxAttempts)
      && (forall j | 1 <= j <= k :: h(n.id, j).Raises?)
      && error == Some(h(n.id, k).error)
  }

  /** The record of a completed node: the first returning attempt, its value, and the error of the attempt before. */
  lemma CompletedRecord(nodes: seq<Node>, h: Handler, s: States, n: Node) returns (k: nat, v: string)
    requires AtBoundary(nodes, h, s) && n in nodes && s[n.id].status == NodeCompleted
    ensures AnswerIs(h, n, k, v)
    ensures s[n.id] == NodeState(NodeCompleted, k, Some(v), if k == 1 then None else Some(h(n.id, k - 1).error))
  {
    assert StateAtBoundary(h, n, s[n.id]);
    EndIsFirstDecisive(h, n, 1, None);
    k, v := EndOf(h, n).attempts, EndOf(h, n).value;
    forall j | 1 <= j < k ensures h(n.id, j).Raises? {
      assert Raised(h, n, j);
    }
  }

  lemma CompletedMeans(nodes: seq<Node>, h: Handler, s: States)
    requires Resumable(nodes, h, s) && AllDone(s)
    ensures OutputIsAnswers(nodes, h, ResultsOf(s))
  {
    hide AttemptsFrom, StateAtBoundary;
    forall n | n in nodes
      ensures exists k, v :: AnswerIs(h, n, k, v) && n.id in ResultsOf(s) && ResultsOf(s)[n.id] == Some(v)
    {
      var k, v := CompletedRecord(nodes, h, s, n);
    }
  }

  lemma FailedMeans(nodes: seq<Node>, h: Handler, s: States, n: Node)
    requires Resumable(nodes, h, s) && n in nodes && s[n.id].status == NodeFailed
    ensures ErrorIsLast(nodes, h, s[n.id].error)
  {
    hide AttemptsFrom;
    assert StateAtBoundary(h, n, s[n.id]);
    EndIsFirstDecisive(h, n, 1, None);
    var k := EndOf(h, n).attempts;
    forall j | 1 <= j <= k ensures h(n.id, j).Raises? {
      assert j < k ==> Raised(h, n, j);
    }
  }

  function ExpectedOutput(nodes: seq<Node>, h: Handler): map<string, Option<string>> {
    map x | x in IdsOf(nodes) :: Closed(EndOfId(nodes, h, x)).result
  }

  function EndOfId(nodes: seq<Node>, h: Handler, x: string): NodeEnd {
    if nodes == [] then Aborted(0)
    else if nodes[0].id == x then EndOf(h, nodes[0])
    else EndOfId(nodes[1..], h, x)
  }

  lemma {:induction false} EndOfIdIs(nodes: seq<Node>, h: Handler, n: Node)
    requires UniqueIds(nodes) && n in nodes
    ensures EndOfId(nodes, h, n.id) == EndOf(h, n)
  {
    if nodes[0].id == n.id {
      SameNode(nodes, nodes[0], n);
    } else {
      EndOfIdIs(nodes[1..], h, n);
    }
  }

  function ResultsOf(s: States): map<string, Option<string>> {
    map x | x in s :: s[x].result
  }

  /** Any completed run, however it was interrupted, has the one output the handlers determine. */
  lemma CompletedOutput(nodes: seq<Node>, h: Handler, s: States)
    requires UniqueIds(nodes) && AtBoundary(nodes, h, s) && AllDone(s)
    ensures ResultsOf(s) == ExpectedOutput(nodes, h)
  {
    forall x | x in s ensures s[x].result == ExpectedOutput(nodes, h)[x] {
      var n :| n in nodes && n.id == x;
      assert StateAtBoundary(h, n, s[n.id]);
      EndOfIdIs(nodes, h, n);
    }
  }

  lemma ResumableOutput(nodes: seq<Node>, h: Handler, s: States)
    requires UniqueIds(nodes) && Resumable(nodes, h, s) && AllDone(s)
    ensures ResultsOf(s) == ExpectedOutput(nodes, h)
  {
    CompletedOutput(nodes, h, s);
  }

  lemma ResumableVerdict(nodes: seq<Node>, h: Handler, s: States)
    requires ValidDefinition(nodes) && Resumable(nodes, h, s)
    ensures AllDone(RunOut(nodes, h, s)) <==> forall n | n in nodes :: Succeeds(h, n)
  {
    CompletesIffAllSucceed(nodes, h, s);
  }

  // ---------- handler calls ----------

  /** Upper bound on the handler calls still to come. */
  function CallBudget(nodes: seq<Node>, s: States): nat {
    if nodes == [] then 0
    else
      var n := nodes[0];
      (if n.id in s && s[n.id].status == NodePending then Budget(n) else 0) + CallBudget(nodes[1..], s)
  }

  function TotalBudget(nodes: seq<Node>): nat {
    if nodes == [] then 0 else Budget(nodes[0]) + TotalBudget(nodes[1..])
  }

  lemma {:induction false} FreshBudget(nodes: seq<Node>, s: States)
    requires forall n | n in nodes :: n.id in s && s[n.id] == FRESH
    ensures CallBudget(nodes, s) == TotalBudget(nodes)
  {
    if nodes != [] {
      assert forall n | n in nodes[1..] :: n in nodes;
      FreshBudget(nodes[1..], s);
    }
  }

  lemma {:induction false} CallBudgetElsewhere(nodes: seq<Node>, s: States, x: string, state: NodeState)
    requires x !in IdsOf(nodes)
    ensures CallBudget(nodes, s[x := state]) == CallBudget(nodes, s)
  {
    if nodes != [] {
      assert nodes[0].id in IdsOf(nodes);
      assert IdsOf(nodes[1..]) <= IdsOf(nodes);
      CallBudgetElsewhere(nodes[1..], s, x, state);
    }
  }

  /** Finishing a pending node spends exactly its own budget. */
  lemma {:induction false} CallBudgetSpends(nodes: seq<Node>, s: States, n: Node, state: NodeState)
    requires UniqueIds(nodes) && n in nodes && n.id in s
    requires s[n.id].status == NodePending && state.status != NodePending
    ensures CallBudget(nodes, s[n.id := state]) == CallBudget(nodes, s) - Budget(n)
  {
    if nodes[0].id == n.id {
      SameNode(nodes, nodes[0], n);
      forall m | m in nodes[1..] ensures m.id != n.id {
        var k :| 0 <= k < |nodes| - 1 && nodes[1..][k] == m;
        assert nodes[k + 1] == m;
      }
      CallBudgetElsewhere(nodes[1..], s, n.id, state);
    } else {
      CallBudgetSpends(nodes[1..], s, n, state);
    }
  }

  /** From state `s` to `t`, the calls made went to nodes PENDING in `s`, within their budgets. */
  ghost predicate Spends(nodes: seq<Node>, before: seq<string>, s: States, after: seq<string>, t: States) {
    && before <= after
    && |after| + CallBudget(nodes, t) <= |before| + CallBudget(nodes, s)
    && PendingIds(t) <= PendingIds(s)
    && forall i | |before| <= i < |after| :: after[i] in PendingIds(s)
  }

  lemma SpendsNothing(nodes: seq<Node>, calls: seq<string>, s: States)
    ensures Spends(nodes, calls, s, calls, s)
  {
  }

  lemma SpendsChain(nodes: seq<Node>, a: seq<string>, s: States, b: seq<string>, t: States, c: seq<string>, u: States)
    requires Spends(nodes, a, s, b, t) && Spends(nodes, b, t, c, u)
    ensures Spends(nodes, a, s, c, u)
  {
    forall i | |a| <= i < |c| ensures c[i] in PendingIds(s) {
      if i < |b| {
        assert c[i] == b[i];
      }
    }
  }

  function Repeat(id: string, k: nat): (calls: seq<string>)
    ensures |calls| == k && forall i | 0 <= i < k :: calls[i] == id
  {
    seq(k, _ => id)
  }

  lemma NoRepeat(calls: seq<string>, id: string)
    ensures calls + Repeat(id, 0) == calls
  {
  }

  lemma RepeatMore(calls: seq<string>, id: string, k: nat)
    ensures calls + Repeat(id, k) + [id] == calls + Repeat(id, k + 1)
  {
    assert Repeat(id, k) + [id] == Repeat(id, k + 1);
  }

  lemma NodeSpends(nodes: seq<Node>, before: seq<string>, s: States, n: Node, now: NodeState, made: nat)
    requires UniqueIds(nodes) && n in nodes && n.id in s && s[n.id] == FRESH
    requires now.status != NodePending && made <= Budget(n)
    ensures Spends(nodes, before, s, before + Repeat(n.id, made), s[n.id := now])
  {
    CallBudgetSpends(nodes, s, n, now);
    assert n.id in PendingIds(s);
    var after := before + Repeat(n.id, made);
    forall i | |before| <= i < |after| ensures after[i] == n.id {
      assert after[i] == Repeat(n.id, made)[i - |before|];
    }
  }
}

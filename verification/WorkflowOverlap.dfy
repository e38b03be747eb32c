/**
 What goes wrong when a run is resumed while an executor waits that had read
 another status than PAUSED: the woken executor and the new one start the same
 node.  The steps are those of the engine, taken by the two in turn.
 */
module WorkflowOverlap {
  import opened Options
  import opened WorkflowControl
  import opened WorkflowGraph
  import opened WorkflowStates
  import opened WorkflowOutcome
  import opened WorkflowEngine

  /**
   A resumed run with two executors, whatever it is as long as work is left:
   they can call the handler of the first ready node once each, although it is
   started with a whole attempt budget only once.
   */
  method BothStart(run: WorkflowRun, h: Handler) returns (n: Node)
    requires run.Valid() && run.waiting.Some? && run.waiting.value.status != Paused && !run.cancelEvent && !run.held
    requires run.stored == run.waiting.value.(status := Running)
    requires Unfinished(run.nodes, h, run.stored.states)
    modifies run
    ensures n in run.nodes && old(run.stored.states)[n.id] == FRESH && n.id in run.stored.states
    ensures run.calls == old(run.calls) + [n.id, n.id]
    ensures run.stored.states == old(run.stored.states)[n.id := NodeState(NodeRunning, 2, None, None)]
    ensures Budget(n) == 1 ==> !Spends(run.nodes, old(run.calls), old(run.stored.states), run.calls, run.stored.states)
  {
    hide Resumable, FailedNodes, ReadyNodes, AllDone, ValidDefinition, IsTrace, PastOnly, Spends, Launched, Budget, DependenciesDone;
    ghost var was := run.stored.states;
    WokenStartsNode(run.nodes, h, run.waiting.value, false);
    WokenStartsNode(run.nodes, h, run.stored, false);
    // The new executor reads the record; the woken one goes on with what it had read.
    var read, waits := run.ReadAndWait();
    var woken := run.PassWait(run.waiting.value);
    var fresh_ := run.PassWait(read);
    n := woken.ready[0];
    assert n in woken.ready;
    UnfinishedIsFresh(run.nodes, h, was, n);
    LaunchedTwice(run.stored, n.id);
    run.Launch(n);
    var mine := run.stored.states[n.id];
    run.Launch(fresh_.ready[0]);
    var other := run.stored.states[n.id];
    var first := run.CallHandler(n, mine, h);
    var second := run.CallHandler(n, other, h);
    if Budget(n) == 1 {
      TwoCallsOverspend(run.nodes, old(run.calls), was, n, run.stored.states);
    }
  }

  lemma LaunchedTwice(run: Record, id: string)
    requires id in run.states && run.states[id] == FRESH
    ensures id in Launched(run, id).states
    ensures Launched(Launched(run, id), id).states == run.states[id := NodeState(NodeRunning, 2, None, None)]
  {
  }

  lemma UnfinishedIsFresh(nodes: seq<Node>, h: Handler, s: States, n: Node)
    requires Unfinished(nodes, h, s) && n in ReadyNodes(nodes, s)
    ensures n in nodes && n.id in s && s[n.id] == FRESH && DependenciesDone(s, n)
  {
    ReadyIsFresh(nodes, h, s, n);
  }

  lemma TwoCallsOverspend(nodes: seq<Node>, calls: seq<string>, s: States, n: Node, t: States)
    requires ValidDefinition(nodes) && n in nodes && n.id in s && s[n.id] == FRESH && Budget(n) == 1
    requires n.id in t && t == s[n.id := t[n.id]] && t[n.id].status != NodePending
    ensures !Spends(nodes, calls, s, calls + [n.id, n.id], t)
  {
    CallBudgetSpends(nodes, s, n, t[n.id]);
  }

  // ---------- a run that gets there ----------

  const A := Node("a", "work", [], 2)
  const B := Node("b", "work", [], 1)

  function Busy(id: string, attempt: nat): Outcome {
    if id == "a" && attempt == 1 then WorkflowOutcome.Raises("busy") else Returns("done")
  }

  /** The fifth await is the sleep after the first attempt at `a`. */
  function PauseInSleep(t: nat): Request {
    if t == 4 then AskPause else Quiet
  }

  lemma TwoNodesValid()
    ensures ValidDefinition([A, B])
  {
    var nodes := [A, B];
    assert IdsOf(nodes) == {"a", "b"} by {
      assert A in nodes && B in nodes;
    }
    GraphOfNode(nodes, A);
    GraphOfNode(nodes, B);
    TopologicalIsAcyclic(GraphOf(nodes), ["a", "b"]);
  }

  lemma EndsOfBusy()
    ensures EndOf(Busy, A) == Done(2, "done", Some("busy")) && EndOf(Busy, B) == Done(1, "done", None)
    ensures AttemptsFrom(Busy, A, 2, Some("busy")) == Done(2, "done", Some("busy"))
  {
    AttemptUnfolds(Busy, A, 2, Some("busy"));
    AttemptUnfolds(Busy, A, 1, None);
    AttemptUnfolds(Busy, B, 1, None);
  }

  lemma PausedOnce(a: Control, b: Control)
    requires Obeyed(PauseInSleep, a, b) && !b.cancelEvent && a.status == Running && a.awaits <= 4 < b.awaits && 4 in b.naps
    ensures b.status == Running && b.held
  {
    assert PauseInSleep(4) == AskPause;
  }

  lemma NotPaused(a: Control, b: Control)
    requires Obeyed(PauseInSleep, a, b) && !a.cancelEvent && a.status == Running && (b.awaits <= 4 || 4 < a.awaits)
    ensures b.status == Running && b.held == a.held && !b.cancelEvent
  {
  }

  function Midway(a: NodeState): Record {
    Record(Running, map["a" := a, "b" := FRESH], map[], None)
  }

  lemma FreshTwo()
    ensures FreshStates([A, B]) == map["a" := FRESH, "b" := FRESH]
  {
    assert A in [A, B] && B in [A, B];
  }

  /** The first node is started. */
  method FirstStart() returns (run: WorkflowRun)
    ensures fresh(run) && run.Valid() && run.nodes == [A, B] && run.maxConcurrency == 1
    ensures run.stored == Midway(NodeState(NodeRunning, 1, None, None)) && run.calls == []
    ensures run.Now() == Control(3, false, Running, false, {}) && run.waiting == None
  {
    hide ValidDefinition, IsTrace, PastOnly, Obeyed, CancelObeyed, FreshStates, ReadyNodes, InFlight;
    TwoNodesValid();
    FreshTwo();
    run := new WorkflowRun([A, B], 1, {"work"});
    run.Begin(PauseInSleep);
    run.Await(PauseInSleep);
    var first, waits := run.ReadAndWait();
    run.Launch(A);
    run.Await(PauseInSleep);
  }

  /** The first attempt raises; the run is paused and the pause lost during the sleep. */
  method FirstSleep() returns (run: WorkflowRun, state: NodeState)
    ensures fresh(run) && run.Valid() && run.nodes == [A, B] && run.maxConcurrency == 1
    ensures state == NodeState(NodeRunning, 2, None, Some("busy"))
    ensures run.stored == Midway(state) && run.calls == ["a"]
    ensures run.Now() == Control(5, false, Running, true, {4}) && run.waiting == None
  {
    hide ValidDefinition, IsTrace, PastOnly, Obeyed, CancelObeyed, AttemptsFrom;
    EndsOfBusy();
    run := FirstStart();
    ghost var before := run.Now();
    ghost var was := run.stored;
    var exit;
    exit, state := run.AttemptOnce(was, A, run.stored.states["a"], Busy, PauseInSleep);
    FirstAttemptRaises();
    NoCancel(before, run.Now());
    PausedOnce(before, run.Now());
    assert was.states["a" := state] == map["a" := state, "b" := FRESH];
  }

  lemma FirstAttemptRaises()
    ensures AttemptsFrom(Busy, A, 1, None).attempts == 2 && Busy("a", 1) != SelfCancels
  {
    EndsOfBusy();
  }

  lemma NoCancel(a: Control, b: Control)
    requires Obeyed(PauseInSleep, a, b) && !a.cancelEvent
    ensures !b.cancelEvent
  {
  }

  /** The executor waits, having read RUNNING, with `a` done and `b` untouched. */
  method PausedInBackOff() returns (run: WorkflowRun)
    ensures fresh(run) && run.Valid() && run.nodes == [A, B] && run.maxConcurrency == 1
    ensures run.stored == Midway(Closed(EndOf(Busy, A))) && run.calls == ["a", "a"]
    ensures !run.cancelEvent && run.awaits == 7 && run.waiting == Some(run.stored)
  {
    hide ValidDefinition, IsTrace, PastOnly, Obeyed, CancelObeyed, AttemptsFrom;
    EndsOfBusy();
    var state;
    run, state := FirstSleep();
    ghost var paused := run.Now();
    ghost var was := run.stored;
    var exit;
    exit, state := run.AttemptOnce(was, A, state, Busy, PauseInSleep);
    NotPaused(paused, run.Now());
    run.Await(PauseInSleep);
    var read, held := run.ReadAndWait();
    assert was.states["a" := state] == map["a" := state, "b" := FRESH];
  }

  /** And on to both executors calling `b`, which may be attempted once. */
  method CalledTwice() returns (run: WorkflowRun)
    ensures run.nodes == [A, B] && B.maxAttempts == 1
    ensures run.calls == ["a", "a", "b", "b"]
    ensures "b" in run.stored.states && run.stored.states["b"].attempts == 2
  {
    hide ValidDefinition, IsTrace, PastOnly, Obeyed, AttemptsFrom, Resumable;
    run := PausedInBackOff();
    var states := run.stored.states;
    BusyStates(states);
    var raised, overlap := run.ResumeWorkflow(Busy, PauseInSleep);
    var n := BothStart(run, Busy);
  }

  lemma BusyStates(s: States)
    requires s == map["a" := Closed(EndOf(Busy, A)), "b" := FRESH]
    ensures Unfinished([A, B], Busy, s) && Resumable([A, B], Busy, s)
    ensures forall n | n in [A, B] && s[n.id] == FRESH :: n == B
  {
    EndsOfBusy();
    HeadIsMember(FailedNodes([A, B], s));
  }

  lemma HeadIsMember(ns: seq<Node>)
    ensures ns != [] ==> ns[0] in ns
  {
  }
}

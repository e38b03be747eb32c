/**
 The checkpointed executor of one run.  Every `await` of the source is a point
 where the other coroutines may pause or cancel the run; `requests` says what
 they ask for at each such point, and `Await` carries it out.  An executor that
 meets a cleared pause event waits, holding the record it read; resuming the
 run wakes it beside the new executor.
 */
module WorkflowEngine {
  import opened Options
  import opened WorkflowControl
  import opened WorkflowGraph
  import opened WorkflowStates
  import opened WorkflowOutcome

  /** The record kept in storage; every read of the source yields a copy of it. */
  datatype Record = Record(
    status: RunStatus,
    states: States,
    output: map<string, Option<string>>,
    error: Option<string>)

  datatype AttemptExit = Retry | Ended | Stopped
  datatype NodeExit = NodeFinished | NodeCancelRaised | HandlerMissing

  /** `Waits`: the executor has not ended, it waits for the pause event with the record it has read. */
  datatype LoopExit = Terminal | Returned | Waits | LoopCancelRaised | LoopHandlerMissing

  /** What an executor does with the record it has read, once the pause event is set. */
  datatype Next = Unwinds | Quits | Fails(node: Node) | Finishes | Idles | Starts(ready: seq<Node>)

  function AfterWait(nodes: seq<Node>, run: Record, cancelEvent: bool): Next {
    if cancelEvent then Unwinds
    else if run.status == Paused then Quits
    else if FailedNodes(nodes, run.states) != [] then Fails(FailedNodes(nodes, run.states)[0])
    else if AllDone(run.states) then Finishes
    else if ReadyNodes(nodes, run.states) == [] then Idles
    else Starts(ReadyNodes(nodes, run.states))
  }

  /** Some node is left to run, and none has failed. */
  ghost predicate Unfinished(nodes: seq<Node>, h: Handler, s: States) {
    Resumable(nodes, h, s) && FailedNodes(nodes, s) == [] && !AllDone(s)
  }

  /**
   An executor with work left ends on waking exactly when it had read PAUSED or
   the run was cancelled; otherwise it starts a node.
   */
  lemma WokenStartsNode(nodes: seq<Node>, h: Handler, run: Record, cancelEvent: bool)
    requires ValidDefinition(nodes) && Unfinished(nodes, h, run.states)
    ensures AfterWait(nodes, run, cancelEvent) in {Unwinds, Quits} <==> run.status == Paused || cancelEvent
    ensures !(run.status == Paused || cancelEvent) ==> AfterWait(nodes, run, cancelEvent) == Starts(ReadyNodes(nodes, run.states))
    ensures ReadyNodes(nodes, run.states) != []
  {
    NotHalted(nodes, h, run.states);
    BoundaryAdvances(nodes, h, run.states);
  }

  /** The record after a node was started: nothing checks that it was still PENDING. */
  function Launched(run: Record, id: string): Record
    requires id in run.states
  {
    var state := run.states[id];
    run.(states := run.states[id := state.(status := NodeRunning, attempts := state.attempts + 1, error := None)])
  }

  class WorkflowRun {
    const nodes: seq<Node>
    const maxConcurrency: int
    const handlers: set<string>        // registered handler names
    var stored: Record
    var cancelEvent: bool
    var held: bool                     // the pause event is cleared
    var waiting: Option<Record>        // an executor waits for the pause event, having read this
    var awaits: nat                    // await points passed so far
    ghost var naps: set<nat>           // the awaits that were the sleep of a back-off
    ghost var saved: seq<States>       // node states of every save, in order
    ghost var calls: seq<string>       // nodes whose handler was called, in order

    /** Every save so far was a legal move on the one before, starting from all PENDING. */
    ghost predicate Valid()
      reads this
    {
      && ValidDefinition(nodes) && IsTrace(nodes, saved) && saved[|saved| - 1] == stored.states
      && PastOnly(naps, awaits)
    }

    constructor (nodes: seq<Node>, maxConcurrency: int, handlers: set<string>)
      requires ValidDefinition(nodes)
      ensures Valid() && this.nodes == nodes && this.maxConcurrency == maxConcurrency && this.handlers == handlers
      ensures stored == Record(Queued, FreshStates(nodes), map[], None)
      ensures !cancelEvent && !held && waiting == None && awaits == 0 && naps == {} && calls == []
    {
      this.nodes, this.maxConcurrency, this.handlers := nodes, maxConcurrency, handlers;
      stored := Record(Queued, FreshStates(nodes), map[], None);
      cancelEvent, held, waiting, awaits := false, false, None, 0;
      saved, calls, naps := [FreshStates(nodes)], [], {};
    }

    method SaveRun(run: Record)
      modifies `stored, `saved
      ensures stored == run && saved == old(saved) + [run.states]
      ensures old(Valid()) && Step(nodes, old(stored.states), run.states) ==> Valid()
    {
      if Valid() && Step(nodes, stored.states, run.states) {
        TraceExtends(nodes, saved, run.states);
      }
      stored := run;
      saved := saved + [run.states];
    }

    method PauseWorkflow()
      requires Valid()
      modifies `stored, `saved, `held
      ensures Valid()
      ensures old(stored.status) == Running ==> stored == old(stored).(status := Paused) && held
      ensures old(stored.status) != Running ==> unchanged(this)
      ensures old(saved) <= saved
    {
      var run := stored;
      if run.status == Running {
        run := run.(status := Paused);
        held := true;
        SaveRun(run);
      }
    }

    method CancelWorkflow()
      requires Valid()
      modifies `stored, `saved, `cancelEvent
      ensures Valid() && cancelEvent && stored == old(stored).(status := Cancelled)
      ensures old(saved) <= saved
    {
      cancelEvent := true;
      SaveRun(stored.(status := Cancelled));
    }

    ghost function Now(): Control
      reads this
    {
      Control(awaits, cancelEvent, stored.status, held, naps)
    }

    twostate predicate ObeysCancel(requests: Requests)
      reads this
    {
      CancelObeyed(requests, old(Now()), Now())
    }

    twostate predicate Obeys(requests: Requests)
      reads this
    {
      Obeyed(requests, old(Now()), Now())
    }

    /** Give up control once: another coroutine may pause or cancel this run. */
    method Await(requests: Requests)
      requires Valid()
      modifies `stored, `saved, `cancelEvent, `held, `awaits
      ensures Valid() && awaits == old(awaits) + 1 && old(saved) <= saved
      ensures stored == old(stored).(status := stored.status)
      ensures OneAwait(requests, old(Now()), Now())
      ensures Obeys(requests)
    {
      hide IsTrace, ValidDefinition, PastOnly, Obeyed;
      ghost var start := Now();
      match requests(awaits) {
        case Quiet =>
        case AskPause => PauseWorkflow();
        case AskCancel => CancelWorkflow();
      }
      awaits := awaits + 1;
      PastGrows(naps, start.awaits);
      OneAwaitObeyed(requests, start, Now());
    }

    /** Save `run` with one node moved; only its status may differ from what is stored. */
    method SaveNode(run: Record, node: Node, state: NodeState)
      requires Valid() && node in nodes && node.id in stored.states
      requires run == stored.(status := run.status)
      requires StateMove(node, run.states, run.states[node.id], state)
      modifies `stored, `saved
      ensures Valid() && stored == run.(states := run.states[node.id := state])
      ensures old(saved) <= saved
    {
      var states := run.states[node.id := state];
      assert NodeMove(node, run.states, states);
      SaveRun(run.(states := states));
    }

    /** The stored record is `was`, up to its status and the state `now` of one node. */
    ghost predicate Holds(was: Record, id: string, now: NodeState)
      reads this
    {
      stored == was.(status := stored.status, states := was.states[id := now])
    }

    /**
     Save the error, sleep, and save the node for its next attempt: the record
     read before the sleep, over whatever happened meanwhile.
     */
    method BackOff(ghost was: Record, node: Node, ghost state: NodeState, raised: NodeState, requests: Requests)
      returns (now: NodeState)
      requires Valid() && node in nodes && node.id in was.states && Holds(was, node.id, state)
      requires state.status == NodeRunning && raised == state.(error := raised.error) && state.attempts < node.maxAttempts
      modifies this
      ensures Valid() && Holds(was, node.id, now) && Obeys(requests) && old(saved) <= saved
      ensures now == raised.(attempts := raised.attempts + 1) && calls == old(calls) && waiting == old(waiting)
      ensures awaits == old(awaits) + 1 && naps == old(naps) + {old(awaits)}
      ensures old(cancelEvent) ==> cancelEvent
    {
      hide PastOnly, IsTrace, ValidDefinition, Obeyed;
      ghost var start := Now();
      var run := stored;
      SaveNode(run, node, raised);
      run := run.(states := run.states[node.id := raised]);
      Await(requests);
      NapObeyed(requests, start, Now());
      now := raised.(attempts := raised.attempts + 1);
      SaveNode(run, node, now);
      PastGrows(naps, start.awaits);
      naps := naps + {start.awaits};
    }

    /** Start a node: read the record, mark the node RUNNING, save. */
    method Launch(node: Node)
      requires node in nodes && node.id in stored.states
      modifies `stored, `saved
      ensures stored == Launched(old(stored), node.id) && old(saved) <= saved
      ensures stored.states[node.id].status == NodeRunning && stored.states[node.id].error == None
      ensures stored.states[node.id].attempts == old(stored.states)[node.id].attempts + 1
      ensures old(Valid()) && old(stored.states)[node.id] == FRESH && DependenciesDone(old(stored.states), node) ==> Valid()
    {
      hide PastOnly, IsTrace, ValidDefinition;
      var run := stored;
      var state := run.states[node.id];
      state := state.(status := NodeRunning, attempts := state.attempts + 1, error := None);
      run := run.(states := run.states[node.id := state]);
      if stored.states[node.id] == FRESH && DependenciesDone(stored.states, node) {
        assert NodeMove(node, stored.states, run.states);
      }
      SaveRun(run);
    }

    /** The handler call itself, for an executor that holds `state` as the node's record. */
    method CallHandler(node: Node, state: NodeState, h: Handler) returns (outcome: Outcome)
      requires !cancelEvent
      modifies `calls
      ensures calls == old(calls) + [node.id] && outcome == h(node.id, state.attempts)
    {
      outcome := h(node.id, state.attempts);
      calls := calls + [node.id];
    }

    /** One turn of the retry loop: `state` is the node's RUNNING record. */
    method AttemptOnce(ghost was: Record, node: Node, state: NodeState, h: Handler, requests: Requests)
      returns (exit: AttemptExit, now: NodeState)
      requires Valid() && node in nodes && node.id in was.states && Holds(was, node.id, state)
      requires state.status == NodeRunning && state.result == None && 1 <= state.attempts <= Budget(node)
      modifies this
      ensures Valid() && Holds(was, node.id, now) && Obeys(requests) && old(saved) <= saved
      ensures old(cancelEvent) ==> cancelEvent
      ensures naps == if exit == Retry then old(naps) + {old(awaits) + 1} else old(naps)
      ensures !old(cancelEvent) ==> awaits == old(awaits) + if exit == Retry then 2 else 1
      ensures waiting == old(waiting)
      ensures exit == Retry ==>
                && Raised(h, node, state.attempts) && state.attempts < node.maxAttempts
                && now == state.(attempts := state.attempts + 1, error := Some(h(node.id, state.attempts).error))
                && calls == old(calls) + [node.id]
      ensures exit == Ended ==>
                && !AttemptsFrom(h, node, state.attempts, state.error).Aborted?
                && AttemptsFrom(h, node, state.attempts, state.error).attempts == state.attempts
                && now == Closed(AttemptsFrom(h, node, state.attempts, state.error))
                && calls == old(calls) + [node.id]
      ensures exit == Stopped ==>
                && now == state.(status := NodeCancelled, error := Some("cancelled"))
                && if old(cancelEvent) then calls == old(calls)
                   else calls == old(calls) + [node.id] && h(node.id, state.attempts) == SelfCancels
    {
      hide PastOnly, IsTrace, ValidDefinition, AttemptsFrom, Obeyed;
      AttemptUnfolds(h, node, state.attempts, state.error);
      ghost var start := Now();
      ObeyedSelf(requests, start);
      now := state;
      var run := stored;
      if cancelEvent {
        now := now.(status := NodeCancelled, error := Some("cancelled"));
        SaveNode(run, node, now);
        return Stopped, now;
      }
      var outcome := CallHandler(node, state, h);
      Await(requests);
      ghost var called := Now();
      run := stored;
      match outcome {
        case Returns(value) =>
          now := now.(status := NodeCompleted, result := Some(value));
          SaveNode(run, node, now);
          exit := Ended;
        case SelfCancels =>
          now := now.(status := NodeCancelled, error := Some("cancelled"));
          SaveNode(run, node, now);
          exit := Stopped;
        case Raises(error) =>
          now := now.(error := Some(error));
          if now.attempts < node.maxAttempts {
            now := BackOff(was, node, state, now, requests);
            ObeyedChain(requests, start, called, Now());
            exit := Retry;
          } else {
            now := now.(status := NodeFailed);
            SaveNode(run, node, now);
            exit := Ended;
          }
      }
    }

    /**
     Attempt a ready node until it returns, is cancelled or has used its
     attempts.  Whatever the pauses and cancels in between, a finished node ends
     exactly as its handler dictates.
     */
    method ExecuteNode(node: Node, h: Handler, requests: Requests) returns (exit: NodeExit)
      requires Valid() && node in nodes
      requires node.id in stored.states && stored.states[node.id] == FRESH && DependenciesDone(stored.states, node)
      modifies this
      ensures Valid() && Obeys(requests) && old(saved) <= saved && waiting == old(waiting)
      ensures exit == HandlerMissing <==> node.handler !in handlers
      ensures exit == HandlerMissing ==> unchanged(this)
      ensures exit == NodeFinished ==>
                && !EndOf(h, node).Aborted?
                && Holds(old(stored), node.id, Closed(EndOf(h, node)))
                && calls == old(calls) + Repeat(node.id, EndOf(h, node).attempts)
      ensures exit == NodeCancelRaised ==>
                && (exists now :: Holds(old(stored), node.id, now) && now.status == NodeCancelled
                     && (!cancelEvent ==> now == Closed(EndOf(h, node))))
                && exists k :: 0 <= k <= Budget(node) && calls == old(calls) + Repeat(node.id, k)
    {
      hide PastOnly, IsTrace, ValidDefinition, Obeyed, AttemptsFrom, Repeat, StateMove;
      ghost var start := Now();
      ObeyedSelf(requests, start);
      NoRepeat(calls, node.id);
      if node.handler !in handlers {
        return HandlerMissing;
      }
      ghost var was := stored;
      Launch(node);
      var state := stored.states[node.id];
      Await(requests);
      var turn := Retry;
      ghost var made := 0;
      while turn == Retry
        invariant Valid() && Holds(was, node.id, state) && Obeys(requests) && old(saved) <= saved && waiting == old(waiting)
        invariant calls == old(calls) + Repeat(node.id, made)
        invariant turn == Retry ==>
            && state.status == NodeRunning && state.result == None
            && 1 <= state.attempts <= Budget(node)
            && AttemptsFrom(h, node, state.attempts, state.error) == EndOf(h, node)
            && made == state.attempts - 1
        invariant turn == Ended ==>
            && !EndOf(h, node).Aborted?
            && state == Closed(EndOf(h, node))
            && made == EndOf(h, node).attempts
        invariant turn == Stopped ==>
            && state.status == NodeCancelled
            && (!cancelEvent ==> state == Closed(EndOf(h, node)))
            && made <= Budget(node)
        decreases turn == Retry, Budget(node) - state.attempts
      {
        ghost var before, control := calls, Now();
        AttemptUnfolds(h, node, state.attempts, state.error);
        turn, state := AttemptOnce(was, node, state, h, requests);
        ObeyedChain(requests, start, control, Now());
        if calls != before {
          RepeatMore(old(calls), node.id, made);
          made := made + 1;
        }
      }
      exit := if turn == Ended then NodeFinished else NodeCancelRaised;
    }

    /** Read the record, then wait if the pause event is cleared. */
    method ReadAndWait() returns (run: Record, waits: bool)
      modifies `waiting
      ensures run == stored && waits == held && waiting == if held then Some(stored) else old(waiting)
    {
      run, waits := stored, held;
      if waits {
        waiting := Some(run);
      }
    }

    /**
     The executor goes on with the record it has read: it ends, stores the
     run's end, or finds the nodes to start.
     */
    method PassWait(run: Record) returns (next: Next)
      modifies `stored, `saved
      ensures next == AfterWait(nodes, run, cancelEvent) && old(saved) <= saved
      ensures stored == match next
        case Fails(n) => run.(status := Failed, error := if n.id in run.states then run.states[n.id].error else None)
        case Finishes => run.(status := Completed, output := ResultsOf(run.states))
        case _ => old(stored)
      ensures next.Fails? || next.Finishes? || unchanged(this)
      ensures old(Valid()) && run.states == old(stored.states) ==> Valid()
    {
      hide PastOnly, IsTrace, ValidDefinition;
      if cancelEvent {
        return Unwinds;
      }
      if run.status == Paused {
        return Quits;
      }
      var failed := FailedNodes(nodes, run.states);
      if failed != [] {
        assert failed[0] in failed;
        SaveRun(run.(status := Failed, error := run.states[failed[0].id].error));
        return Fails(failed[0]);
      }
      if AllDone(run.states) {
        SaveRun(run.(status := Completed, output := ResultsOf(run.states)));
        return Finishes;
      }
      var ready := ReadyNodes(nodes, run.states);
      return if ready == [] then Idles else Starts(ready);
    }

    /** The last part of the loop body: start the first ready node. */
    method ExecuteBatch(ready: seq<Node>, h: Handler, requests: Requests) returns (exit: NodeExit)
      requires Valid() && maxConcurrency <= 1
      requires Resumable(nodes, h, stored.states) && !Halted(stored.states) && !AllDone(stored.states)
      requires ready == ReadyNodes(nodes, stored.states) != []
      modifies this
      ensures Valid() && Obeys(requests) && old(saved) <= saved && waiting == old(waiting)
      ensures Spends(nodes, old(calls), old(stored.states), calls, stored.states)
      ensures exit == NodeFinished ==>
                && Resumable(nodes, h, stored.states)
                && RunOut(nodes, h, stored.states) == RunOut(nodes, h, old(stored.states))
                && |PendingIds(stored.states)| < |PendingIds(old(stored.states))|
      ensures exit == HandlerMissing ==> unchanged(this) && exists n :: n in nodes && n.handler !in handlers
      ensures exit == NodeCancelRaised && !cancelEvent ==> exists n :: n in nodes && EndOf(h, n).Aborted?
    {
      hide PastOnly, IsTrace, RunOut, CallBudget, AttemptsFrom, AtBoundary, AtMostOneEnded, Obeyed;
      ghost var was := stored.states;
      var concurrency := if maxConcurrency < 1 then 1 else maxConcurrency;
      var batch := ready[..concurrency];
      var node := batch[0];
      assert node in ready;
      ReadyIsFresh(nodes, h, was, node);
      exit := ExecuteNode(node, h, requests);
      match exit {
        case HandlerMissing =>
        case NodeFinished =>
          BoundaryFinishes(nodes, h, was, node);
          EndIsFirstDecisive(h, node, 1, None);
          NodeSpends(nodes, old(calls), was, node, Closed(EndOf(h, node)), EndOf(h, node).attempts);
        case NodeCancelRaised =>
          ghost var now :| Holds(old(stored), node.id, now) && now.status == NodeCancelled
            && (!cancelEvent ==> now == Closed(EndOf(h, node)));
          ghost var k :| 0 <= k <= Budget(node) && calls == old(calls) + Repeat(node.id, k);
          NodeSpends(nodes, old(calls), was, node, now, k);
      }
    }

    /**
     Node after node until the run is terminal or cancelled, or the executor
     returns or waits.  The "nothing ready, sleep" branch is dead, and an
     executor that returns or waits leaves the run leading where the
     uninterrupted run leads.  Unless cancelled, an executor waits with another
     status than PAUSED exactly when every pause request fell in a back-off.
     */
    method ExecuteUntilTerminal(h: Handler, requests: Requests) returns (exit: LoopExit)
      requires Valid() && maxConcurrency <= 1 && Resumable(nodes, h, stored.states) && waiting == None
      modifies this
      ensures Valid() && ObeysCancel(requests) && old(saved) <= saved
      ensures exit != Terminal ==> Obeys(requests)
      ensures Spends(nodes, old(calls), old(stored.states), calls, stored.states)
      ensures exit == Terminal ==>
                && Resumable(nodes, h, stored.states)
                && stored.states == RunOut(nodes, h, old(stored.states))
                && (stored.status == Completed ==> OutputIsAnswers(nodes, h, stored.output))
                && (stored.status == Failed ==> ErrorIsLast(nodes, h, stored.error))
                && if AllDone(stored.states) then stored.status == Completed && stored.output == ResultsOf(stored.states)
                   else stored.status == Failed && exists n :: OnlyFailure(h, nodes, stored.states, n) && stored.error == stored.states[n.id].error
      ensures exit == Returned || exit == Waits || exit == LoopHandlerMissing ==>
                && Resumable(nodes, h, stored.states)
                && RunOut(nodes, h, stored.states) == RunOut(nodes, h, old(stored.states))
      ensures exit == Returned ==> !held && stored.status == Paused
      ensures if exit == Waits then held && waiting == Some(stored) else waiting == None
      ensures exit == LoopHandlerMissing ==> exists n :: n in nodes && n.handler !in handlers
      ensures exit == LoopCancelRaised && !cancelEvent ==> exists n :: n in nodes && EndOf(h, n).Aborted?
    {
      hide PastOnly, IsTrace, ValidDefinition, Spends, RunOut, Resumable, OnlyFailure, AllDone, Halted, CancelObeyed, Obeyed, PausesObeyed, NapsKept, AfterWait,
        ReadyNodes, FailedNodes, OneAwait, InFlight, ResultsOf, OutputIsAnswers, ErrorIsLast;
      SpendsNothing(nodes, calls, stored.states);
      ghost var start := Now();
      ObeyedSelf(requests, start);
      while true
        invariant Valid() && Obeys(requests) && old(saved) <= saved && waiting == None
        invariant Resumable(nodes, h, stored.states)
        invariant RunOut(nodes, h, stored.states) == RunOut(nodes, h, old(stored.states))
        invariant Spends(nodes, old(calls), old(stored.states), calls, stored.states)
        decreases |PendingIds(stored.states)|
      {
        ghost var head := Now();
        Await(requests);
        ghost var woken := Now();
        ObeyedChain(requests, start, head, woken);
        ObeyedMeans(requests, start, woken);
        var run, waits := ReadAndWait();
        if waits {
          return Waits;
        }
        BoundaryNext(nodes, h, run, cancelEvent);
        var next := PassWait(run);
        StatusIsFree(requests, start, woken, Now());
        if next == Unwinds {
          return LoopCancelRaised;
        }
        if next == Quits {
          return Returned;
        }
        if next.Fails? || next.Finishes? {
          return Terminal;
        }
        ghost var mid := calls;
        var end := ExecuteBatch(next.ready, h, requests);
        ObeyedChain(requests, start, woken, Now());
        ObeyedMeans(requests, start, Now());
        SpendsChain(nodes, old(calls), old(stored.states), mid, run.states, calls, stored.states);
        if end == HandlerMissing {
          return LoopHandlerMissing;
        }
        if end == NodeCancelRaised {
          return LoopCancelRaised;
        }
      }
    }

    /**
     Where a session that started from node states `was` may leave the run.
     COMPLETED and FAILED are the uninterrupted run's own end; anything that is
     not final can be resumed and still leads to that end.
     */
    ghost predicate Verdict(was: States, h: Handler, raised: bool)
      reads this
    {
      match stored.status
      case Completed =>
        && !raised && AllDone(stored.states) && stored.states == RunOut(nodes, h, was)
        && stored.output == ExpectedOutput(nodes, h) && OutputIsAnswers(nodes, h, stored.output)
      case Failed =>
        if raised then exists n :: n in nodes && n.handler !in handlers
        else
          && stored.states == RunOut(nodes, h, was) && ErrorIsLast(nodes, h, stored.error)
          && exists n :: OnlyFailure(h, nodes, stored.states, n) && stored.error == stored.states[n.id].error
      case Cancelled =>
        !raised && (cancelEvent || exists n :: n in nodes && EndOf(h, n).Aborted?)
      case _ =>
        !raised && Resumable(nodes, h, stored.states) && RunOut(nodes, h, stored.states) == RunOut(nodes, h, was)
    }

    /** Nothing outside the handlers' own results can stop the run. */
    ghost predicate Unhindered(h: Handler) {
      forall n | n in nodes :: n.handler in handlers && !EndOf(h, n).Aborted?
    }

    /** Set the run RUNNING, announce it, and set the pause event. */
    method Begin(requests: Requests)
      requires Valid()
      modifies `stored, `saved, `cancelEvent, `held, `awaits
      ensures Valid() && old(saved) <= saved && awaits == old(awaits) + 1
      ensures stored == old(stored).(status := stored.status) && InFlight(stored.status, cancelEvent) && !held
      ensures cancelEvent <==> old(cancelEvent) || requests(old(awaits)) == AskCancel
      ensures !cancelEvent ==> stored.status == if requests(old(awaits)) == AskPause then Paused else Running
      ensures CancelObeyed(requests, old(Now()), Now())
    {
      hide PastOnly, IsTrace, ValidDefinition, Obeyed;
      ghost var start := Now();
      SaveRun(stored.(status := Running));
      ghost var running := Now();
      Await(requests);
      ObeyedMeans(requests, running, Now());
      held := false;
    }

    /** A cancellation is stored as CANCELLED; a missing handler as FAILED, and raised again. */
    method StoreExit(exit: LoopExit) returns (raised: bool)
      requires Valid()
      modifies `stored, `saved
      ensures Valid() && old(saved) <= saved && raised == (exit == LoopHandlerMissing)
      ensures stored == match exit
        case LoopCancelRaised => old(stored).(status := Cancelled)
        case LoopHandlerMissing => old(stored).(status := Failed, error := Some("Workflow handler not registered"))
        case _ => old(stored)
    {
      raised := false;
      match exit {
        case LoopCancelRaised =>
          SaveRun(stored.(status := Cancelled));
        case LoopHandlerMissing =>
          SaveRun(stored.(status := Failed, error := Some("Workflow handler not registered")));
          raised := true;
        case _ =>
      }
    }

    /** The one executor of a run, until it ends or waits, and how its end is stored. */
    method RunSession(h: Handler, requests: Requests) returns (raised: bool)
      requires Valid() && maxConcurrency <= 1 && Resumable(nodes, h, stored.states) && waiting == None
      requires InFlight(stored.status, cancelEvent) && !held
      modifies this
      ensures Valid() && old(saved) <= saved && ObeysCancel(requests)
      ensures Spends(nodes, old(calls), old(stored.states), calls, stored.states)
      ensures Verdict(old(stored.states), h, raised)
      ensures waiting.Some? ==> held && waiting == Some(stored)
      ensures waiting.Some? && !cancelEvent ==> old(stored.status) == Running && WaitsForReason(requests, old(Now()))
      ensures old(stored.status) == Running && !old(cancelEvent) && Unhindered(h) && Silent(requests, old(awaits), awaits) ==>
                stored.status == if forall n | n in nodes :: Succeeds(h, n) then Completed else Failed
    {
      hide PastOnly, IsTrace, Spends, Acyclic, RunOut, Resumable, OnlyFailure, AllDone, Succeeds, Silent, CancelObeyed, Obeyed, PausesObeyed, NapsKept, OutputIsAnswers, ErrorIsLast;
      ghost var start := Now();
      ResumableVerdict(nodes, h, stored.states);
      var exit := ExecuteUntilTerminal(h, requests);
      ghost var end := Now();
      CancelMonotone(requests, start, end);
      if exit != Terminal {
        ObeyedMeans(requests, start, end);
      }
      if Silent(requests, start.awaits, end.awaits) && !start.cancelEvent {
        SilentNoCancel(requests, start, end);
        if exit != Terminal {
          SilentKeeps(requests, start, end, start.awaits, end.awaits);
        }
      }
      if exit == Waits && !cancelEvent {
        WaitingMeans(requests, start, end);
      }
      if exit == Terminal && stored.status == Completed {
        ResumableOutput(nodes, h, stored.states);
      }
      raised := StoreExit(exit);
      StatusIsFree(requests, start, end, Now());
    }

    /** Since `start` there was a pause request, and the waiting executor read RUNNING iff each fell in a back-off. */
    ghost predicate WaitsForReason(requests: Requests, start: Control)
      reads this
    {
      && waiting.Some?
      && PauseAsked(requests, start.awaits, awaits)
      && (waiting.value.status != Paused <==> OnlyBackOffPauses(requests, start.awaits, awaits, naps))
    }

    /** The waiting executor, woken after `requests` answered the next await, would not end at once. */
    ghost predicate WakesUp(requests: Requests)
      reads this
    {
      waiting.Some? && waiting.value.status != Paused && !cancelEvent && requests(awaits) != AskCancel
    }

    /**
     The pause event is set: an executor that waits goes on.  One that had read
     PAUSED returns, and on a cancelled run it stores CANCELLED; any other runs
     beside the executor to come.
     */
    method WakeWaiting() returns (overlap: bool)
      requires Valid()
      modifies `stored, `saved, `waiting
      ensures Valid() && old(saved) <= saved
      ensures overlap <==> old(waiting).Some? && old(waiting).value.status != Paused && !cancelEvent
      ensures overlap ==> unchanged(this)
      ensures !overlap ==> waiting == None
      ensures stored == if old(waiting).Some? && cancelEvent then old(stored).(status := Cancelled) else old(stored)
    {
      hide PastOnly, IsTrace, ValidDefinition, ReadyNodes, FailedNodes, AllDone;
      if waiting.None? {
        return false;
      }
      if !cancelEvent && waiting.value.status != Paused {
        return true;
      }
      var next := PassWait(waiting.value);
      if next == Unwinds {
        var raised := StoreExit(LoopCancelRaised);
      }
      waiting := None;
      return false;
    }

    /** Let the run go: RUNNING, the pause event set, and whoever waited woken. */
    method Release(requests: Requests) returns (overlap: bool)
      requires Valid()
      modifies `stored, `saved, `cancelEvent, `held, `awaits, `waiting
      ensures Valid() && old(saved) <= saved && awaits == old(awaits) + 1 && !held
      ensures stored == old(stored).(status := stored.status) && InFlight(stored.status, cancelEvent)
      ensures !cancelEvent ==> stored.status == if requests(old(awaits)) == AskPause then Paused else Running
      ensures cancelEvent <==> old(cancelEvent) || requests(old(awaits)) == AskCancel
      ensures overlap <==> old(WakesUp(requests))
      ensures waiting == if overlap then old(waiting) else None
      ensures CancelObeyed(requests, old(Now()), Now())
    {
      hide PastOnly, IsTrace, ValidDefinition, CancelObeyed, Obeyed;
      ghost var start := Now();
      Begin(requests);
      ghost var begun := Now();
      overlap := WakeWaiting();
      StatusIsFree(requests, start, begun, Now());
    }

    /**
     Start or resume the run.  Setting the pause event wakes an executor that
     waits; it ends at once exactly when it had read PAUSED or the run is
     cancelled, and then the new executor is alone: nodes that are not PENDING
     are never called again, and the run still leads where it led.  Otherwise
     two executors run the same nodes (`overlap`), and nothing more is promised
     than the state they start from.
     */
    method ResumeWorkflow(h: Handler, requests: Requests) returns (raised: bool, overlap: bool)
      requires Valid() && maxConcurrency <= 1
      requires stored.status !in {Completed, Cancelled, Failed} ==> Resumable(nodes, h, stored.states)
      modifies this
      ensures Valid() && old(saved) <= saved && ObeysCancel(requests)
      ensures overlap <==> old(stored.status) !in {Completed, Cancelled, Failed} && old(WakesUp(requests))
      ensures overlap ==>
                && !raised && stored == old(stored).(status := stored.status) && calls == old(calls) && !held && !cancelEvent
                && waiting == old(waiting) && stored.status == if requests(old(awaits)) == AskPause then Paused else Running
      ensures !overlap ==> Spends(nodes, old(calls), old(stored.states), calls, stored.states)
      ensures old(stored.status) in {Completed, Cancelled, Failed} ==> unchanged(this) && !raised
      ensures old(stored.status) !in {Completed, Cancelled, Failed} && !overlap ==>
                && Verdict(old(stored.states), h, raised)
                && (waiting.Some? ==> held && waiting == Some(stored))
                && (waiting.Some? && !cancelEvent ==> WaitsForReason(requests, old(Now())))
      ensures old(stored.status) !in {Completed, Cancelled, Failed} && !overlap && !old(cancelEvent) && Unhindered(h) && Silent(requests, old(awaits), awaits) ==>
                stored.status == if forall n | n in nodes :: Succeeds(h, n) then Completed else Failed
    {
      hide PastOnly, IsTrace, Spends, Resumable, Succeeds, Silent, CancelObeyed, Obeyed, AllDone, RunOut, OnlyFailure, OnlyBackOffPauses, PauseAsked, Verdict, Unhindered;
      ghost var start := Now();
      raised, overlap := false, false;
      if stored.status in {Completed, Cancelled, Failed} {
        SpendsNothing(nodes, calls, stored.states);
        ObeyedSelf(requests, start);
        ObeyedMeans(requests, start, start);
        return;
      }
      overlap := Release(requests);
      if overlap {
        return;
      }
      ghost var alone := Now();
      raised := RunSession(h, requests);
      CancelMonotone(requests, alone, Now());
      SessionFromStart(requests, start, alone, Now());
    }
  }

  /**
   `execute`: a fresh run.  Undisturbed it makes at most the sum of the nodes'
   attempt budgets in handler calls and ends COMPLETED or FAILED, as the
   handlers alone decide.
   */
  method Execute(nodes: seq<Node>, maxConcurrency: int, handlers: set<string>, h: Handler, requests: Requests)
    returns (run: WorkflowRun, raised: bool)
    requires ValidDefinition(nodes) && maxConcurrency <= 1
    ensures fresh(run) && run.Valid() && run.nodes == nodes && run.handlers == handlers
    ensures run.Verdict(FreshStates(nodes), h, raised)
    ensures |run.calls| + CallBudget(nodes, run.stored.states) <= TotalBudget(nodes)
    ensures run.cancelEvent ==> CancelAsked(requests, 0, run.awaits)
    ensures run.Unhindered(h) && Silent(requests, 0, run.awaits) ==>
              run.stored.status == if forall n | n in nodes :: Succeeds(h, n) then Completed else Failed
  {
    hide PastOnly, IsTrace, Acyclic, RunOut, Resumable, OnlyFailure, AllDone, Succeeds, OutputIsAnswers, ErrorIsLast;
    run := new WorkflowRun(nodes, maxConcurrency, handlers);
    FreshIsResumable(nodes, h);
    FreshBudget(nodes, FreshStates(nodes));
    var overlap;
    raised, overlap := run.ResumeWorkflow(h, requests);
  }

  /** In a run at a boundary there is always something to do with the record just read. */
  lemma BoundaryNext(nodes: seq<Node>, h: Handler, run: Record, cancelEvent: bool)
    requires ValidDefinition(nodes) && Resumable(nodes, h, run.states)
    ensures var next := AfterWait(nodes, run, cancelEvent);
      && next != Idles && (next == Unwinds <==> cancelEvent) && (next == Quits ==> run.status == Paused)
      && (next.Fails? || next.Finishes? ==> RunOut(nodes, h, run.states) == run.states)
      && (next.Fails? ==> OnlyFailure(h, nodes, run.states, next.node) && !AllDone(run.states) && next.node.id in run.states)
      && (next.Fails? ==> ErrorIsLast(nodes, h, run.states[next.node.id].error))
      && (next.Finishes? ==> AllDone(run.states) && OutputIsAnswers(nodes, h, ResultsOf(run.states)))
      && (next.Starts? ==> next.ready == ReadyNodes(nodes, run.states) != [] && !Halted(run.states) && !AllDone(run.states))
  {
    hide Resumable, OnlyFailure, RunOut, FailedNodes, ReadyNodes, AllDone, Halted, ValidDefinition, AtBoundary, OutputIsAnswers, ErrorIsLast;
    var failed := FailedNodes(nodes, run.states);
    if failed != [] {
      assert failed[0] in failed;
      FailureIsOnly(h, nodes, run.states, failed[0]);
      FailedMeans(nodes, h, run.states, failed[0]);
      RunOutStops(nodes, h, run.states);
    } else if AllDone(run.states) {
      CompletedMeans(nodes, h, run.states);
      RunOutStops(nodes, h, run.states);
    } else {
      NotHalted(nodes, h, run.states);
      ResumableAtBoundary(nodes, h, run.states);
      BoundaryAdvances(nodes, h, run.states);
    }
  }

  lemma ResumableAtBoundary(nodes: seq<Node>, h: Handler, s: States)
    requires Resumable(nodes, h, s)
    ensures AtBoundary(nodes, h, s)
  {
  }

  lemma WaitingMeans(requests: Requests, a: Control, b: Control)
    requires Obeyed(requests, a, b) && !b.cancelEvent && InFlight(a.status, a.cancelEvent) && !a.held && b.held
    ensures a.status == Running && PauseAsked(requests, a.awaits, b.awaits)
    ensures b.status != Paused <==> OnlyBackOffPauses(requests, a.awaits, b.awaits, b.naps)
  {
    CancelMonotone(requests, a, b);
  }
}

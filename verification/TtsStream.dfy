/**
 Parallel TTS generation: N instance threads take cue indices from a FIFO work
 queue and put their results on a done queue; one post-processing thread
 consumes it; the main thread joins the instances, raises the stop flag, joins
 the post thread and assembles the result list.  One action is one atomic access
 to shared state; any interleaving of actions is a run.
 */
module TtsStream {
  import opened Options

  datatype Reply = Reply(ok: bool, info: string)

  /** Where an instance thread stands in its loop. */
  datatype InstancePc =
    | AtCancelCheck
    | AtTake
    | Generating(i: nat, attempt: nat)
    | Storing(i: nat, r: Reply)
    | Putting(i: nat, r: Reply)
    | Exited

  datatype PostPc =
    | AtStopCheck
    | AtEmptyCheck
    | AtGet
    | Processing(i: nat, r: Reply)
    | Notifying(i: nat, r: Reply)
    | PostExited

  datatype MainPc = Joining(j: nat) | Stopping | JoiningPost | Collecting | Returned(list: seq<Reply>)

  datatype State = State(
    workQ: seq<nat>,
    threads: seq<InstancePc>,
    results: seq<Option<Reply>>,
    doneQ: seq<(nat, Reply)>,
    cancel: bool,
    stopPost: bool,
    post: PostPc,
    main: MainPc,
    puts: seq<(nat, Reply)>,      // every put on the done queue, in order
    processed: seq<(nat, Reply)>, // every post_process call
    notified: seq<(nat, Reply)>)  // every on_cue call

  datatype Action =
    | CheckCancel(k: nat) | Take(k: nat) | Skip(k: nat, r: Reply) | Call(k: nat, r: Reply)
    | Store(k: nat) | Put(k: nat)
    | CheckStop | CheckEmpty | Get | Process | Notify
    | Join | SetStop | JoinPost | Collect
    | Cancel

  function Range(lo: nat, hi: nat): (s: seq<nat>)
    requires lo <= hi
    ensures |s| == hi - lo && forall i | 0 <= i < |s| :: s[i] == lo + i
  {
    seq(hi - lo, i requires 0 <= i => lo + i)
  }

  /** All queued, all threads started. */
  function Start(cues: nat, instances: nat): State {
    State(Range(0, cues), seq(instances, _ => AtCancelCheck), seq(cues, _ => None), [], false, false,
          AtStopCheck, Joining(0), [], [], [])
  }

  predicate Enabled(s: State, a: Action) {
    match a
    case CheckCancel(k) => k < |s.threads| && s.threads[k] == AtCancelCheck
    case Take(k) => k < |s.threads| && s.threads[k] == AtTake
    case Skip(k, r) => k < |s.threads| && s.threads[k].Generating? && s.threads[k].attempt == 0 && r.ok
    case Call(k, r) => k < |s.threads| && s.threads[k].Generating?
    case Store(k) => k < |s.threads| && s.threads[k].Storing? && s.threads[k].i < |s.results|
    case Put(k) => k < |s.threads| && s.threads[k].Putting?
    case CheckStop => s.post == AtStopCheck
    case CheckEmpty => s.post == AtEmptyCheck
    case Get => s.post == AtGet
    case Process => s.post.Processing?
    case Notify => s.post.Notifying?
    case Join => s.main.Joining? && (s.main.j < |s.threads| ==> s.threads[s.main.j] == Exited)
    case SetStop => s.main == Stopping
    case JoinPost => s.main == JoiningPost && s.post == PostExited
    case Collect => s.main == Collecting
    case Cancel => true
  }

  function Move(s: State, k: nat, pc: InstancePc): State
    requires k < |s.threads|
  {
    s.(threads := s.threads[k := pc])
  }

  function Apply(s: State, a: Action): State
    requires Enabled(s, a)
  {
    match a
    case CheckCancel(k) => Move(s, k, if s.cancel then Exited else AtTake)
    case Take(k) =>
      if s.workQ == [] then Move(s, k, Exited)
      else Move(s, k, Generating(s.workQ[0], 0)).(workQ := s.workQ[1..])
    case Skip(k, r) => Move(s, k, Storing(s.threads[k].i, r))
    case Call(k, r) =>
      var pc := s.threads[k];
      // one retry when the first call fails
      Move(s, k, if !r.ok && pc.attempt == 0 then Generating(pc.i, 1) else Storing(pc.i, r))
    case Store(k) =>
      var pc := s.threads[k];
      Move(s, k, Putting(pc.i, pc.r)).(results := s.results[pc.i := Some(pc.r)])
    case Put(k) =>
      var item := (s.threads[k].i, s.threads[k].r);
      Move(s, k, AtCancelCheck).(doneQ := s.doneQ + [item], puts := s.puts + [item])
    case CheckStop => s.(post := if s.stopPost then AtEmptyCheck else AtGet)
    case CheckEmpty => s.(post := if s.doneQ == [] then PostExited else AtGet)
    case Get =>
      if s.doneQ == [] then s.(post := AtStopCheck)
      else s.(post := Processing(s.doneQ[0].0, s.doneQ[0].1), doneQ := s.doneQ[1..])
    case Process => s.(post := Notifying(s.post.i, s.post.r), processed := s.processed + [(s.post.i, s.post.r)])
    case Notify => s.(post := AtStopCheck, notified := s.notified + [(s.post.i, s.post.r)])
    case Join => s.(main := if s.main.j < |s.threads| then Joining(s.main.j + 1) else Stopping)
    case SetStop => s.(main := JoiningPost, stopPost := true)
    case JoinPost => s.(main := Collecting)
    case Collect => s.(main := Returned(Assemble(s.results, s.cancel)))
    case Cancel => s.(cancel := true)
  }

  /** The returned list: an index without a result reports why. */
  function Assemble(results: seq<Option<Reply>>, cancel: bool): seq<Reply> {
    seq(|results|, i requires 0 <= i < |results| =>
      match results[i]
      case Some(r) => r
      case None => Reply(false, if cancel then "cancelled" else "not generated"))
  }

  /** States reachable by any interleaving. */
  ghost predicate Reaches(s: State, actions: seq<Action>, t: State)
    decreases |actions|
  {
    if actions == [] then s == t
    else Enabled(s, actions[0]) && Reaches(Apply(s, actions[0]), actions[1..], t)
  }

  // ---------- the inductive invariant ----------

  function Ids(items: seq<(nat, Reply)>): seq<nat> {
    seq(|items|, i requires 0 <= i < |items| => items[i].0)
  }

  predicate Holds(pc: InstancePc) {
    pc.Generating? || pc.Storing? || pc.Putting?
  }

  predicate HoldsIndex(pc: InstancePc, i: nat) {
    Holds(pc) && pc.i == i
  }

  /** How many instance threads are working on index `i`. */
  ghost function InHand(threads: seq<InstancePc>, i: nat): nat {
    if threads == [] then 0
    else InHand(threads[1..], i) + if HoldsIndex(threads[0], i) then 1 else 0
  }

  lemma {:induction false} InHandMoves(threads: seq<InstancePc>, k: nat, pc: InstancePc, i: nat)
    requires k < |threads|
    ensures InHand(threads[k := pc], i) + (if HoldsIndex(threads[k], i) then 1 else 0)
         == InHand(threads, i) + if HoldsIndex(pc, i) then 1 else 0
  {
    if k > 0 {
      InHandMoves(threads[1..], k - 1, pc, i);
      assert threads[k := pc][1..] == threads[1..][k - 1 := pc];
    } else {
      assert threads[0 := pc][1..] == threads[1..];
    }
  }

  lemma {:induction false} InHandCounts(threads: seq<InstancePc>, k: nat)
    requires k < |threads| && Holds(threads[k])
    ensures InHand(threads, threads[k].i) >= 1
    ensures forall m | k < m < |threads| && HoldsIndex(threads[m], threads[k].i) ::
              InHand(threads, threads[k].i) >= 2
  {
    if k > 0 {
      InHandCounts(threads[1..], k - 1);
      forall m | k < m < |threads| && HoldsIndex(threads[m], threads[k].i)
        ensures InHand(threads, threads[k].i) >= 2
      {
        assert threads[1..][m - 1] == threads[m];
      }
    } else {
      forall m | 0 < m < |threads| && HoldsIndex(threads[m], threads[0].i)
        ensures InHand(threads, threads[0].i) >= 2
      {
        InHandCounts(threads[1..], m - 1);
      }
    }
  }

  lemma {:induction false} NothingInHand(threads: seq<InstancePc>, i: nat)
    requires forall k | 0 <= k < |threads| :: !Holds(threads[k])
    ensures InHand(threads, i) == 0
  {
    if threads != [] {
      NothingInHand(threads[1..], i);
    }
  }

  function PostItem(post: PostPc): seq<(nat, Reply)> {
    if post.Processing? then [(post.i, post.r)] else []
  }

  function NotifyItem(post: PostPc): seq<(nat, Reply)> {
    if post.Notifying? then [(post.i, post.r)] else []
  }

  /** How many indices were taken. */
  function Taken(s: State): int {
    |s.results| - |s.workQ|
  }

  /** In how many places a taken index is: in a thread's hand or put on the done queue. */
  ghost function PlacesOf(s: State, i: nat): nat {
    multiset(Ids(s.puts))[i] + InHand(s.threads, i)
  }

  /** Work is taken in order, and each taken index is in exactly one place. */
  ghost predicate Conserved(s: State) {
    && 0 <= Taken(s)
    && s.workQ == Range(Taken(s), |s.results|)
    && forall i: nat :: PlacesOf(s, i) == if i < Taken(s) then 1 else 0
  }

  /** The done queue is FIFO: what was put is processed, in hand of the post thread, or queued, in that order. */
  ghost predicate Queued(s: State) {
    && s.puts == s.processed + PostItem(s.post) + s.doneQ
    && s.processed == s.notified + NotifyItem(s.post)
  }

  ghost predicate Recorded(s: State, item: (nat, Reply)) {
    item.0 < |s.results| && s.results[item.0] == Some(item.1)
  }

  /** Results are written once, before the index is put. */
  ghost predicate Written(s: State) {
    && (forall n | 0 <= n < |s.puts| :: Recorded(s, s.puts[n]))
    && (forall k | 0 <= k < |s.threads| && s.threads[k].Putting? :: Recorded(s, (s.threads[k].i, s.threads[k].r)))
    && (forall i | Taken(s) <= i < |s.results| && 0 <= i :: s.results[i] == None)
  }

  ghost predicate AllExited(s: State) {
    forall k | 0 <= k < |s.threads| :: s.threads[k] == Exited
  }

  /** The shutdown handshake. */
  ghost predicate Handshake(s: State) {
    && (forall k | 0 <= k < |s.threads| && s.threads[k] == Exited :: s.cancel || s.workQ == [])
    && s.threads != []
    && (match s.main
        case Joining(j) => j <= |s.threads| && !s.stopPost && forall k | 0 <= k < j :: s.threads[k] == Exited
        case Stopping => AllExited(s) && !s.stopPost
        case JoiningPost => AllExited(s) && s.stopPost
        case Collecting => AllExited(s) && s.stopPost && s.post == PostExited
        case Returned(list) =>
          && AllExited(s) && s.stopPost && s.post == PostExited
          && (list == Assemble(s.results, true) || (s.workQ == [] && list == Assemble(s.results, false))))
    && (s.post == AtEmptyCheck ==> s.stopPost)
    && (s.post == PostExited ==> s.stopPost && s.doneQ == [])
  }

  ghost predicate Inv(s: State) {
    Conserved(s) && Queued(s) && Written(s) && Handshake(s)
  }

  // ---------- every action keeps it ----------

  lemma MoveConserves(s: State, k: nat, pc: InstancePc)
    requires Conserved(s) && k < |s.threads|
    requires forall i: nat :: HoldsIndex(pc, i) == HoldsIndex(s.threads[k], i)
    ensures Conserved(Move(s, k, pc))
  {
    var t := Move(s, k, pc);
    forall i: nat ensures PlacesOf(t, i) == PlacesOf(s, i) {
      InHandMoves(s.threads, k, pc, i);
    }
  }

  lemma TakeConserves(s: State, k: nat)
    requires Conserved(s) && Enabled(s, Take(k))
    ensures Conserved(Apply(s, Take(k)))
  {
    var t := Apply(s, Take(k));
    forall i: nat ensures PlacesOf(t, i) == PlacesOf(s, i) + if s.workQ != [] && i == Taken(s) then 1 else 0 {
      InHandMoves(s.threads, k, t.threads[k], i);
    }
  }

  lemma PutConserves(s: State, k: nat)
    requires Conserved(s) && Enabled(s, Put(k))
    ensures Conserved(Apply(s, Put(k)))
  {
    var t := Apply(s, Put(k));
    assert Ids(t.puts) == Ids(s.puts) + [s.threads[k].i];
    forall i: nat ensures PlacesOf(t, i) == PlacesOf(s, i) {
      InHandMoves(s.threads, k, t.threads[k], i);
    }
  }

  lemma ConservedKept(s: State, a: Action)
    requires Conserved(s) && Enabled(s, a)
    ensures Conserved(Apply(s, a))
  {
    hide Conserved;
    match a {
      case CheckCancel(k) => MoveConserves(s, k, Apply(s, a).threads[k]);
      case Take(k) => TakeConserves(s, k);
      case Skip(k, r) => MoveConserves(s, k, Apply(s, a).threads[k]);
      case Call(k, r) => MoveConserves(s, k, Apply(s, a).threads[k]);
      case Store(k) =>
        MoveConserves(s, k, Apply(s, a).threads[k]);
        SameConserved(Move(s, k, Apply(s, a).threads[k]), Apply(s, a));
      case Put(k) => PutConserves(s, k);
      case _ => SameConserved(s, Apply(s, a));
    }
  }

  lemma SameConserved(s: State, t: State)
    requires Conserved(s)
    requires t.workQ == s.workQ && t.threads == s.threads && |t.results| == |s.results| && t.puts == s.puts
    ensures Conserved(t)
  {
    assert forall i: nat :: PlacesOf(t, i) == PlacesOf(s, i);
  }

  lemma QueuedKept(s: State, a: Action)
    requires Queued(s) && Enabled(s, a)
    ensures Queued(Apply(s, a))
  {
    var t := Apply(s, a);
    match a {
      case Get => assert s.doneQ != [] ==> s.doneQ == [s.doneQ[0]] + s.doneQ[1..];
      case _ =>
    }
  }

  /** A held index was taken, is held by one thread only and has not been put. */
  lemma HeldOnce(s: State, k: nat)
    requires Conserved(s) && k < |s.threads| && Holds(s.threads[k])
    ensures s.threads[k].i < Taken(s)
    ensures forall m | 0 <= m < |s.threads| && m != k && Holds(s.threads[m]) :: s.threads[m].i != s.threads[k].i
    ensures forall n | 0 <= n < |s.puts| :: s.puts[n].0 != s.threads[k].i
  {
    var i := s.threads[k].i;
    InHandCounts(s.threads, k);
    assert PlacesOf(s, i) == if i < Taken(s) then 1 else 0;
    forall m | 0 <= m < |s.threads| && m != k && Holds(s.threads[m]) ensures s.threads[m].i != i {
      InHandCounts(s.threads, m);
    }
    forall n | 0 <= n < |s.puts| ensures s.puts[n].0 != i {
      assert Ids(s.puts)[n] in multiset(Ids(s.puts));
    }
  }

  lemma StoreWritten(s: State, k: nat)
    requires Conserved(s) && Written(s) && Enabled(s, Store(k))
    ensures Written(Apply(s, Store(k)))
  {
    HeldOnce(s, k);
    hide Conserved;
  }

  lemma PutWritten(s: State, k: nat)
    requires Written(s) && Enabled(s, Put(k))
    ensures Written(Apply(s, Put(k)))
  {
    assert Recorded(s, (s.threads[k].i, s.threads[k].r));
  }

  lemma WrittenKept(s: State, a: Action)
    requires Conserved(s) && Written(s) && Enabled(s, a)
    ensures Written(Apply(s, a))
  {
    hide Conserved, Written;
    match a {
      case Store(k) => StoreWritten(s, k);
      case Put(k) => PutWritten(s, k);
      case Take(k) => TakeWritten(s, k);
      case _ => OtherWritten(s, a);
    }
  }

  lemma TakeWritten(s: State, k: nat)
    requires Written(s) && Enabled(s, Take(k))
    ensures Written(Apply(s, Take(k)))
  {
  }

  lemma OtherWritten(s: State, a: Action)
    requires Written(s) && Enabled(s, a) && !a.Store? && !a.Put? && !a.Take?
    ensures Written(Apply(s, a))
  {
  }

  lemma HandshakeKept(s: State, a: Action)
    requires Handshake(s) && Enabled(s, a)
    ensures Handshake(Apply(s, a))
  {
    if a.Collect? {
      assert s.threads[0] == Exited;
    }
  }

  lemma InvStarts(cues: nat, instances: nat)
    requires instances >= 1
    ensures Inv(Start(cues, instances))
  {
    var s := Start(cues, instances);
    forall i: nat ensures PlacesOf(s, i) == 0 {
      NothingInHand(s.threads, i);
    }
  }

  lemma InvKept(s: State, a: Action)
    requires Inv(s) && Enabled(s, a)
    ensures Inv(Apply(s, a))
    ensures |Apply(s, a).threads| == |s.threads| && |Apply(s, a).results| == |s.results|
    ensures Apply(s, a).cancel == (s.cancel || a == Cancel)
  {
    hide Conserved, Queued, Written, Handshake;
    ConservedKept(s, a);
    QueuedKept(s, a);
    WrittenKept(s, a);
    HandshakeKept(s, a);
  }

  /** Every reachable state of every interleaving satisfies the invariant. */
  lemma {:induction false} InvAlways(s: State, actions: seq<Action>, t: State)
    requires Inv(s) && Reaches(s, actions, t)
    ensures Inv(t) && |t.threads| == |s.threads| && |t.results| == |s.results|
    ensures t.cancel <==> s.cancel || Cancel in actions
    decreases |actions|
  {
    hide Inv, Apply;
    if actions != [] {
      InvKept(s, actions[0]);
      InvAlways(Apply(s, actions[0]), actions[1..], t);
      assert actions == [actions[0]] + actions[1..];
    }
  }

  // ---------- what a return guarantees ----------

  /** Index `i` was post-processed exactly once, with the reply reported for it. */
  ghost predicate ProcessedOnce(s: State, i: nat, r: Reply) {
    && (exists n :: 0 <= n < |s.processed| && s.processed[n] == (i, r))
    && forall n, m | 0 <= n < m < |s.processed| :: s.processed[n].0 != i || s.processed[m].0 != i
  }

  /** With every thread gone, what was put is what was taken. */
  lemma PutsAreTaken(t: State)
    requires Conserved(t) && AllExited(t)
    ensures multiset(Ids(t.puts)) == multiset(Range(0, Taken(t)))
    ensures |t.puts| == Taken(t)
  {
    forall i: nat ensures multiset(Ids(t.puts))[i] == multiset(Range(0, Taken(t)))[i] {
      NothingInHand(t.threads, i);
      assert PlacesOf(t, i) == if i < Taken(t) then 1 else 0;
      RangeCounts(Taken(t), i);
    }
    assert multiset(Ids(t.puts)) == multiset(Range(0, Taken(t)));
    assert |Ids(t.puts)| == |multiset(Ids(t.puts))|;
    assert |Range(0, Taken(t))| == |multiset(Range(0, Taken(t)))|;
  }

  lemma {:induction false} RangeCounts(m: nat, i: nat)
    ensures multiset(Range(0, m))[i] == if i < m then 1 else 0
  {
    if m > 0 {
      RangeCounts(m - 1, i);
      assert Range(0, m) == Range(0, m - 1) + [m - 1];
    }
  }

  lemma PutOnce(t: State, i: nat)
    requires Inv(t) && t.main.Returned? && i < Taken(t)
    ensures t.results[i].Some? && ProcessedOnce(t, i, t.results[i].value)
  {
    PutsAreTaken(t);
    RangeCounts(Taken(t), i);
    assert t.puts == t.processed;
    assert i in multiset(Ids(t.puts));
    var n :| 0 <= n < |Ids(t.puts)| && Ids(t.puts)[n] == i;
    assert Recorded(t, t.puts[n]);
    forall p, q | 0 <= p < q < |t.processed| ensures t.processed[p].0 != i || t.processed[q].0 != i {
      OnceInMultiset(Ids(t.puts), p, q, i);
    }
  }

  /**
   When the call returns, the attempted indices are exactly 0..m-1; each has
   its one result, post-processed and notified exactly once; every other index
   reports "cancelled", and there is one only if a cancel was asked for.
   */
  lemma ReturnIsComplete(cues: nat, instances: nat, actions: seq<Action>, t: State)
    requires instances >= 1 && Reaches(Start(cues, instances), actions, t) && t.main.Returned?
    ensures 0 <= Taken(t) <= cues == |t.main.list| == |t.results|
    ensures t.processed == t.notified == t.puts && |t.puts| == Taken(t)
    ensures forall i: nat | i < Taken(t) :: ProcessedOnce(t, i, t.main.list[i])
    ensures forall i: nat | Taken(t) <= i < cues :: t.main.list[i] == Reply(false, "cancelled")
    ensures Cancel !in actions ==> Taken(t) == cues
  {
    hide Inv, Reaches, Assemble, ProcessedOnce;
    InvStarts(cues, instances);
    InvAlways(Start(cues, instances), actions, t);
    ReturnedMeans(t);
  }

  lemma ReturnedMeans(t: State)
    requires Inv(t) && t.main.Returned?
    ensures 0 <= Taken(t) <= |t.results| == |t.main.list|
    ensures t.processed == t.notified == t.puts && |t.puts| == Taken(t)
    ensures forall i: nat | i < Taken(t) :: ProcessedOnce(t, i, t.main.list[i])
    ensures forall i: nat | Taken(t) <= i < |t.results| :: t.main.list[i] == Reply(false, "cancelled")
    ensures !t.cancel ==> Taken(t) == |t.results|
  {
    hide ProcessedOnce, PlacesOf;
    PutsAreTaken(t);
    forall i: nat | i < Taken(t) ensures ProcessedOnce(t, i, t.main.list[i]) {
      PutOnce(t, i);
    }
    assert t.threads[0] == Exited;
  }

  // ---------- what the workers answered ----------

  /** An answer a thread got for the index it held: from the worker, or from a file already there. */
  datatype Answer = Called(r: Reply) | Skipped(r: Reply)

  /** The number of takes; work is taken in order, so the n-th take is of index n. */
  ghost function Takes(actions: seq<Action>): nat {
    if actions == [] then 0
    else Takes(actions[..|actions| - 1]) + if actions[|actions| - 1].Take? then 1 else 0
  }

  /** The index thread `k` holds after the actions, told by the actions alone. */
  ghost function Holding(cues: nat, actions: seq<Action>, k: nat): Option<nat> {
    if actions == [] then None
    else
      var before, a := actions[..|actions| - 1], actions[|actions| - 1];
      if a == Take(k) then if Takes(before) < cues then Some(Takes(before)) else None
      else if a == Put(k) then None
      else Holding(cues, before, k)
  }

  /** The answers for index `i`, in order: those given to the thread that held it. */
  ghost function Answers(cues: nat, actions: seq<Action>, i: nat): seq<Answer> {
    if actions == [] then []
    else
      var before, a := actions[..|actions| - 1], actions[|actions| - 1];
      Answers(cues, before, i) +
        if a.Call? && Holding(cues, before, a.k) == Some(i) then [Called(a.r)]
        else if a.Skip? && Holding(cues, before, a.k) == Some(i) then [Skipped(a.r)]
        else []
  }

  lemma HistoryAppends(cues: nat, actions: seq<Action>, a: Action, i: nat, k: nat)
    ensures Takes(actions + [a]) == Takes(actions) + if a.Take? then 1 else 0
    ensures Holding(cues, actions + [a], k) ==
      if a == Take(k) then if Takes(actions) < cues then Some(Takes(actions)) else None
      else if a == Put(k) then None
      else Holding(cues, actions, k)
    ensures Answers(cues, actions + [a], i) == Answers(cues, actions, i) +
      if a.Call? && Holding(cues, actions, a.k) == Some(i) then [Called(a.r)]
      else if a.Skip? && Holding(cues, actions, a.k) == Some(i) then [Skipped(a.r)]
      else []
  {
    assert (actions + [a])[..|actions|] == actions;
  }

  /** One answer that was good, or a bad call and the call after it. */
  predicate Settled(answers: seq<Answer>, r: Reply) {
    || (answers == [Skipped(r)] && r.ok)
    || (answers == [Called(r)] && r.ok)
    || (|answers| == 2 && answers[0].Called? && !answers[0].r.ok && answers[1] == Called(r))
  }

  predicate Retrying(answers: seq<Answer>) {
    |answers| == 1 && answers[0].Called? && !answers[0].r.ok
  }

  /** What a thread holds and what was answered, against where it stands. */
  ghost predicate ThreadTold(cues: nat, h: seq<Action>, pc: InstancePc, k: nat) {
    && Holding(cues, h, k) == (if Holds(pc) then Some(pc.i) else None)
    && (match pc
        case Generating(i, attempt) => if attempt == 0 then Answers(cues, h, i) == [] else Retrying(Answers(cues, h, i))
        case Storing(i, r) => Settled(Answers(cues, h, i), r)
        case Putting(i, r) => Settled(Answers(cues, h, i), r)
        case _ => true)
  }

  /** The state against the actions that led to it. */
  ghost predicate Told(cues: nat, h: seq<Action>, s: State) {
    && |s.results| == cues
    && Taken(s) == (if Takes(h) < cues then Takes(h) else cues)
    && ThreadsTold(cues, h, s.threads)
    && PutsTold(cues, h, s.puts)
    && (forall i: nat | Taken(s) <= i :: Answers(cues, h, i) == [])
  }

  ghost predicate ThreadsTold(cues: nat, h: seq<Action>, threads: seq<InstancePc>) {
    forall k | 0 <= k < |threads| :: ThreadTold(cues, h, threads[k], k)
  }

  ghost predicate PutsTold(cues: nat, h: seq<Action>, puts: seq<(nat, Reply)>) {
    forall n | 0 <= n < |puts| :: Settled(Answers(cues, h, puts[n].0), puts[n].1)
  }

  lemma PutsStayTold(cues: nat, h: seq<Action>, g: seq<Action>, puts: seq<(nat, Reply)>)
    requires PutsTold(cues, h, puts)
    requires forall n | 0 <= n < |puts| :: Answers(cues, g, puts[n].0) == Answers(cues, h, puts[n].0)
    ensures PutsTold(cues, g, puts)
  {
    hide Settled, Answers;
  }

  lemma OneThreadActs(cues: nat, h: seq<Action>, a: Action, threads: seq<InstancePc>, k: nat, pc: InstancePc)
    requires ThreadsTold(cues, h, threads) && k < |threads| && OfInstance(a) && a.k == k
    requires ThreadTold(cues, h + [a], pc, k)
    requires forall m | 0 <= m < |threads| && m != k && Holds(threads[m]) ::
      Answers(cues, h + [a], threads[m].i) == Answers(cues, h, threads[m].i)
    ensures ThreadsTold(cues, h + [a], threads[k := pc])
  {
    hide ThreadTold, Answers;
    var moved := threads[k := pc];
    forall m | 0 <= m < |moved| ensures ThreadTold(cues, h + [a], moved[m], m) {
      if m != k {
        BystanderTold(cues, h, a, threads[m], m);
      }
    }
  }

  lemma NobodyActs(cues: nat, h: seq<Action>, a: Action, threads: seq<InstancePc>)
    requires ThreadsTold(cues, h, threads) && !OfInstance(a)
    requires forall i: nat :: Answers(cues, h + [a], i) == Answers(cues, h, i)
    ensures ThreadsTold(cues, h + [a], threads)
  {
    hide ThreadTold, Answers;
    forall m | 0 <= m < |threads| ensures ThreadTold(cues, h + [a], threads[m], m) {
      BystanderTold(cues, h, a, threads[m], m);
    }
  }

  lemma ToldAtStart(cues: nat, instances: nat)
    ensures Told(cues, [], Start(cues, instances))
  {
  }

  lemma SameAnswers(cues: nat, h: seq<Action>, a: Action)
    requires !a.Call? && !a.Skip?
    ensures forall i: nat :: Answers(cues, h + [a], i) == Answers(cues, h, i)
  {
    hide Answers, Holding;
    forall i: nat ensures Answers(cues, h + [a], i) == Answers(cues, h, i) {
      HistoryAppends(cues, h, a, i, 0);
    }
  }

  /** An action of no instance thread. */
  lemma OthersTold(cues: nat, h: seq<Action>, s: State, a: Action)
    requires Told(cues, h, s) && Enabled(s, a) && !OfInstance(a)
    ensures Told(cues, h + [a], Apply(s, a))
  {
    hide Settled, Retrying, ThreadsTold, PutsTold, Answers, Takes;
    SameAnswers(cues, h, a);
    HistoryAppends(cues, h, a, 0, 0);
    NobodyActs(cues, h, a, s.threads);
    PutsStayTold(cues, h, h + [a], s.puts);
  }

  lemma QuietMoveTold(cues: nat, h: seq<Action>, s: State, a: Action)
    requires Told(cues, h, s) && Enabled(s, a) && (a.CheckCancel? || a.Store? || a.Put?)
    ensures Told(cues, h + [a], Apply(s, a))
  {
    hide Settled, Retrying, ThreadsTold, PutsTold, ThreadTold, Answers, Takes, Holding;
    var t := Apply(s, a);
    SameAnswers(cues, h, a);
    HistoryAppends(cues, h, a, 0, a.k);
    ThreadAt(cues, h, s.threads, a.k);
    QuietMover(cues, h, s, a);
    OneThreadActs(cues, h, a, s.threads, a.k, t.threads[a.k]);
    assert t.threads == s.threads[a.k := t.threads[a.k]];
    PutsStayTold(cues, h, h + [a], s.puts);
    if a.Put? {
      OneMorePut(cues, h + [a], s.puts, (s.threads[a.k].i, s.threads[a.k].r));
    }
  }

  lemma ThreadAt(cues: nat, h: seq<Action>, threads: seq<InstancePc>, k: nat)
    requires ThreadsTold(cues, h, threads) && k < |threads|
    ensures ThreadTold(cues, h, threads[k], k)
  {
  }

  lemma OneMorePut(cues: nat, h: seq<Action>, puts: seq<(nat, Reply)>, item: (nat, Reply))
    requires PutsTold(cues, h, puts) && Settled(Answers(cues, h, item.0), item.1)
    ensures PutsTold(cues, h, puts + [item])
  {
    hide Settled, Answers;
  }

  lemma QuietMover(cues: nat, h: seq<Action>, s: State, a: Action)
    requires Enabled(s, a) && (a.CheckCancel? || a.Store? || a.Put?) && ThreadTold(cues, h, s.threads[a.k], a.k)
    requires forall i: nat :: Answers(cues, h + [a], i) == Answers(cues, h, i)
    ensures ThreadTold(cues, h + [a], Apply(s, a).threads[a.k], a.k)
    ensures a.Put? ==> Settled(Answers(cues, h + [a], s.threads[a.k].i), s.threads[a.k].r)
  {
    hide Settled, Retrying, Answers, Holding;
    HistoryAppends(cues, h, a, 0, a.k);
  }

  /** A thread that did not act, and whose index got no answer. */
  lemma BystanderTold(cues: nat, h: seq<Action>, a: Action, pc: InstancePc, k: nat)
    requires ThreadTold(cues, h, pc, k) && a != Take(k) && a != Put(k)
    requires Holds(pc) ==> Answers(cues, h + [a], pc.i) == Answers(cues, h, pc.i)
    ensures ThreadTold(cues, h + [a], pc, k)
  {
    hide Settled, Retrying, Answers;
    HistoryAppends(cues, h, a, 0, k);
  }

  lemma TakeTold(cues: nat, h: seq<Action>, s: State, k: nat)
    requires Told(cues, h, s) && Conserved(s) && Enabled(s, Take(k))
    ensures Told(cues, h + [Take(k)], Apply(s, Take(k)))
  {
    hide Settled, Retrying, Answers, Holding, ThreadTold, ThreadsTold, PutsTold, Conserved, Takes;
    var a, t := Take(k), Apply(s, Take(k));
    SameAnswers(cues, h, a);
    HistoryAppends(cues, h, a, 0, k);
    NextTake(cues, h, s);
    TakerTold(cues, h, s, k);
    OneThreadActs(cues, h, a, s.threads, k, t.threads[k]);
    assert t.threads == s.threads[k := t.threads[k]];
    PutsStayTold(cues, h, h + [a], s.puts);
  }

  /** What the next take brings. */
  lemma NextTake(cues: nat, h: seq<Action>, s: State)
    requires Told(cues, h, s) && Conserved(s)
    ensures s.workQ == [] <==> Takes(h) >= cues
    ensures s.workQ != [] ==> s.workQ[0] == Takes(h) && Answers(cues, h, Takes(h)) == []
  {
    hide PlacesOf, ThreadsTold, PutsTold, Answers, Takes;
  }

  lemma TakerTold(cues: nat, h: seq<Action>, s: State, k: nat)
    requires Told(cues, h, s) && Conserved(s) && Enabled(s, Take(k))
    ensures ThreadTold(cues, h + [Take(k)], Apply(s, Take(k)).threads[k], k)
  {
    hide Told, Conserved, Settled, Retrying, Answers, Holding, Takes;
    NextTake(cues, h, s);
    HistoryAppends(cues, h, Take(k), Takes(h), k);
  }

  /** An answer changes the story of the held index only. */
  lemma AnswerTold(cues: nat, h: seq<Action>, s: State, a: Action)
    requires Told(cues, h, s) && Conserved(s) && Enabled(s, a) && (a.Skip? || a.Call?)
    ensures Told(cues, h + [a], Apply(s, a))
  {
    hide Conserved, Settled, Retrying, Answers, Holding, ThreadTold, ThreadsTold, PutsTold, Takes;
    var t, i := Apply(s, a), s.threads[a.k].i;
    HeldOnce(s, a.k);
    ThreadAt(cues, h, s.threads, a.k);
    HeldIs(cues, h, s.threads[a.k], a.k);
    forall j: nat | j != i ensures Answers(cues, h + [a], j) == Answers(cues, h, j) {
      HistoryAppends(cues, h, a, j, 0);
    }
    HistoryAppends(cues, h, a, i, a.k);
    AnsweredTold(cues, h, s, a);
    OneThreadActs(cues, h, a, s.threads, a.k, t.threads[a.k]);
    assert t.threads == s.threads[a.k := t.threads[a.k]];
    PutsStayTold(cues, h, h + [a], s.puts);
  }

  lemma HeldIs(cues: nat, h: seq<Action>, pc: InstancePc, k: nat)
    requires ThreadTold(cues, h, pc, k) && Holds(pc)
    ensures Holding(cues, h, k) == Some(pc.i)
  {
  }

  lemma AnsweredTold(cues: nat, h: seq<Action>, s: State, a: Action)
    requires Enabled(s, a) && (a.Skip? || a.Call?) && ThreadTold(cues, h, s.threads[a.k], a.k)
    ensures ThreadTold(cues, h + [a], Apply(s, a).threads[a.k], a.k)
  {
    hide Answers, Holding;
    HistoryAppends(cues, h, a, s.threads[a.k].i, a.k);
  }

  lemma ToldKept(cues: nat, h: seq<Action>, s: State, a: Action)
    requires Told(cues, h, s) && Conserved(s) && Enabled(s, a)
    ensures Told(cues, h + [a], Apply(s, a))
  {
    hide Told, Conserved, Enabled, Apply;
    match a {
      case CheckCancel(k) => QuietMoveTold(cues, h, s, a);
      case Take(k) => TakeTold(cues, h, s, k);
      case Skip(k, r) => AnswerTold(cues, h, s, a);
      case Call(k, r) => AnswerTold(cues, h, s, a);
      case Store(k) => QuietMoveTold(cues, h, s, a);
      case Put(k) => QuietMoveTold(cues, h, s, a);
      case _ => OthersTold(cues, h, s, a);
    }
  }

  lemma {:induction false} ToldAlways(cues: nat, h: seq<Action>, s: State, actions: seq<Action>, t: State)
    requires Told(cues, h, s) && Inv(s) && Reaches(s, actions, t)
    ensures Told(cues, h + actions, t)
    decreases |actions|
  {
    hide Told, Apply, Conserved, Queued, Written, Handshake;
    if actions == [] {
      assert h + actions == h;
    } else {
      ToldKept(cues, h, s, actions[0]);
      InvKept(s, actions[0]);
      ToldAlways(cues, h + [actions[0]], Apply(s, actions[0]), actions[1..], t);
      assert h + [actions[0]] + actions[1..] == h + actions;
    }
  }

  /**
   Each returned entry is the last answer its index got.  It got one answer, or
   two calls: the second iff the first was a call that failed.  So a failed
   entry had exactly two calls, both failed; and nobody asked for an index that
   was never taken.
   */
  lemma EntriesAreAnswers(cues: nat, instances: nat, actions: seq<Action>, t: State, i: nat)
    requires instances >= 1 && Reaches(Start(cues, instances), actions, t) && t.main.Returned? && i < cues
    ensures |t.main.list| == cues
    ensures i >= Takes(actions) ==> Answers(cues, actions, i) == [] && t.main.list[i] == Reply(false, "cancelled")
    ensures i < Takes(actions) ==>
      var answers := Answers(cues, actions, i);
      && 1 <= |answers| <= 2
      && t.main.list[i] == answers[|answers| - 1].r
      && (|answers| == 2 <==> answers[0].Called? && !answers[0].r.ok)
      && (|answers| == 2 ==> answers[1].Called?)
      && (!t.main.list[i].ok ==>
        |answers| == 2 && answers[0].Called? && answers[1].Called? && !answers[0].r.ok && !answers[1].r.ok)
  {
    hide Reaches, Conserved, Queued, Written, Handshake, Answers, Takes;
    ReturnIsComplete(cues, instances, actions, t);
    InvStarts(cues, instances);
    ToldAtStart(cues, instances);
    ToldAlways(cues, [], Start(cues, instances), actions, t);
    assert [] + actions == actions;
    if i < Taken(t) {
      assert ProcessedOnce(t, i, t.main.list[i]);
      var n :| 0 <= n < |t.processed| && t.processed[n] == (i, t.main.list[i]);
      assert Settled(Answers(cues, actions, t.puts[n].0), t.puts[n].1);
    }
  }

  // ---------- cancelling ----------

  /** Threads that have already passed the cancel check. */
  function PastCheck(threads: seq<InstancePc>): nat {
    if threads == [] then 0 else PastCheck(threads[1..]) + if threads[0] == AtTake then 1 else 0
  }

  lemma {:induction false} PastCheckMoves(threads: seq<InstancePc>, k: nat, pc: InstancePc)
    requires k < |threads|
    ensures PastCheck(threads[k := pc]) + (if threads[k] == AtTake then 1 else 0)
         == PastCheck(threads) + if pc == AtTake then 1 else 0
  {
    if k > 0 {
      PastCheckMoves(threads[1..], k - 1, pc);
      assert threads[k := pc][1..] == threads[1..][k - 1 := pc];
    } else {
      assert threads[0 := pc][1..] == threads[1..];
    }
  }

  lemma CancelledStep(s: State, a: Action)
    requires s.cancel && Enabled(s, a)
    ensures Apply(s, a).cancel
    ensures Taken(Apply(s, a)) + PastCheck(Apply(s, a).threads) <= Taken(s) + PastCheck(s.threads)
  {
    hide PastCheck;
    if OfInstance(a) {
      PastCheckMoves(s.threads, a.k, Apply(s, a).threads[a.k]);
      assert Apply(s, a).threads == s.threads[a.k := Apply(s, a).threads[a.k]];
    }
  }

  /** Once a cancel is asked for, only threads past their check take one more index each. */
  lemma {:induction false} CancelStopsTaking(s: State, actions: seq<Action>, t: State)
    requires s.cancel && Reaches(s, actions, t)
    ensures Taken(t) <= Taken(s) + PastCheck(s.threads)
    decreases |actions|
  {
    hide PastCheck, Apply;
    if actions != [] {
      CancelledStep(s, actions[0]);
      CancelStopsTaking(Apply(s, actions[0]), actions[1..], t);
    }
  }

  lemma OnceInMultiset(s: seq<nat>, p: nat, q: nat, i: nat)
    requires p < q < |s| && multiset(s)[i] <= 1
    ensures s[p] != i || s[q] != i
  {
    assert s == s[..p] + [s[p]] + s[p + 1..q] + [s[q]] + s[q + 1..];
  }

  // ---------- progress ----------

  function ThreadWork(pc: InstancePc): nat {
    match pc
    case AtCancelCheck => 2
    case AtTake => 1
    case Generating(_, attempt) => if attempt == 0 then 12 else 11
    case Storing(_, _) => 10
    case Putting(_, _) => 9
    case Exited => 0
  }

  function ThreadsWork(threads: seq<InstancePc>): nat {
    if threads == [] then 0 else ThreadWork(threads[0]) + ThreadsWork(threads[1..])
  }

  function PostWork(s: State): nat {
    match s.post
    case Processing(_, _) => 5
    case Notifying(_, _) => 4
    case AtStopCheck => if s.stopPost then 3 else 0
    case AtEmptyCheck => 2
    case AtGet => if !s.stopPost then 0 else if s.doneQ == [] then 4 else 1
    case PostExited => 0
  }

  function MainWork(s: State): nat {
    match s.main
    case Joining(j) => if j <= |s.threads| then 10 + |s.threads| - j else 0
    case Stopping => 9
    case JoiningPost => 2
    case Collecting => 1
    case Returned(_) => 0
  }

  /** An upper bound on the productive actions still to come. */
  function Work(s: State): nat {
    14 * |s.workQ| + 6 * |s.doneQ| + ThreadsWork(s.threads) + PostWork(s) + MainWork(s)
  }

  /** Polling an empty done queue before the stop flag is up, and the outside cancel, make no progress. */
  predicate Idle(s: State, a: Action) {
    || a == Cancel
    || (a == CheckStop && !s.stopPost)
    || (a == Get && !s.stopPost && s.doneQ == [])
  }

  lemma {:induction false} ThreadsWorkMoves(threads: seq<InstancePc>, k: nat, pc: InstancePc)
    requires k < |threads|
    ensures ThreadsWork(threads[k := pc]) + ThreadWork(threads[k]) == ThreadsWork(threads) + ThreadWork(pc)
  {
    if k > 0 {
      ThreadsWorkMoves(threads[1..], k - 1, pc);
      assert threads[k := pc][1..] == threads[1..][k - 1 := pc];
    } else {
      assert threads[0 := pc][1..] == threads[1..];
    }
  }

  predicate OfInstance(a: Action) {
    a.CheckCancel? || a.Take? || a.Skip? || a.Call? || a.Store? || a.Put?
  }

  lemma InstanceUsesWork(s: State, a: Action)
    requires Enabled(s, a) && OfInstance(a)
    ensures var t := Apply(s, a);
      14 * |t.workQ| + 6 * |t.doneQ| + ThreadWork(t.threads[a.k]) < 14 * |s.workQ| + 6 * |s.doneQ| + ThreadWork(s.threads[a.k])
  {
  }

  lemma InstanceWorkShrinks(s: State, a: Action)
    requires Enabled(s, a) && OfInstance(a)
    ensures Work(Apply(s, a)) < Work(s)
  {
    hide ThreadsWork;
    var k, t := a.k, Apply(s, a);
    ThreadsWorkMoves(s.threads, k, t.threads[k]);
    assert t.threads == s.threads[k := t.threads[k]];
    assert MainWork(t) == MainWork(s) && PostWork(t) <= PostWork(s);
    InstanceUsesWork(s, a);
  }

  /** Every action other than idle polling uses up work, and polling adds none. */
  lemma WorkShrinks(s: State, a: Action)
    requires Handshake(s) && Enabled(s, a)
    ensures Work(Apply(s, a)) <= Work(s)
    ensures !Idle(s, a) ==> Work(Apply(s, a)) < Work(s)
  {
    hide ThreadsWork;
    if OfInstance(a) {
      InstanceWorkShrinks(s, a);
    }
  }

  /** No deadlock: until the call returns, some thread has a productive action. */
  lemma SomethingToDo(s: State) returns (a: Action)
    requires Inv(s) && !s.main.Returned?
    ensures Enabled(s, a) && !Idle(s, a)
  {
    match s.main {
      case Joining(j) =>
        if j < |s.threads| && s.threads[j] != Exited {
          a := match s.threads[j]
            case AtCancelCheck => CheckCancel(j)
            case AtTake => Take(j)
            case Generating(_, _) => Call(j, Reply(true, ""))
            case Storing(_, _) => Store(j)
            case Putting(_, _) => Put(j)
            case Exited => Join;
          if s.threads[j].Storing? {
            HeldOnce(s, j);
          }
        } else {
          a := Join;
        }
      case Stopping => a := SetStop;
      case JoiningPost =>
        a := match s.post
          case AtStopCheck => CheckStop
          case AtEmptyCheck => CheckEmpty
          case AtGet => Get
          case Processing(_, _) => Process
          case Notifying(_, _) => Notify
          case PostExited => JoinPost;
      case Collecting => a := Collect;
    }
  }

  /** The productive actions of a run. */
  ghost function Productive(s: State, actions: seq<Action>, t: State): nat
    requires Reaches(s, actions, t)
    decreases |actions|
  {
    if actions == [] then 0
    else (if Idle(s, actions[0]) then 0 else 1) + Productive(Apply(s, actions[0]), actions[1..], t)
  }

  lemma {:induction false} ProductiveWithinWork(s: State, actions: seq<Action>, t: State)
    requires Inv(s) && Reaches(s, actions, t)
    ensures Productive(s, actions, t) + Work(t) <= Work(s)
    decreases |actions|
  {
    hide Inv, Apply, Work, Idle;
    if actions != [] {
      InvKept(s, actions[0]);
      InvHandshake(s);
      WorkShrinks(s, actions[0]);
      ProductiveWithinWork(Apply(s, actions[0]), actions[1..], t);
    }
  }

  lemma InvHandshake(s: State)
    requires Inv(s)
    ensures Handshake(s)
  {
  }

  lemma {:induction false} FreshThreadsWork(n: nat)
    ensures ThreadsWork(seq(n, _ => AtCancelCheck)) == 2 * n
  {
    if n > 0 {
      assert seq(n, _ => AtCancelCheck)[1..] == seq(n - 1, _ => AtCancelCheck);
      FreshThreadsWork(n - 1);
    }
  }

  /** No run, however scheduled, contains more productive actions than this. */
  lemma RunsAreBounded(cues: nat, instances: nat, actions: seq<Action>, t: State)
    requires instances >= 1 && Reaches(Start(cues, instances), actions, t)
    ensures Productive(Start(cues, instances), actions, t) <= 14 * cues + 3 * instances + 10
  {
    InvStarts(cues, instances);
    FreshThreadsWork(instances);
    ProductiveWithinWork(Start(cues, instances), actions, t);
  }
}

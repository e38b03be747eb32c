/** The persistent job scheduler over a priority queue that may hold stale and duplicate messages. */
module JobScheduler {
  import opened Options
  import KeySort

  datatype JobStatus = Queued | Running | Paused | Completed | Failed | Cancelled

  datatype Job = Job(
    priority: int, status: JobStatus, maxAttempts: int, attempts: nat,
    result: Option<string>, error: Option<string>)

  /** A queue message; pending messages are kept in the order they were enqueued. */
  datatype Message = Message(jobId: string, priority: int)

  datatype Event = Claimed(id: string) | Resumed(id: string) | Retried(id: string)

  // ---------- the queue: highest priority first, then oldest ----------

  /** Index of the message `dequeue` returns. */
  function NextIndex(queue: seq<Message>): (i: nat)
    requires queue != []
    ensures i < |queue|
  {
    if |queue| == 1 then 0
    else
      var n := NextIndex(queue[1..]);
      if queue[1..][n].priority <= queue[0].priority then 0 else n + 1
  }

  function RemoveAt<T>(s: seq<T>, i: nat): (r: seq<T>)
    requires i < |s|
    ensures |r| == |s| - 1
  {
    s[..i] + s[i + 1..]
  }

  function Keyed(queue: seq<Message>): (keyed: seq<(int, Message)>)
    ensures |keyed| == |queue|
    ensures forall i | 0 <= i < |queue| :: keyed[i] == (-queue[i].priority, queue[i])
  {
    seq(|queue|, i requires 0 <= i < |queue| => (-queue[i].priority, queue[i]))
  }

  /** All pending messages in the order they would be served. */
  function ServeOrder(queue: seq<Message>): (order: seq<Message>)
    ensures |order| == |queue|
  {
    var sorted := KeySort.Sort(Keyed(queue));
    seq(|sorted|, i requires 0 <= i < |sorted| => sorted[i].1)
  }

  lemma SortUnfolds(queue: seq<Message>)
    requires queue != []
    ensures KeySort.Sort(Keyed(queue)) == KeySort.Insert((-queue[0].priority, queue[0]), KeySort.Sort(Keyed(queue[1..])))
  {
    hide KeySort.Insert;
    assert Keyed(queue)[1..] == Keyed(queue[1..]);
  }

  lemma InsertSecond(x: (int, Message), y: (int, Message), tail: seq<(int, Message)>)
    ensures KeySort.Insert(x, [y] + tail) == if x.0 <= y.0 then [x] + ([y] + tail) else [y] + KeySort.Insert(x, tail)
  {
    assert ([y] + tail)[1..] == tail;
  }

  lemma NextIndexUnfolds(queue: seq<Message>)
    requires |queue| > 1
    ensures var n := NextIndex(queue[1..]);
      if queue[1..][n].priority <= queue[0].priority then NextIndex(queue) == 0 && RemoveAt(queue, 0) == queue[1..]
      else
        && NextIndex(queue) == n + 1 && queue[n + 1] == queue[1..][n]
        && RemoveAt(queue, n + 1)[0] == queue[0] && RemoveAt(queue, n + 1)[1..] == RemoveAt(queue[1..], n)
  {
  }

  lemma {:induction false} SortServesNext(queue: seq<Message>)
    requires queue != []
    ensures var i := NextIndex(queue);
      KeySort.Sort(Keyed(queue)) == [(-queue[i].priority, queue[i])] + KeySort.Sort(Keyed(RemoveAt(queue, i)))
  {
    hide KeySort.Sort, KeySort.Insert, NextIndex, RemoveAt, Keyed;
    SortUnfolds(queue);
    if |queue| == 1 {
      assert queue[1..] == [];
      OneMessage(queue);
      SortEmpty();
      InsertFirst((-queue[0].priority, queue[0]));
    } else {
      var rest := queue[1..];
      var n := NextIndex(rest);
      NextIndexUnfolds(queue);
      SortServesNext(rest);
      InsertSecond((-queue[0].priority, queue[0]), (-rest[n].priority, rest[n]), KeySort.Sort(Keyed(RemoveAt(rest, n))));
      if rest[n].priority > queue[0].priority {
        SortUnfolds(RemoveAt(queue, n + 1));
      }
    }
  }

  lemma OneMessage(queue: seq<Message>)
    requires |queue| == 1
    ensures NextIndex(queue) == 0 && RemoveAt(queue, 0) == []
  {
  }

  lemma SortEmpty()
    ensures KeySort.Sort(Keyed([])) == []
  {
  }

  lemma InsertFirst(x: (int, Message))
    ensures KeySort.Insert(x, []) == [x]
  {
  }

  /** Serving takes the head of the serve order and leaves its tail. */
  lemma ServeTakesHead(queue: seq<Message>)
    requires queue != []
    ensures var i := NextIndex(queue);
      ServeOrder(queue)[0] == queue[i] && ServeOrder(RemoveAt(queue, i)) == ServeOrder(queue)[1..]
  {
    SortServesNext(queue);
  }

  function OfPriority(queue: seq<Message>, priority: int): seq<Message> {
    if queue == [] then []
    else if queue[0].priority == priority then [queue[0]] + OfPriority(queue[1..], priority)
    else OfPriority(queue[1..], priority)
  }

  lemma {:induction false} OfPriorityIsKeyed(queue: seq<Message>, keyed: seq<(int, Message)>, priority: int)
    requires |keyed| == |queue| && forall i | 0 <= i < |queue| :: keyed[i] == (-queue[i].priority, queue[i])
    ensures |KeySort.WithKey(keyed, -priority)| == |OfPriority(queue, priority)|
    ensures forall i | 0 <= i < |OfPriority(queue, priority)| ::
      KeySort.WithKey(keyed, -priority)[i].1 == OfPriority(queue, priority)[i]
  {
    if queue != [] {
      OfPriorityIsKeyed(queue[1..], keyed[1..], priority);
    }
  }

  /** Messages of one priority are served in the order they were posted. */
  lemma SamePriorityInOrder(queue: seq<Message>, priority: int)
    ensures OfPriority(ServeOrder(queue), priority) == OfPriority(queue, priority)
  {
    hide KeySort.Sort;
    var keyed, sorted := Keyed(queue), KeySort.Sort(Keyed(queue));
    KeySort.SortIsStable(keyed, -priority);
    KeySort.SortIsSorted(keyed);
    forall i | 0 <= i < |sorted| ensures sorted[i] == (-sorted[i].1.priority, sorted[i].1) {
      assert sorted[i] in multiset(keyed);
    }
    OfPriorityIsKeyed(queue, keyed, priority);
    OfPriorityIsKeyed(ServeOrder(queue), sorted, priority);
  }

  lemma ServeOrderIsSorted(queue: seq<Message>)
    ensures forall i, j | 0 <= i < j < |queue| :: ServeOrder(queue)[i].priority >= ServeOrder(queue)[j].priority
    ensures forall m :: m in ServeOrder(queue) <==> m in queue
  {
    hide KeySort.Sort, Keyed;
    var keyed, sorted := Keyed(queue), KeySort.Sort(Keyed(queue));
    KeySort.SortIsSorted(keyed);
    forall i | 0 <= i < |sorted| ensures sorted[i].0 == -sorted[i].1.priority && sorted[i].1 in queue {
      assert sorted[i] in multiset(keyed);
      var k :| 0 <= k < |keyed| && keyed[k] == sorted[i];
    }
    forall i | 0 <= i < |queue| ensures queue[i] in ServeOrder(queue) {
      assert keyed[i] in multiset(sorted);
      var k :| 0 <= k < |sorted| && sorted[k] == keyed[i];
      assert ServeOrder(queue)[k] == queue[i];
    }
  }

  // ---------- the invariant ----------

  type Jobs = map<string, Job>

  /** Every QUEUED job can still be found, and every message that leads to a job carries its priority. */
  ghost predicate Reachable(jobs: Jobs, queue: seq<Message>) {
    && (forall id | id in jobs && jobs[id].status == Queued :: Message(id, jobs[id].priority) in queue)
    && (forall m | m in queue && m.jobId in jobs :: m.priority == jobs[m.jobId].priority)
  }

  /** A job's attempts are its claims, and stay within its allowance plus what was asked for by hand. */
  ghost predicate Accounted(id: string, job: Job, log: multiset<Event>) {
    && job.maxAttempts >= 1
    && job.attempts == log[Claimed(id)]
    && job.attempts + (if job.status == Queued then 1 else 0) <= job.maxAttempts + log[Resumed(id)] + log[Retried(id)]
  }

  /** The message leads to a job that waits to be claimed. */
  predicate Leads(jobs: Jobs, m: Message) {
    m.jobId in jobs && jobs[m.jobId].status == Queued
  }

  /** `rest` is what is left of `order` after messages that led nowhere. */
  ghost predicate Skipped(jobs: Jobs, order: seq<Message>, rest: seq<Message>) {
    && |rest| <= |order| && rest == order[|order| - |rest|..]
    && forall j | 0 <= j < |order| - |rest| :: !Leads(jobs, order[j])
  }

  lemma NothingSkipped(jobs: Jobs, order: seq<Message>)
    ensures Skipped(jobs, order, order)
  {
  }

  lemma SkipOne(jobs: Jobs, order: seq<Message>, rest: seq<Message>)
    requires Skipped(jobs, order, rest) && rest != [] && !Leads(jobs, rest[0])
    ensures Skipped(jobs, order, rest[1..])
  {
    assert rest[0] == order[|order| - |rest|];
  }

  lemma SkippedShape(jobs: Jobs, order: seq<Message>, rest: seq<Message>)
    requires Skipped(jobs, order, rest)
    ensures |rest| <= |order| && forall j | 0 <= j < |order| - |rest| :: !Leads(jobs, order[j])
    ensures rest != [] ==> rest[0] == order[|order| - |rest|] && rest[1..] == order[|order| - |rest| + 1..]
  {
  }

  /** `created` holds every id ever given to a job. */
  ghost predicate Inv(jobs: Jobs, queue: seq<Message>, created: set<string>, log: multiset<Event>) {
    && Reachable(jobs, queue)
    && (forall id | id in jobs :: id in created && Accounted(id, jobs[id], log))
    && (forall m | m in queue :: m.jobId in created)
    && (forall e | e in log :: e.id in created)
  }

  /** Storing one job, with or without a message and a logged event, keeps the invariant. */
  lemma StoreKeeps(jobs: Jobs, queue: seq<Message>, created: set<string>, log: multiset<Event>,
                   id: string, job: Job, queue': seq<Message>, log': multiset<Event>)
    requires Inv(jobs, queue, created, log) && id in jobs && job.priority == jobs[id].priority
    requires queue' == queue || queue' == queue + [Message(id, job.priority)]
    requires job.status == Queued ==> Message(id, job.priority) in queue'
    requires log' == log || exists e: Event :: e.id == id && log' == log + multiset{e}
    requires Accounted(id, job, log')
    ensures Inv(jobs[id := job], queue', created, log')
  {
    var jobs' := jobs[id := job];
    assert forall m | m in queue' :: m in queue || m == Message(id, job.priority);
    forall x | x in jobs' ensures x in created && Accounted(x, jobs'[x], log') {
      if x != id {
        assert Accounted(x, jobs[x], log);
      }
    }
  }

  lemma CreateKeeps(jobs: Jobs, queue: seq<Message>, created: set<string>, log: multiset<Event>, id: string, job: Job)
    requires Inv(jobs, queue, created, log) && id !in created
    requires job.attempts == 0 && job.maxAttempts >= 1
    ensures Inv(jobs[id := job], queue + [Message(id, job.priority)], created + {id}, log)
  {
    assert forall e: Event | e.id == id :: log[e] == 0;
    var queue' := queue + [Message(id, job.priority)];
    assert queue'[|queue|] == Message(id, job.priority);
    assert forall m | m in queue' :: m in queue || m == Message(id, job.priority);
    assert forall m | m in queue :: m in queue';
  }

  lemma DeleteKeeps(jobs: Jobs, queue: seq<Message>, created: set<string>, log: multiset<Event>, id: string)
    requires Inv(jobs, queue, created, log)
    ensures Inv(jobs - {id}, queue, created, log)
  {
  }

  /** A message that leads nowhere may be dropped. */
  lemma DropKeeps(jobs: Jobs, queue: seq<Message>, created: set<string>, log: multiset<Event>, m: Message, queue': seq<Message>)
    requires Inv(jobs, queue, created, log) && (m.jobId in jobs ==> jobs[m.jobId].status != Queued)
    requires forall x | x in queue' :: x in queue
    requires forall x | x in queue && x != m :: x in queue'
    ensures Inv(jobs, queue', created, log)
  {
  }

  /** So may the one that leads to a job being claimed. */
  lemma ClaimKeeps(jobs: Jobs, queue: seq<Message>, created: set<string>, log: multiset<Event>, m: Message, queue': seq<Message>)
    requires Inv(jobs, queue, created, log) && m.jobId in jobs && jobs[m.jobId].status == Queued
    requires forall x | x in queue' :: x in queue
    requires forall x | x in queue && x != m :: x in queue'
    ensures var job := jobs[m.jobId];
      Inv(jobs[m.jobId := job.(status := Running, attempts := job.attempts + 1)], queue', created,
          log + multiset{Claimed(m.jobId)})
  {
    var job := jobs[m.jobId];
    var jobs' := jobs[m.jobId := job.(status := Running, attempts := job.attempts + 1)];
    var log' := log + multiset{Claimed(m.jobId)};
    assert Accounted(m.jobId, job, log);
    forall x | x in jobs' ensures x in created && Accounted(x, jobs'[x], log') {
      if x != m.jobId {
        assert Accounted(x, jobs[x], log);
      }
    }
    forall x | x in jobs' && jobs'[x].status == Queued ensures Message(x, jobs'[x].priority) in queue' {
      assert Message(x, jobs[x].priority) != m;
    }
  }

  class Scheduler {
    var jobs: Jobs                      // storage under `jobs:`
    var queue: seq<Message>             // pending messages of the queue "jobs"
    ghost var created: set<string>      // every id ever given to a job
    ghost var log: multiset<Event>      // claims, effective resumes and manual retries

    ghost predicate Valid()
      reads this
    {
      Inv(jobs, queue, created, log)
    }

    /** Facts about one stored job. */
    lemma StoredJob(id: string)
      requires Valid() && id in jobs
      ensures Accounted(id, jobs[id], log)
      ensures jobs[id].status == Queued ==> Message(id, jobs[id].priority) in queue
    {
    }

    constructor ()
      ensures Valid() && jobs == map[] && queue == [] && created == {} && log == multiset{}
    {
      jobs, queue, created, log := map[], [], {}, multiset{};
    }

    /** Save the job and post one message for it. */
    method SaveAndEnqueue(id: string, job: Job)
      modifies `jobs, `queue
      ensures jobs == old(jobs)[id := job] && queue == old(queue) + [Message(id, job.priority)]
    {
      jobs := jobs[id := job];
      queue := queue + [Message(id, job.priority)];
    }

    method CreateJob(id: string, priority: int, maxAttempts: int)
      requires Valid() && id !in created
      modifies this
      ensures Valid() && created == old(created) + {id} && log == old(log)
      ensures jobs == old(jobs)[id := Job(priority, Queued, if maxAttempts < 1 then 1 else maxAttempts, 0, None, None)]
      ensures queue == old(queue) + [Message(id, priority)]
    {
      hide Inv;
      CreateKeeps(jobs, queue, created, log, id, Job(priority, Queued, if maxAttempts < 1 then 1 else maxAttempts, 0, None, None));
      SaveAndEnqueue(id, Job(priority, Queued, if maxAttempts < 1 then 1 else maxAttempts, 0, None, None));
      created := created + {id};
    }

    method CompleteJob(id: string, result: Option<string>) returns (found: bool)
      requires Valid()
      modifies `jobs
      ensures Valid() && (found <==> id in old(jobs))
      ensures jobs == if found then old(jobs)[id := old(jobs)[id].(status := Completed, result := result, error := None)] else old(jobs)
    {
      hide Inv;
      found := id in jobs;
      if found {
        StoredJob(id);
        StoreKeeps(jobs, queue, created, log, id, jobs[id].(status := Completed, result := result, error := None), queue, log);
        jobs := jobs[id := jobs[id].(status := Completed, result := result, error := None)];
      }
    }

    /** Requeue while attempts remain, unless the job was cancelled. */
    method FailJob(id: string, error: string, retry: bool) returns (found: bool)
      requires Valid()
      modifies `jobs, `queue
      ensures Valid() && (found <==> id in old(jobs))
      ensures !found ==> jobs == old(jobs) && queue == old(queue)
      ensures found ==>
        var job := old(jobs)[id];
        if retry && job.attempts < job.maxAttempts && job.status != Cancelled then
          && jobs == old(jobs)[id := job.(status := Queued, error := Some(error))]
          && queue == old(queue) + [Message(id, job.priority)]
        else
          jobs == old(jobs)[id := job.(status := Failed, error := Some(error))] && queue == old(queue)
    {
      hide Inv;
      found := id in jobs;
      if found {
        StoredJob(id);
        var job := jobs[id].(error := Some(error));
        if retry && job.attempts < job.maxAttempts && job.status != Cancelled {
          StoreKeeps(jobs, queue, created, log, id, job.(status := Queued), queue + [Message(id, job.priority)], log);
          SaveAndEnqueue(id, job.(status := Queued));
        } else {
          StoreKeeps(jobs, queue, created, log, id, job.(status := Failed), queue, log);
          jobs := jobs[id := job.(status := Failed)];
        }
      }
    }

    method PauseJob(id: string) returns (found: bool)
      requires Valid()
      modifies `jobs
      ensures Valid() && (found <==> id in old(jobs))
      ensures found ==>
        var job := old(jobs)[id];
        jobs == if job.status == Completed || job.status == Failed || job.status == Cancelled then old(jobs)
                else old(jobs)[id := job.(status := Paused)]
      ensures !found ==> jobs == old(jobs)
    {
      hide Inv;
      found := id in jobs;
      if found {
        StoredJob(id);
        var job := jobs[id];
        if job.status == Completed || job.status == Failed || job.status == Cancelled {
          return;
        }
        StoreKeeps(jobs, queue, created, log, id, job.(status := Paused), queue, log);
        jobs := jobs[id := job.(status := Paused)];
      }
    }

    method ResumeJob(id: string) returns (found: bool)
      requires Valid()
      modifies `jobs, `queue, `log
      ensures Valid() && (found <==> id in old(jobs))
      ensures if found && old(jobs)[id].status == Paused then
          && jobs == old(jobs)[id := old(jobs)[id].(status := Queued)]
          && queue == old(queue) + [Message(id, jobs[id].priority)]
          && log == old(log) + multiset{Resumed(id)}
        else jobs == old(jobs) && queue == old(queue) && log == old(log)
    {
      hide Inv;
      found := id in jobs;
      if found && jobs[id].status == Paused {
        StoredJob(id);
        StoreKeeps(jobs, queue, created, log, id, jobs[id].(status := Queued), queue + [Message(id, jobs[id].priority)],
                   log + multiset{Resumed(id)});
        SaveAndEnqueue(id, jobs[id].(status := Queued));
        log := log + multiset{Resumed(id)};
      }
    }

    method CancelJob(id: string) returns (found: bool)
      requires Valid()
      modifies `jobs
      ensures Valid() && (found <==> id in old(jobs))
      ensures jobs == if found && old(jobs)[id].status != Completed
                      then old(jobs)[id := old(jobs)[id].(status := Cancelled)] else old(jobs)
    {
      hide Inv;
      found := id in jobs;
      if found && jobs[id].status != Completed {
        StoredJob(id);
        StoreKeeps(jobs, queue, created, log, id, jobs[id].(status := Cancelled), queue, log);
        jobs := jobs[id := jobs[id].(status := Cancelled)];
      }
    }

    method RetryJob(id: string) returns (found: bool)
      requires Valid()
      modifies `jobs, `queue, `log
      ensures Valid() && (found <==> id in old(jobs))
      ensures if found && (old(jobs)[id].status == Failed || old(jobs)[id].status == Cancelled) then
          && jobs == old(jobs)[id := old(jobs)[id].(status := Queued, error := None)]
          && queue == old(queue) + [Message(id, jobs[id].priority)]
          && log == old(log) + multiset{Retried(id)}
        else jobs == old(jobs) && queue == old(queue) && log == old(log)
    {
      hide Inv;
      found := id in jobs;
      if found && (jobs[id].status == Failed || jobs[id].status == Cancelled) {
        StoredJob(id);
        StoreKeeps(jobs, queue, created, log, id, jobs[id].(status := Queued, error := None),
                   queue + [Message(id, jobs[id].priority)], log + multiset{Retried(id)});
        SaveAndEnqueue(id, jobs[id].(status := Queued, error := None));
        log := log + multiset{Retried(id)};
      }
    }

    /** The record goes; its messages stay behind as tombstones. */
    method DeleteJob(id: string) returns (deleted: bool)
      requires Valid()
      modifies `jobs
      ensures Valid() && (deleted <==> id in old(jobs)) && jobs == old(jobs) - {id}
    {
      hide Inv;
      DeleteKeeps(jobs, queue, created, log, id);
      deleted := id in jobs;
      jobs := jobs - {id};
    }

    // ---------- claiming ----------

    lemma HeadPriority(was: seq<Message>, m: Message)
      requires Inv(jobs, was, created, log) && m in was && m.jobId in jobs
      ensures m.priority == jobs[m.jobId].priority
    {
    }

    /** Take the next message off the queue. */
    method Dequeue() returns (m: Message)
      requires Valid() && queue != []
      modifies `queue
      ensures m == ServeOrder(old(queue))[0] && ServeOrder(queue) == ServeOrder(old(queue))[1..]
      ensures m in old(queue) && |queue| == |old(queue)| - 1
      ensures forall x | x in queue :: x in old(queue)
      ensures forall x | x in old(queue) && x != m :: x in queue
    {
      ServeTakesHead(queue);
      var i := NextIndex(queue);
      m := queue[i];
      RemoveKeepsOthers(queue, i);
      queue := RemoveAt(queue, i);
    }

    /** A QUEUED job's message waits somewhere in the serve order, behind nothing of lower priority. */
    lemma QueuedJobWaits(id: string)
      requires Valid() && id in jobs && jobs[id].status == Queued
      ensures queue != []
      ensures var head := ServeOrder(queue)[0]; jobs[id].priority <= head.priority
    {
      ServeOrderIsSorted(queue);
      assert Message(id, jobs[id].priority) in ServeOrder(queue);
    }

    /**
     Serve messages until one leads to a QUEUED job.  The served messages are a
     prefix of the serve order, none of them but the last leading anywhere;
     no other job is touched, and the claimed one has the highest priority of
     all QUEUED jobs.
     */
    method ClaimNextJob() returns (claimed: Option<string>)
      requires Valid()
      modifies `jobs, `queue, `log
      ensures Valid()
      ensures claimed.None? ==>
        && (forall id | id in old(jobs) :: old(jobs)[id].status != Queued)
        && jobs == old(jobs) && log == old(log) && queue == []
        && (forall j | 0 <= j < |old(queue)| :: !Leads(old(jobs), ServeOrder(old(queue))[j]))
      ensures claimed.Some? ==>
        var id := claimed.value;
        && id in old(jobs) && old(jobs)[id].status == Queued
        && jobs == old(jobs)[id := old(jobs)[id].(status := Running, attempts := old(jobs)[id].attempts + 1)]
        && log == old(log) + multiset{Claimed(id)}
        && (forall other | other in old(jobs) && old(jobs)[other].status == Queued ::
              old(jobs)[other].priority <= old(jobs)[id].priority)
        && |queue| < |old(queue)|
        && var k := |old(queue)| - |queue| - 1;
           && ServeOrder(queue) == ServeOrder(old(queue))[k + 1..]
           && ServeOrder(old(queue))[k].jobId == id
           && forall j | 0 <= j < k :: !Leads(old(jobs), ServeOrder(old(queue))[j])
    {
      hide ServeOrder, Inv, Skipped, Accounted;
      ghost var order := ServeOrder(queue);
      NothingSkipped(jobs, order);
      while true
        invariant Valid() && jobs == old(jobs) && log == old(log)
        invariant Skipped(jobs, order, ServeOrder(queue))
        decreases |queue|
      {
        forall id | id in jobs && jobs[id].status == Queued
          ensures queue != [] && jobs[id].priority <= ServeOrder(queue)[0].priority
        {
          QueuedJobWaits(id);
        }
        if queue == [] {
          SkippedShape(jobs, order, ServeOrder(queue));
          return None;
        }
        ghost var was := queue;
        SkippedShape(jobs, order, ServeOrder(queue));
        var m := Dequeue();
        if m.jobId !in jobs {
          DropKeeps(jobs, was, created, log, m, queue);
          SkipOne(jobs, order, ServeOrder(was));
          continue;
        }
        var job := jobs[m.jobId];
        if job.status != Queued {
          DropKeeps(jobs, was, created, log, m, queue);
          SkipOne(jobs, order, ServeOrder(was));
          continue;
        }
        ClaimKeeps(jobs, was, created, log, m, queue);
        HeadPriority(was, m);
        jobs := jobs[m.jobId := job.(status := Running, attempts := job.attempts + 1)];
        log := log + multiset{Claimed(m.jobId)};
        return Some(m.jobId);
      }
    }
  }

  lemma RemoveKeepsOthers(queue: seq<Message>, i: nat)
    requires i < |queue|
    ensures forall m :: m in RemoveAt(queue, i) ==> m in queue
    ensures forall m :: m in queue && m != queue[i] ==> m in RemoveAt(queue, i)
  {
    assert queue == queue[..i] + [queue[i]] + queue[i + 1..];
  }
}

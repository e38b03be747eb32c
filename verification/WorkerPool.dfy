/** The worker registry: leases, their expiry, and the choice of the least loaded matching worker. */
module WorkerPool {
  import opened Options
  import TextOrder

  datatype Status = Registered | Healthy | Degraded | Unhealthy | Reserved | Draining | Disconnected

  datatype Capabilities = Capabilities(
    modelId: string, languages: set<string>, voiceClone: bool, referenceAudio: bool, referenceText: bool,
    streaming: bool, emotions: bool, vram: real)

  datatype Worker = Worker(id: string, cap: Capabilities, status: Status, active: int, max: int)

  datatype Lease = Lease(workerId: string, modelId: string, expiresAt: Option<real>)

  datatype Criteria = Criteria(
    language: Option<string>, voiceClone: Option<bool>, referenceAudio: Option<bool>, referenceText: Option<bool>,
    streaming: Option<bool>, emotions: Option<bool>, maxVram: Option<real>, modelId: Option<string>)

  function Lower(s: string): string {
    seq(|s|, i requires 0 <= i < |s| => if 'A' <= s[i] <= 'Z' then s[i] - 'A' + 'a' else s[i])
  }

  predicate Agrees(wanted: Option<bool>, has: bool) {
    wanted.Some? ==> has == wanted.value
  }

  predicate Speaks(languages: set<string>, wanted: Option<string>) {
    wanted.None? || wanted.value == "" || languages == {} || "*" in languages || Lower(wanted.value) in languages
  }

  predicate Matches(w: Worker, c: Criteria) {
    && w.status !in {Unhealthy, Disconnected, Draining}
    && (c.modelId.Some? ==> w.cap.modelId == c.modelId.value)
    && Speaks(w.cap.languages, c.language)
    && Agrees(c.voiceClone, w.cap.voiceClone)
    && Agrees(c.referenceAudio, w.cap.referenceAudio)
    && Agrees(c.referenceText, w.cap.referenceText)
    && Agrees(c.streaming, w.cap.streaming)
    && Agrees(c.emotions, w.cap.emotions)
    && (c.maxVram.Some? ==> w.cap.vram <= c.maxVram.value)
  }

  /** Lower-casing changes the capital letters only. */
  lemma LowerMeans(s: string, i: nat)
    requires i < |s|
    ensures |Lower(s)| == |s|
    ensures if 'A' <= s[i] <= 'Z' then 'a' <= Lower(s)[i] <= 'z' && Lower(s)[i] as int - s[i] as int == 32
            else Lower(s)[i] == s[i]
  {
  }

  /** A match is fit for use and agrees with everything that is asked for. */
  lemma MatchMeans(w: Worker, c: Criteria)
    ensures Matches(w, c) <==>
      && w.status != Unhealthy && w.status != Disconnected && w.status != Draining
      && (c.modelId == None || c.modelId == Some(w.cap.modelId))
      && (c.language == None || c.language == Some("") || w.cap.languages == {} || "*" in w.cap.languages
          || Lower(c.language.value) in w.cap.languages)
      && (c.voiceClone == None || c.voiceClone == Some(w.cap.voiceClone))
      && (c.referenceAudio == None || c.referenceAudio == Some(w.cap.referenceAudio))
      && (c.referenceText == None || c.referenceText == Some(w.cap.referenceText))
      && (c.streaming == None || c.streaming == Some(w.cap.streaming))
      && (c.emotions == None || c.emotions == Some(w.cap.emotions))
      && (c.maxVram == None || w.cap.vram <= c.maxVram.value)
  {
  }

  // ---------- order of choice ----------

  function Load(w: Worker): real {
    w.active as real / (if w.max < 1 then 1 else w.max) as real
  }

  /** `(active / max(1, max), active, id)` */
  predicate Lighter(a: Worker, b: Worker) {
    || Load(a) < Load(b)
    || (Load(a) == Load(b) && a.active < b.active)
    || (Load(a) == Load(b) && a.active == b.active && TextOrder.Less(a.id, b.id))
  }

  lemma RatioLess(a: int, m: int, b: int, n: int)
    requires m >= 1 && n >= 1
    ensures a as real / m as real < b as real / n as real <==> a * n < b * m
    ensures a as real / m as real == b as real / n as real <==> a * n == b * m
  {
    var x, y := a as real / m as real, b as real / n as real;
    var p, q, r, s := a as real, m as real, b as real, n as real;
    assert x * q == p && y * s == r;
    assert (a * n) as real == p * s && (b * m) as real == r * q;
    assert p * s == x * (q * s) && r * q == y * (q * s);
    Scale(x, y, q * s);
  }

  lemma Scale(x: real, y: real, c: real)
    requires c > 0.0
    ensures x < y <==> x * c < y * c
    ensures x == y <==> x * c == y * c
  {
    if x < y {
      assert (y - x) * c > 0.0;
    } else if y < x {
      assert (x - y) * c > 0.0;
    }
  }

  /** Shares of the maximum compared by cross multiplication, then the counts, then the ids. */
  lemma LighterMeans(a: Worker, b: Worker)
    ensures Lighter(a, b) <==>
      var m, n := if a.max < 1 then 1 else a.max, if b.max < 1 then 1 else b.max;
      || a.active * n < b.active * m
      || (a.active * n == b.active * m && a.active < b.active)
      || (a.active * n == b.active * m && a.active == b.active && a.id != b.id
          && exists p: nat :: TextOrder.FirstDifference(a.id, b.id, p))
  {
    var m, n := if a.max < 1 then 1 else a.max, if b.max < 1 then 1 else b.max;
    RatioLess(a.active, m, b.active, n);
    TextOrder.LeqMeans(a.id, b.id);
    assert Load(a) == a.active as real / m as real && Load(b) == b.active as real / n as real;
  }

  lemma LighterTotal(a: Worker, b: Worker)
    requires a.id != b.id
    ensures Lighter(a, b) || Lighter(b, a)
    ensures !(Lighter(a, b) && Lighter(b, a))
  {
    hide Load;
    TextOrder.Total(a.id, b.id);
    if TextOrder.Leq(a.id, b.id) && TextOrder.Leq(b.id, a.id) {
      TextOrder.Antisymmetric(a.id, b.id);
    }
  }

  lemma LighterTransitive(a: Worker, b: Worker, c: Worker)
    requires Lighter(a, b) && Lighter(b, c)
    ensures Lighter(a, c)
  {
    hide Load;
    if TextOrder.Less(a.id, b.id) && TextOrder.Less(b.id, c.id) {
      TextOrder.LessTransitive(a.id, b.id, c.id);
    }
  }

  // ---------- accounting ----------

  /** The leases that name a worker. */
  function Naming(leases: map<string, Lease>, worker: string): set<string> {
    set id | id in leases && leases[id].workerId == worker
  }

  /**
   Every worker counts exactly the leases that name it, never more than its
   maximum, and no lease names an unknown worker.
   */
  ghost predicate Accounting(workers: map<string, Worker>, leases: map<string, Lease>) {
    && (forall w | w in workers ::
      && workers[w].id == w && workers[w].active == |Naming(leases, w)|
      && (workers[w].active == 0 || workers[w].active <= workers[w].max))
    && (forall id | id in leases :: leases[id].workerId in workers)
  }

  /** `after` is part of `before`. */
  ghost predicate Fewer(after: map<string, Lease>, before: map<string, Lease>) {
    forall id | id in after :: id in before && after[id] == before[id]
  }

  /** A worker whose leases went from `before` to `after`: fewer active, and the status told by what is left. */
  function Reconciled(w: Worker, before: set<string>, after: set<string>): Worker {
    if before == after then w
    else w.(active := |after|, status := if |after| == 0 then Healthy else Reserved)
  }

  function AllReconciled(workers: map<string, Worker>, before: map<string, Lease>, after: map<string, Lease>): map<string, Worker> {
    map w | w in workers :: Reconciled(workers[w], Naming(before, w), Naming(after, w))
  }

  lemma {:induction false} SubsetCount(a: set<string>, b: set<string>)
    requires a <= b
    ensures |a| <= |b|
    ensures |a| == |b| ==> a == b
  {
    if a == {} {
    } else {
      var x :| x in a;
      SubsetCount(a - {x}, b - {x});
      assert a == a - {x} + {x} && b == b - {x} + {x};
    }
  }

  lemma ReconciledAccounts(workers: map<string, Worker>, before: map<string, Lease>, after: map<string, Lease>)
    requires Accounting(workers, before) && Fewer(after, before)
    ensures Accounting(AllReconciled(workers, before, after), after)
  {
    forall w | w in workers
      ensures var r := Reconciled(workers[w], Naming(before, w), Naming(after, w));
        r.id == w && r.active == |Naming(after, w)| && (r.active == 0 || r.active <= r.max)
    {
      SubsetCount(Naming(after, w), Naming(before, w));
    }
  }

  lemma ReconciledTwice(workers: map<string, Worker>, a: map<string, Lease>, b: map<string, Lease>, c: map<string, Lease>)
    requires Fewer(b, a) && Fewer(c, b)
    ensures AllReconciled(AllReconciled(workers, a, b), b, c) == AllReconciled(workers, a, c)
  {
    forall w | w in workers
      ensures Reconciled(Reconciled(workers[w], Naming(a, w), Naming(b, w)), Naming(b, w), Naming(c, w))
           == Reconciled(workers[w], Naming(a, w), Naming(c, w))
    {
      assert Naming(c, w) <= Naming(b, w) <= Naming(a, w);
    }
  }

  lemma NothingChanged(workers: map<string, Worker>, leases: map<string, Lease>)
    ensures AllReconciled(workers, leases, leases) == workers
  {
  }

  /** Dropping one lease: its worker loses exactly one, and no clamp at zero is needed. */
  lemma DropOne(workers: map<string, Worker>, leases: map<string, Lease>, id: string)
    requires Accounting(workers, leases) && id in leases
    ensures var name := leases[id].workerId;
      var w := workers[name];
      && name in workers && w.active >= 1
      && AllReconciled(workers, leases, leases - {id})
         == workers[name := w.(active := w.active - 1, status := if w.active == 1 then Healthy else Reserved)]
  {
    var name := leases[id].workerId;
    assert id in Naming(leases, name);
    assert Naming(leases - {id}, name) == Naming(leases, name) - {id};
    forall w | w in workers && w != name ensures Naming(leases - {id}, w) == Naming(leases, w) {
    }
  }

  // ---------- expiry ----------

  predicate Expired(l: Lease, now: real) {
    l.expiresAt.Some? && l.expiresAt.value <= now
  }

  function LiveLeases(leases: map<string, Lease>, now: real): map<string, Lease> {
    map id | id in leases && !Expired(leases[id], now) :: leases[id]
  }

  /** A lease is live without an end, or before it. */
  lemma LiveMeans(leases: map<string, Lease>, now: real, id: string)
    ensures id in LiveLeases(leases, now) <==>
      id in leases && (leases[id].expiresAt.None? || now < leases[id].expiresAt.value)
    ensures id in LiveLeases(leases, now) ==> LiveLeases(leases, now)[id] == leases[id]
  {
  }

  /** The workers after the expiry sweep. */
  function Swept(workers: map<string, Worker>, leases: map<string, Lease>, now: real): map<string, Worker> {
    AllReconciled(workers, leases, LiveLeases(leases, now))
  }

  /** Sweeping can put a drained or unhealthy worker back to use: exactly when one of its leases ran out. */
  lemma SweepRevives(workers: map<string, Worker>, leases: map<string, Lease>, now: real, w: string)
    requires w in workers && workers[w].status in {Unhealthy, Disconnected, Draining}
    ensures Swept(workers, leases, now)[w].status !in {Unhealthy, Disconnected, Draining} <==>
      exists id :: id in leases && leases[id].workerId == w && Expired(leases[id], now)
  {
    var before, after := Naming(leases, w), Naming(LiveLeases(leases, now), w);
    assert after <= before;
    if before != after {
      var id :| id in before && id !in after;
      assert Expired(leases[id], now);
    } else {
      forall id | id in leases && leases[id].workerId == w ensures !Expired(leases[id], now) {
        assert id in before;
      }
    }
  }

  // ---------- choice ----------

  predicate HasRoom(w: Worker, c: Criteria) {
    Matches(w, c) && w.active < w.max
  }

  ghost predicate IsLightest(workers: map<string, Worker>, c: Criteria, r: Option<string>) {
    match r
    case None => forall w | w in workers && Matches(workers[w], c) :: workers[w].active >= workers[w].max
    case Some(name) =>
      && name in workers && Matches(workers[name], c) && workers[name].active < workers[name].max
      && forall w | w in workers && w != name && Matches(workers[w], c) && workers[w].active < workers[w].max ::
        Lighter(workers[name], workers[w])
  }

  function Taken(w: Worker): Worker {
    w.(active := w.active + 1, status := if w.active + 1 >= w.max then Reserved else Healthy)
  }

  lemma LeaseAdded(workers: map<string, Worker>, leases: map<string, Lease>, id: string, lease: Lease)
    requires Accounting(workers, leases) && id !in leases && lease.workerId in workers
    requires workers[lease.workerId].active < workers[lease.workerId].max
    ensures Accounting(workers[lease.workerId := Taken(workers[lease.workerId])], leases[id := lease])
    ensures var w, t := workers[lease.workerId], Taken(workers[lease.workerId]);
      && t.active == w.active + 1 && t.status == (if w.active + 1 == w.max then Reserved else Healthy)
      && (t.id, t.cap, t.max) == (w.id, w.cap, w.max)
  {
    var name, more := lease.workerId, leases[id := lease];
    var taken := workers[name := Taken(workers[name])];
    forall w | w in taken
      ensures taken[w].id == w && taken[w].active == |Naming(more, w)| && (taken[w].active == 0 || taken[w].active <= taken[w].max)
    {
      NamingAfterAdd(leases, id, lease, w);
    }
  }

  lemma NamingAfterAdd(leases: map<string, Lease>, id: string, lease: Lease, w: string)
    requires id !in leases
    ensures |Naming(leases[id := lease], w)| == |Naming(leases, w)| + if w == lease.workerId then 1 else 0
  {
    var more := leases[id := lease];
    assert id !in Naming(leases, w);
    assert Naming(more, w) == if w == lease.workerId then Naming(leases, w) + {id} else Naming(leases, w);
  }

  function Without(leases: map<string, Lease>, worker: string): map<string, Lease> {
    map l | l in leases && leases[l].workerId != worker :: leases[l]
  }

  lemma UnregisterAccounts(workers: map<string, Worker>, leases: map<string, Lease>, id: string)
    requires Accounting(workers, leases)
    ensures Accounting(workers - {id}, Without(leases, id))
  {
    forall w | w in workers && w != id ensures Naming(Without(leases, id), w) == Naming(leases, w) {
    }
  }

  class Pool {
    var workers: map<string, Worker>
    var leases: map<string, Lease>

    ghost predicate Valid()
      reads this
    {
      Accounting(workers, leases)
    }

    constructor ()
      ensures Valid() && workers == map[] && leases == map[]
    {
      workers, leases := map[], map[];
    }

    /**
     Registering keeps the accounting exactly when the descriptor already
     counts the leases that name it; a new id must count none.
     */
    method RegisterWorker(w: Worker)
      requires Valid()
      modifies this
      ensures workers == old(workers)[w.id := w.(status := Healthy)] && leases == old(leases)
      ensures Valid() <==> w.active == |Naming(leases, w.id)| && (w.active == 0 || w.active <= w.max)
      ensures w.id !in old(workers) ==> Naming(leases, w.id) == {}
    {
      var registered := w.(status := Healthy);
      workers := workers[w.id := registered];
      assert workers[w.id] == registered;
    }

    /** Unregistering takes the worker's leases with it. */
    method UnregisterWorker(id: string)
      requires Valid()
      modifies this
      ensures Valid() && workers == old(workers) - {id}
      ensures leases == Without(old(leases), id)
    {
      hide Accounting;
      UnregisterAccounts(workers, leases, id);
      workers := workers - {id};
      var todo := leases.Keys;
      while todo != {}
        invariant todo <= old(leases).Keys && workers == old(workers) - {id}
        invariant leases == map l | l in old(leases) && (l in todo || old(leases)[l].workerId != id) :: old(leases)[l]
      {
        var l :| l in todo;
        todo := todo - {l};
        if leases[l].workerId == id {
          leases := leases - {l};
        }
      }
      assert leases == Without(old(leases), id);
    }

    /** Drops the expired leases and tells their workers. */
    method ExpireReservations(now: real)
      requires Valid()
      modifies this
      ensures Valid() && leases == LiveLeases(old(leases), now)
      ensures workers == Swept(old(workers), old(leases), now)
    {
      hide Accounting, AllReconciled;
      var todo := leases.Keys;
      NothingChanged(workers, leases);
      while todo != {}
        invariant todo <= old(leases).Keys
        invariant leases == map l | l in old(leases) && (l in todo || !Expired(old(leases)[l], now)) :: old(leases)[l]
        invariant workers == AllReconciled(old(workers), old(leases), leases)
        invariant Accounting(workers, leases)
      {
        var id :| id in todo;
        todo := todo - {id};
        var lease := leases[id];
        if Expired(lease, now) {
          ghost var before, beforeWorkers := leases, workers;
          DropOne(workers, leases, id);
          leases := leases - {id};
          var name := lease.workerId;
          if name in workers {
            var w := workers[name];
            var left := if w.active - 1 < 0 then 0 else w.active - 1;
            workers := workers[name := w.(active := left, status := if left == 0 then Healthy else Reserved)];
          }
          ReconciledAccounts(beforeWorkers, before, leases);
          ReconciledTwice(old(workers), old(leases), before, leases);
        }
      }
      assert leases == LiveLeases(old(leases), now);
    }

    /** Gives a lease back; an unknown id changes nothing. */
    method ReleaseWorker(id: string) returns (r: bool)
      requires Valid()
      modifies this
      ensures Valid() && r == (id in old(leases)) && leases == old(leases) - {id}
      ensures workers == AllReconciled(old(workers), old(leases), leases)
    {
      hide Accounting, AllReconciled;
      if id !in leases {
        assert leases - {id} == leases;
        NothingChanged(workers, leases);
        return false;
      }
      DropOne(workers, leases, id);
      ReconciledAccounts(workers, leases, leases - {id});
      var name := leases[id].workerId;
      leases := leases - {id};
      if name in workers {
        var w := workers[name];
        var left := if w.active - 1 < 0 then 0 else w.active - 1;
        workers := workers[name := w.(active := left, status := if left == 0 then Healthy else Reserved)];
      }
      return true;
    }

    /** The first of the sorted candidates. */
    method Lightest(c: Criteria) returns (best: Option<string>)
      requires Valid()
      ensures IsLightest(workers, c, best)
    {
      hide Lighter, Matches, Naming;
      best := None;
      var todo := workers.Keys;
      while todo != {}
        invariant todo <= workers.Keys
        invariant best.None? ==> forall w | w in workers && w !in todo :: !HasRoom(workers[w], c)
        invariant best.Some? ==> best.value in workers && best.value !in todo && HasRoom(workers[best.value], c)
        invariant best.Some? ==> forall w | w in workers && w !in todo && w != best.value && HasRoom(workers[w], c) ::
          Lighter(workers[best.value], workers[w])
      {
        var id :| id in todo;
        todo := todo - {id};
        if HasRoom(workers[id], c) {
          if best.None? {
            best := Some(id);
          } else {
            var champion := workers[best.value];
            LighterTotal(workers[id], champion);
            if Lighter(workers[id], champion) {
              forall w | w in workers && w !in todo && w != id && w != best.value && HasRoom(workers[w], c)
                ensures Lighter(workers[id], workers[w])
              {
                LighterTransitive(workers[id], champion, workers[w]);
              }
              best := Some(id);
            }
          }
        }
      }
    }

    /**
     Fails exactly when, after the sweep, no matching worker has room;
     otherwise leases the lightest one.  `id` is a fresh reservation id.
     */
    method ReserveWorker(c: Criteria, ttl: Option<real>, now: real, later: real, id: string) returns (r: Option<string>)
      requires Valid() && id !in leases
      modifies this
      ensures Valid()
      ensures IsLightest(Swept(old(workers), old(leases), now), c, r)
      ensures r.None? ==> workers == Swept(old(workers), old(leases), now) && leases == LiveLeases(old(leases), now)
      ensures r.Some? ==>
        var swept := Swept(old(workers), old(leases), now);
        && workers == swept[r.value := Taken(swept[r.value])]
        && leases == LiveLeases(old(leases), now)[id := Lease(r.value, swept[r.value].cap.modelId,
                                                              if ttl.Some? && ttl.value != 0.0 then Some(later + ttl.value) else None)]
    {
      hide Accounting, Swept, Matches, Lighter;
      ExpireReservations(now);
      r := Lightest(c);
      if r.Some? {
        var w := workers[r.value];
        KeyIsId(workers, leases, r.value);
        var lease := Lease(w.id, w.cap.modelId, if ttl.Some? && ttl.value != 0.0 then Some(later + ttl.value) else None);
        LeaseAdded(workers, leases, id, lease);
        workers := workers[r.value := w.(active := w.active + 1, status := if w.active + 1 >= w.max then Reserved else Healthy)];
        leases := leases[id := lease];
      }
    }
  }

  lemma KeyIsId(workers: map<string, Worker>, leases: map<string, Lease>, w: string)
    requires Accounting(workers, leases) && w in workers
    ensures workers[w].id == w
  {
  }
}

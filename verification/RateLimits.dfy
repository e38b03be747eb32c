/** The two limiters built on sliding windows: the provider manager's and the HTTP middleware's. */
module RateLimits {
  import opened Rounding
  import opened SlidingWindow

  datatype Attempt = Granted | Wait(seconds: real) | EmptyMin

  // ---------- one pruned list ----------

  lemma {:induction false} AllLiveKept(w: Window, times: seq<real>, now: real)
    requires forall t | t in times :: Live(w, t, now)
    ensures Prune(w, times, now) == times
  {
    if times != [] {
      var n := |times| - 1;
      assert times[n] in times && forall t | t in times[..n] :: t in times;
      AllLiveKept(w, times[..n], now);
    }
  }

  lemma {:induction false} DeadFirstDropped(w: Window, times: seq<real>, now: real)
    requires times != [] && !Live(w, times[0], now)
    ensures Prune(w, times, now) == Prune(w, times[1..], now)
  {
    if |times| > 1 {
      var n := |times| - 1;
      DeadFirstDropped(w, times[..n], now);
      assert times[1..][..n - 1] == times[..n][1..];
    }
  }

  predicate AllBelow(times: seq<real>, bound: real) {
    forall i | 0 <= i < |times| :: times[i] <= bound
  }

  predicate Rising(times: seq<real>) {
    forall i, j | 0 <= i < j < |times| :: times[i] <= times[j]
  }

  /** A pruned list that is nondecreasing and decides like its whole history. */
  ghost predicate ListOk(w: Window, limit: int, hits: seq<real>, granted: seq<real>, clock: real) {
    && GrantedWithin(w, limit, granted)
    && Agrees(w, hits, granted, clock)
    && Rising(hits)
    && (forall t | t in granted :: t <= clock)
    && (forall t | t in hits :: t <= clock)
  }

  lemma ListStaysOk(w: Window, limit: int, hits: seq<real>, granted: seq<real>, clock: real, now: real)
    requires ListOk(w, limit, hits, granted, clock) && clock <= now
    ensures ListOk(w, limit, hits, granted, now)
  {
  }

  /** Letting one more request through, fewer than the limit counting. */
  lemma ListGrants(w: Window, limit: int, hits: seq<real>, granted: seq<real>, now: real)
    requires ListOk(w, limit, hits, granted, now) && |Prune(w, granted, now)| < limit
    ensures ListOk(w, limit, hits + [now], granted + [now], now)
  {
    GrantKeeps(w, limit, granted, now);
    AgreesAfterGrant(w, hits, granted, now);
    assert forall i | 0 <= i < |hits| :: hits[i] in hits;
  }

  /** Popping expired times from the left is pruning, and keeps the key in order. */
  method PopExpired(ghost w: Window, ghost limit: int, start: seq<real>, ghost granted: seq<real>, width: real, now: real)
    returns (kept: seq<real>)
    requires w == Window(width, true) && ListOk(w, limit, start, granted, now)
    ensures kept == Prune(w, start, now) && ListOk(w, limit, kept, granted, now)
    ensures |kept| == |Prune(w, granted, now)|
  {
    hide ListOk;
    kept := start;
    ListOrder(w, limit, start, granted, now);
    while kept != [] && now - kept[0] > width
      invariant Rising(kept)
      invariant forall t | t in kept :: t in start
      invariant Prune(w, kept, now) == Prune(w, start, now)
    {
      DeadFirstDropped(w, kept, now);
      kept := kept[1..];
    }
    AllLiveKept(w, kept, now);
    ListPruned(w, limit, start, granted, now);
  }

  lemma ListOrder(w: Window, limit: int, hits: seq<real>, granted: seq<real>, now: real)
    requires ListOk(w, limit, hits, granted, now)
    ensures Rising(hits)
  {
  }

  lemma {:induction false} PruneBelow(w: Window, times: seq<real>, now: real, bound: real)
    requires AllBelow(times, bound)
    ensures AllBelow(Prune(w, times, now), bound)
  {
    if times != [] {
      PruneBelow(w, times[..|times| - 1], now, bound);
    }
  }

  lemma {:induction false} PruneKeepsOrder(w: Window, times: seq<real>, now: real)
    requires Rising(times)
    ensures Rising(Prune(w, times, now))
  {
    if times != [] {
      var n := |times| - 1;
      PruneKeepsOrder(w, times[..n], now);
      PruneBelow(w, times[..n], now, times[n]);
    }
  }

  lemma ListDecides(w: Window, limit: int, hits: seq<real>, granted: seq<real>, clock: real, now: real)
    requires ListOk(w, limit, hits, granted, clock) && clock <= now
    ensures |Prune(w, hits, now)| == |Prune(w, granted, now)|
  {
    AgreesAfterPrune(w, hits, granted, clock, now);
  }

  lemma ListPruned(w: Window, limit: int, hits: seq<real>, granted: seq<real>, now: real)
    requires ListOk(w, limit, hits, granted, now)
    ensures ListOk(w, limit, Prune(w, hits, now), granted, now)
    ensures |Prune(w, hits, now)| == |Prune(w, granted, now)|
  {
    AgreesAfterPrune(w, hits, granted, now, now);
    PruneKeepsOrder(w, hits, now);
  }

  // ---------- provider ----------

  /** Rate-limit state of one provider record. */
  class ProviderLimiter {
    const maxRequests: int
    const windowSeconds: real
    var requestTimes: seq<real>
    ghost var history: seq<real>   // every grant ever made
    ghost var clock: real          // the latest time seen

    ghost const w: Window

    ghost predicate Valid()
      reads this
    {
      && w == Window(windowSeconds, false)
      && ListOk(w, maxRequests, requestTimes, history, clock)
      && |requestTimes| <= (if maxRequests < 0 then 0 else maxRequests)
    }

    constructor (maxRequests: int, windowSeconds: real, now: real)
      ensures Valid() && this.maxRequests == maxRequests && this.windowSeconds == windowSeconds
      ensures requestTimes == [] && history == [] && clock == now
    {
      this.maxRequests, this.windowSeconds := maxRequests, windowSeconds;
      w := Window(windowSeconds, false);
      requestTimes, history, clock := [], [], now;
    }

    /** `_rate_limit_exhausted`: the answer is that of counting over the whole history. */
    method Exhausted(now: real) returns (r: bool)
      requires Valid() && clock <= now
      ensures r <==> |Prune(w, history, now)| >= maxRequests
    {
      AgreesAfterPrune(w, requestTimes, history, clock, now);
      var recent := Prune(Window(windowSeconds, false), requestTimes, now);
      r := |recent| >= maxRequests;
    }

    /** One turn of `_apply_rate_limit` under the lock. */
    method TryAcquire(now: real) returns (r: Attempt)
      requires Valid() && clock <= now
      modifies this
      ensures Valid() && clock == now
      ensures r == Granted <==> |Prune(w, old(history), now)| < maxRequests
      ensures history == if r == Granted then old(history) + [now] else old(history)
      ensures r.Wait? ==> requestTimes != [] && MinOf(requestTimes) in requestTimes && r.seconds == Max(0.0, windowSeconds - (now - MinOf(requestTimes)))
      ensures r.Wait? ==> |requestTimes| == maxRequests && forall t | t in requestTimes :: Live(w, t, now)
      ensures r == EmptyMin ==> maxRequests <= 0
    {
      hide ListOk, MinOf, Prune;
      ListStaysOk(w, maxRequests, requestTimes, history, clock, now);
      ListPruned(w, maxRequests, requestTimes, history, now);
      requestTimes := Prune(Window(windowSeconds, false), requestTimes, now);
      clock := now;
      if |requestTimes| < maxRequests {
        ListGrants(w, maxRequests, requestTimes, history, now);
        requestTimes := requestTimes + [now];
        history := history + [now];
        return Granted;
      }
      if requestTimes == [] {
        return EmptyMin;
      }
      var oldest := MinOf(requestTimes);
      MinIsMember(requestTimes);
      r := Wait(Max(0.0, windowSeconds - (now - oldest)));
    }

    /**
     `_apply_rate_limit` for a caller that has the record to itself: `wake(t)` is
     when a sleep that should end at `t` really ends.  One sleep is enough, and
     it is no longer than it must be: it should end at the first moment with
     room.  A provider with a limit below one is never chosen, so no caller comes
     with one.
     */
    method ApplyRateLimit(now: real, wake: real -> real) returns (granted: real, ghost sleeps: nat, ghost until: real)
      requires Valid() && clock <= now && maxRequests >= 1
      requires forall t :: wake(t) >= t
      modifies this
      ensures Valid() && clock == granted >= now && history == old(history) + [granted]
      ensures |Prune(w, old(history), now)| < maxRequests ==> sleeps == 0 && granted == now
      ensures |Prune(w, old(history), now)| >= maxRequests ==>
                sleeps == 1 && granted == wake(until) && IsFirstRoom(w, maxRequests, old(history), now, until)
    {
      hide ListOk, MinOf, Prune, IsFirstRoom;
      sleeps := 0;
      until := now;
      granted := now;
      var r := TryAcquire(now);
      while r.Wait?
        invariant Valid() && sleeps <= 1 && clock == granted >= now
        invariant r != EmptyMin
        invariant r.Wait? ==> sleeps == 0 && history == old(history)
        invariant r.Wait? ==> requestTimes != [] && MinOf(requestTimes) in requestTimes
        invariant r.Wait? ==> r.seconds == Max(0.0, windowSeconds - (granted - MinOf(requestTimes)))
        invariant r.Wait? ==> |Prune(w, old(history), now)| >= maxRequests
        invariant r == Granted ==> history == old(history) + [granted]
        invariant r == Granted ==> sleeps == if |Prune(w, old(history), now)| < maxRequests then 0 else 1
        invariant r.Wait? ==> |requestTimes| == maxRequests && forall t | t in requestTimes :: Live(w, t, now)
        invariant sleeps == 1 ==> granted == wake(until) && IsFirstRoom(w, maxRequests, old(history), now, until)
        invariant sleeps == 0 ==> granted == now
        decreases 1 - sleeps
      {
        ghost var oldest := MinOf(requestTimes);
        RoomWhenOldestEnds(w, maxRequests, requestTimes, history, now);
        until := granted + r.seconds;
        var later := wake(granted + r.seconds);
        ListDecides(w, maxRequests, requestTimes, history, clock, later);
        DeadDrops(w, requestTimes, later, oldest);
        granted := later;
        r := TryAcquire(granted);
        sleeps := sleeps + 1;
      }
    }
  }

  function MinOf(times: seq<real>): real
    requires times != []
  {
    if |times| == 1 then times[0]
    else
      var m := MinOf(times[..|times| - 1]);
      if times[|times| - 1] < m then times[|times| - 1] else m
  }

  lemma {:induction false} MinIsMember(times: seq<real>)
    requires times != []
    ensures MinOf(times) in times && forall t | t in times :: MinOf(times) <= t
  {
    var n := |times| - 1;
    if n > 0 {
      var front := times[..n];
      MinIsMember(front);
      var m := MinOf(front);
      assert MinOf(times) == if times[n] < m then times[n] else m;
      var i :| 0 <= i < n && front[i] == m;
      assert times[i] == m;
      hide MinOf;
      forall t | t in times ensures MinOf(times) <= t {
        var j :| 0 <= j <= n && times[j] == t;
        if j < n {
          assert front[j] == t && t in front;
        }
      }
    }
  }

  /** Once some member has stopped counting, fewer than all of them count. */
  lemma {:induction false} DeadDrops(w: Window, times: seq<real>, now: real, dead: real)
    requires dead in times && !Live(w, dead, now)
    ensures |Prune(w, times, now)| < |times|
  {
    var n := |times| - 1;
    if times[n] != dead {
      DeadDrops(w, times[..n], now, dead);
    }
  }

  /** `until` is the first moment from `now` on at which fewer than the limit count. */
  ghost predicate IsFirstRoom(w: Window, limit: int, history: seq<real>, now: real, until: real) {
    && now < until && |Prune(w, history, until)| < limit
    && forall t | now <= t < until :: |Prune(w, history, t)| >= limit
  }

  /** There is room again when the oldest of the counting requests stops counting. */
  lemma RoomWhenOldestEnds(w: Window, limit: int, times: seq<real>, history: seq<real>, now: real)
    requires !w.closed && times != [] && |times| == limit && ListOk(w, limit, times, history, now)
    requires forall t | t in times :: Live(w, t, now)
    ensures IsFirstRoom(w, limit, history, now, MinOf(times) + w.width)
  {
    hide MinOf, Prune;
    MinIsMember(times);
    var until := MinOf(times) + w.width;
    assert Live(w, MinOf(times), now);
    DeadDrops(w, times, until, MinOf(times));
    forall t | now <= t < until ensures |Prune(w, history, t)| >= limit {
      LiveStay(w, times, t);
    }
  }

  lemma {:induction false} LiveStay(w: Window, times: seq<real>, now: real)
    requires forall t | t in times :: Live(w, t, now)
    ensures Prune(w, times, now) == times
  {
    if times != [] {
      LiveStay(w, times[..|times| - 1], now);
    }
  }

  // ---------- HTTP ----------

  ghost predicate AllOk(w: Window, limit: int, hits: map<string, seq<real>>, granted: map<string, seq<real>>, clock: real) {
    hits.Keys == granted.Keys && forall key | key in hits :: ListOk(w, limit, hits[key], granted[key], clock)
  }

  lemma AllStayOk(w: Window, limit: int, hits: map<string, seq<real>>, granted: map<string, seq<real>>, clock: real, now: real)
    requires AllOk(w, limit, hits, granted, clock) && clock <= now
    ensures AllOk(w, limit, hits, granted, now)
  {
    hide ListOk;
    forall key | key in hits ensures ListOk(w, limit, hits[key], granted[key], now) {
      ListStaysOk(w, limit, hits[key], granted[key], clock, now);
    }
  }

  lemma OneKeyChanges(w: Window, limit: int, hits: map<string, seq<real>>, granted: map<string, seq<real>>, now: real,
                      key: string, mine: seq<real>, history: seq<real>)
    requires AllOk(w, limit, hits, granted, now) && ListOk(w, limit, mine, history, now)
    ensures AllOk(w, limit, hits[key := mine], granted[key := history], now)
  {
    hide ListOk;
  }

  lemma OneKey(w: Window, limit: int, hits: map<string, seq<real>>, granted: map<string, seq<real>>, now: real, key: string)
    requires AllOk(w, limit, hits, granted, now)
    ensures key in hits <==> key in granted
    ensures ListOk(w, limit, if key in hits then hits[key] else [], if key in granted then granted[key] else [], now)
  {
  }

  class RateLimitMiddleware {
    const maxRequests: int
    const windowSeconds: real
    var hits: map<string, seq<real>>
    ghost var granted: map<string, seq<real>>   // every request let through, per key
    ghost var clock: real
    ghost const w: Window

    ghost predicate Valid()
      reads this
    {
      && w == Window(windowSeconds, true)
      && AllOk(w, maxRequests, hits, granted, clock)
    }

    constructor (maxRequests: int, windowSeconds: real, now: real)
      ensures Valid() && this.maxRequests == maxRequests && this.windowSeconds == windowSeconds
      ensures hits == map[] && granted == map[]
    {
      this.maxRequests, this.windowSeconds := maxRequests, windowSeconds;
      w := Window(windowSeconds, true);
      hits, granted, clock := map[], map[], now;
    }

    ghost function GrantedTo(key: string): seq<real>
      reads this
    {
      if key in granted then granted[key] else []
    }

    /** Requests outside `/api/` pass unlimited; the others exactly when fewer than the limit still count for their key. */
    method Dispatch(isApi: bool, key: string, now: real) returns (passed: bool)
      requires Valid() && clock <= now
      modifies this
      ensures Valid() && clock == now
      ensures !isApi ==> passed && granted == old(granted)
      ensures isApi ==>
        && (passed <==> |Prune(w, old(GrantedTo(key)), now)| < maxRequests)
        && granted == old(granted)[key := if passed then old(GrantedTo(key)) + [now] else old(GrantedTo(key))]
    {
      hide ListOk, AllOk;
      AllStayOk(w, maxRequests, hits, granted, clock, now);
      clock := now;
      if !isApi {
        return true;
      }
      OneKey(w, maxRequests, hits, granted, now, key);
      ghost var history := GrantedTo(key);
      var mine := PopExpired(w, maxRequests, if key in hits then hits[key] else [], history, windowSeconds, now);
      passed := |mine| < maxRequests;
      if passed {
        ListPruned(w, maxRequests, mine, history, now);
        ListGrants(w, maxRequests, mine, history, now);
        mine := mine + [now];
        history := history + [now];
      }
      OneKeyChanges(w, maxRequests, hits, granted, now, key, mine, history);
      hits := hits[key := mine];
      granted := granted[key := history];
    }
  }

  /** No key is ever let through more than the limit in any span of the window's width, both ends included. */
  lemma KeyNeverOverLimit(m: RateLimitMiddleware, key: string, span: Span)
    requires m.Valid() && key in m.hits
    ensures CountIn(span, m.windowSeconds, m.granted[key]) <= if m.maxRequests < 0 then 0 else m.maxRequests
  {
    NoSpanOverLimit(m.w, m.maxRequests, m.granted[key], span);
  }

  /** Nor is a provider, in any span of the window's width open at one end. */
  lemma ProviderNeverOverLimit(l: ProviderLimiter, span: Span)
    requires l.Valid() && !span.BothEnds?
    ensures CountIn(span, l.windowSeconds, l.history) <= if l.maxRequests < 0 then 0 else l.maxRequests
  {
    NoSpanOverLimit(l.w, l.maxRequests, l.history, span);
  }
}

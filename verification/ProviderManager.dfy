/** Provider selection, cooldowns, circuit breaking and failover. */
module ProviderManager {
  import opened Options
  import opened SlidingWindow
  import TextOrder

  datatype Health = Healthy | Degraded | Unhealthy | Cooldown

  datatype RateLimit = RateLimit(maxRequests: int, windowSeconds: real)

  datatype Record = Record(
    name: string, priority: int, retries: nat, cooldown: real, threshold: int, rateLimit: Option<RateLimit>,
    status: Health, failures: int, successes: int, cooldownUntil: Option<real>, circuitUntil: Option<real>,
    requestTimes: seq<real>)

  const CIRCUIT_SECONDS := 60.0

  predicate Open(until: Option<real>, now: real) {
    until.Some? && until.value > now
  }

  predicate RateExhausted(r: Record, now: real) {
    r.rateLimit.Some? && |Prune(Window(r.rateLimit.value.windowSeconds, false), r.requestTimes, now)| >= r.rateLimit.value.maxRequests
  }

  /** One turn of the loop in `choose_provider`: the record's new state, and whether it is a candidate. */
  function Look(r: Record, now: real): (Record, bool) {
    if Open(r.circuitUntil, now) then (r.(status := Unhealthy), false)
    else if Open(r.cooldownUntil, now) then (r.(status := Cooldown), false)
    else if r.status == Unhealthy || r.status == Cooldown then
      if r.cooldownUntil.Some? && r.cooldownUntil.value <= now && !Open(r.circuitUntil, now) then
        (r.(status := Degraded), !RateExhausted(r, now))
      else if r.cooldownUntil.None? && !Open(r.circuitUntil, now) then
        (r.(status := Degraded), !RateExhausted(r, now))
      else (r, false)
    else (r, !RateExhausted(r, now))
  }

  /** What makes a provider available: times and limits alone. */
  predicate Available(r: Record, now: real) {
    !Open(r.circuitUntil, now) && !Open(r.cooldownUntil, now) && !RateExhausted(r, now)
  }

  /** The last status a provider was given never keeps it out; looking writes nothing but the status. */
  lemma StatusNeverBlocks(r: Record, now: real)
    ensures Look(r, now).1 <==> Available(r, now)
    ensures Look(r, now).0 == r.(status := Look(r, now).0.status)
    ensures Look(r, now).0.status ==
      if r.circuitUntil.Some? && r.circuitUntil.value > now then Unhealthy
      else if r.cooldownUntil.Some? && r.cooldownUntil.value > now then Cooldown
      else if r.status == Healthy then Healthy else Degraded
  {
  }

  /** Available: both blocks are over, and fewer requests than allowed lie after the start of the window. */
  lemma AvailableMeans(r: Record, now: real)
    ensures Available(r, now) <==>
      && (r.circuitUntil.None? || r.circuitUntil.value <= now)
      && (r.cooldownUntil.None? || r.cooldownUntil.value <= now)
      && (r.rateLimit.Some? ==>
            |set i: nat | i < |r.requestTimes| && r.requestTimes[i] > now - r.rateLimit.value.windowSeconds|
              < r.rateLimit.value.maxRequests)
  {
    if r.rateLimit.Some? {
      OpenCounts(r.rateLimit.value.windowSeconds, r.requestTimes, now);
    }
  }

  /** A provider that may make no request at all is never a candidate, so no call ever waits for its limit. */
  lemma BelowOneNeverChosen(r: Record, now: real)
    requires r.rateLimit.Some? && r.rateLimit.value.maxRequests < 1
    ensures !Available(r, now) && !Look(r, now).1
  {
    StatusNeverBlocks(r, now);
  }

  /** `(priority, failure_count, name)` */
  predicate Before(a: Record, b: Record) {
    || a.priority < b.priority
    || (a.priority == b.priority && a.failures < b.failures)
    || (a.priority == b.priority && a.failures == b.failures && TextOrder.Less(a.name, b.name))
  }

  lemma BeforeTotal(a: Record, b: Record)
    requires a.name != b.name
    ensures Before(a, b) || Before(b, a)
    ensures !(Before(a, b) && Before(b, a))
  {
    TextOrder.Total(a.name, b.name);
    if TextOrder.Leq(a.name, b.name) && TextOrder.Leq(b.name, a.name) {
      TextOrder.Antisymmetric(a.name, b.name);
    }
  }

  lemma BeforeTransitive(a: Record, b: Record, c: Record)
    requires Before(a, b) && Before(b, c)
    ensures Before(a, c)
  {
    if TextOrder.Less(a.name, b.name) && TextOrder.Less(b.name, c.name) {
      TextOrder.LessTransitive(a.name, b.name, c.name);
    }
  }

  predicate Distinct(rs: seq<Record>) {
    forall i, j | 0 <= i < j < |rs| :: rs[i].name != rs[j].name
  }

  /** The records after the manager looked at all of them. */
  function Looked(rs: seq<Record>, now: real): (s: seq<Record>)
    ensures |s| == |rs|
    ensures forall i | 0 <= i < |rs| :: s[i] == Look(rs[i], now).0
  {
    seq(|rs|, i requires 0 <= i < |rs| => Look(rs[i], now).0)
  }

  /** `r` is the least available provider, or nothing when none is available. */
  ghost predicate IsChoice(rs: seq<Record>, now: real, r: Option<nat>) {
    match r
    case None => forall i | 0 <= i < |rs| :: !Available(rs[i], now)
    case Some(k) =>
      && k < |rs| && Available(rs[k], now)
      && forall i | 0 <= i < |rs| && i != k && Available(rs[i], now) :: Before(rs[k], rs[i])
  }

  /** Against any other available provider the chosen one has the smaller priority number, or fewer failures, or an earlier name. */
  lemma ChoiceMeans(rs: seq<Record>, now: real, k: nat, i: nat)
    requires IsChoice(rs, now, Some(k)) && i < |rs| && i != k && Available(rs[i], now)
    ensures k < |rs| && Available(rs[k], now)
    ensures
      || rs[k].priority < rs[i].priority
      || (rs[k].priority == rs[i].priority && rs[k].failures < rs[i].failures)
      || (rs[k].priority == rs[i].priority && rs[k].failures == rs[i].failures && rs[k].name != rs[i].name
          && exists p: nat :: TextOrder.FirstDifference(rs[k].name, rs[i].name, p))
  {
    hide Available;
    TextOrder.LeqMeans(rs[k].name, rs[i].name);
  }

  lemma ChoiceUnique(rs: seq<Record>, now: real, a: Option<nat>, b: Option<nat>)
    requires Distinct(rs) && IsChoice(rs, now, a) && IsChoice(rs, now, b)
    ensures a == b
  {
    if a.Some? && b.Some? && a != b {
      BeforeTotal(rs[a.value], rs[b.value]);
    }
  }

  function Failed(r: Record, now: real): Record {
    var cooled := r.(failures := r.failures + 1,
                     status := if r.cooldown != 0.0 then Cooldown else Unhealthy,
                     cooldownUntil := Some(now + r.cooldown));
    if cooled.failures >= r.threshold then
      cooled.(status := Unhealthy,
              circuitUntil := Some(now + if r.cooldown * 2.0 < CIRCUIT_SECONDS then CIRCUIT_SECONDS else r.cooldown * 2.0))
    else cooled
  }

  function Succeeded(r: Record): Record {
    r.(successes := r.successes + 1, failures := 0, cooldownUntil := None, status := Healthy)
  }

  /** A failed provider is passed over until its cooldown is over and, from the threshold on, its circuit closes again. */
  lemma FailedUntil(r: Record, at: real, now: real)
    requires r.rateLimit.None? && r.cooldown >= 0.0 && at <= now
    ensures var f := Failed(r, at);
      Available(f, now) <==>
        && now >= at + r.cooldown
        && (if r.failures + 1 < r.threshold then !Open(r.circuitUntil, now)
            else now >= at + CIRCUIT_SECONDS && now >= at + 2.0 * r.cooldown)
  {
  }

  /** A failure counts once, keeps the settings, and shows the block it opens. */
  lemma FailureMeans(r: Record, now: real)
    ensures var f := Failed(r, now);
      && f.failures == r.failures + 1 && f.successes == r.successes
      && (f.name, f.priority, f.retries, f.cooldown, f.threshold, f.rateLimit, f.requestTimes)
         == (r.name, r.priority, r.retries, r.cooldown, r.threshold, r.rateLimit, r.requestTimes)
      && f.status == (if r.failures + 1 < r.threshold && r.cooldown != 0.0 then Cooldown else Unhealthy)
      && f.cooldownUntil == Some(now + r.cooldown)
      && (r.failures + 1 < r.threshold ==> f.circuitUntil == r.circuitUntil)
      && (r.failures + 1 >= r.threshold ==>
            && f.circuitUntil.Some?
            && f.circuitUntil.value >= now + 60.0 && f.circuitUntil.value >= now + 2.0 * r.cooldown
            && (f.circuitUntil.value == now + 60.0 || f.circuitUntil.value == now + 2.0 * r.cooldown))
  {
  }

  // ---------- how many rounds are left ----------

  /** Some block lasts at least until `horizon`. */
  predicate Blocked(r: Record, horizon: real) {
    || (r.cooldownUntil.Some? && r.cooldownUntil.value >= horizon)
    || (r.circuitUntil.Some? && r.circuitUntil.value >= horizon)
  }

  function Left(r: Record, horizon: real): nat {
    if Blocked(r, horizon) then 0
    else if r.cooldown > 0.0 then 1
    else if r.threshold - r.failures <= 1 then 1
    else r.threshold - r.failures
  }

  function TotalLeft(rs: seq<Record>, horizon: real): nat {
    if rs == [] then 0 else TotalLeft(rs[..|rs| - 1], horizon) + Left(rs[|rs| - 1], horizon)
  }

  /** `max(1, threshold - failure_count)` over all providers. */
  function TotalBudget(rs: seq<Record>): nat {
    if rs == [] then 0
    else
      var r := rs[|rs| - 1];
      TotalBudget(rs[..|rs| - 1]) + if r.threshold - r.failures <= 1 then 1 else r.threshold - r.failures
  }

  lemma {:induction false} LeftWithinBudget(rs: seq<Record>, horizon: real)
    ensures TotalLeft(rs, horizon) <= TotalBudget(rs)
  {
    if rs != [] {
      LeftWithinBudget(rs[..|rs| - 1], horizon);
    }
  }

  lemma {:induction false} SameLeft(a: seq<Record>, b: seq<Record>, horizon: real)
    requires |a| == |b| && forall i | 0 <= i < |a| :: Left(a[i], horizon) == Left(b[i], horizon)
    ensures TotalLeft(a, horizon) == TotalLeft(b, horizon)
  {
    hide Left;
    if a != [] {
      SameLeft(a[..|a| - 1], b[..|b| - 1], horizon);
    }
  }

  lemma {:induction false} OneSpent(rs: seq<Record>, k: nat, r: Record, horizon: real)
    requires k < |rs| && Left(r, horizon) + 1 == Left(rs[k], horizon)
    ensures TotalLeft(rs[k := r], horizon) + 1 == TotalLeft(rs, horizon)
  {
    hide Left;
    var n := |rs| - 1;
    var changed := rs[k := r];
    if k == n {
      assert changed[..n] == rs[..n];
    } else {
      OneSpent(rs[..n], k, r, horizon);
      assert changed[..n] == rs[..n][k := r];
    }
  }

  lemma {:induction false} NothingLeft(rs: seq<Record>, horizon: real)
    requires forall i | 0 <= i < |rs| :: Blocked(rs[i], horizon)
    ensures TotalLeft(rs, horizon) == 0
  {
    if rs != [] {
      NothingLeft(rs[..|rs| - 1], horizon);
    }
  }

  /** No time of the call from `start` up to `horizon` outlasts a positive cooldown or the circuit's minute. */
  ghost predicate Short(rs: seq<Record>, start: real, horizon: real) {
    && horizon <= start + CIRCUIT_SECONDS
    && forall i | 0 <= i < |rs| ::
      rs[i].rateLimit.None? && rs[i].cooldown >= 0.0 && (rs[i].cooldown > 0.0 ==> horizon <= start + rs[i].cooldown)
  }

  /** Every block is either over or outlasts the call. */
  ghost predicate Settled(rs: seq<Record>, now: real, horizon: real) {
    forall i | 0 <= i < |rs| ::
      Blocked(rs[i], horizon) || (!Open(rs[i].cooldownUntil, now) && !Open(rs[i].circuitUntil, now))
  }

  /** After a success a provider whose circuit is closed is healthy and has its whole threshold of rounds again. */
  lemma SuccessRestores(r: Record, now: real, horizon: real)
    requires !Open(r.circuitUntil, now) && now <= horizon && r.threshold >= 1 && r.rateLimit.None?
    ensures var s := Succeeded(r);
      && s.failures == 0 && s.successes == r.successes + 1 && s.status == Healthy
      && s.cooldownUntil == None && s.circuitUntil == r.circuitUntil
      && (s.name, s.priority, s.retries, s.cooldown, s.threshold, s.rateLimit, s.requestTimes)
         == (r.name, r.priority, r.retries, r.cooldown, r.threshold, r.rateLimit, r.requestTimes)
      && Available(s, now)
      && (now < horizon ==> Left(s, horizon) == if r.cooldown > 0.0 then 1 else r.threshold)
  {
  }

  /** A failing round uses up exactly one of its provider's rounds. */
  lemma FailureSpends(r: Record, start: real, chosenAt: real, failedAt: real, horizon: real)
    requires Available(r, chosenAt) && start <= chosenAt <= failedAt < horizon && horizon <= start + CIRCUIT_SECONDS
    requires r.cooldown >= 0.0 && (r.cooldown > 0.0 ==> horizon <= start + r.cooldown)
    ensures Left(Failed(r, failedAt), horizon) + 1 == Left(r, horizon)
  {
  }

  // ---------- a call ----------

  /** A round in which provider `k` was chosen and used up its attempts. */
  datatype Round = Round(k: nat, chosenAt: real, failedAt: real)

  function AfterRound(rs: seq<Record>, round: Round): (s: seq<Record>)
    ensures |s| == |rs|
  {
    var looked := Looked(rs, round.chosenAt);
    if round.k < |rs| then looked[round.k := Failed(looked[round.k], round.failedAt)] else looked
  }

  function AfterRounds(rs: seq<Record>, rounds: seq<Round>): (s: seq<Record>)
    ensures |s| == |rs|
  {
    if rounds == [] then rs else AfterRound(AfterRounds(rs, rounds[..|rounds| - 1]), rounds[|rounds| - 1])
  }

  /** Each round's provider was the choice at its time, given the failures so far. */
  ghost predicate RoundsOk(rs: seq<Record>, rounds: seq<Round>) {
    forall j | 0 <= j < |rounds| :: IsChoice(AfterRounds(rs, rounds[..j]), rounds[j].chosenAt, Some(rounds[j].k))
  }

  /** Provider calls made by failing rounds: every one uses all its attempts. */
  function Calls(rs: seq<Record>, rounds: seq<Round>): nat {
    if rounds == [] then 0
    else
      var round := rounds[|rounds| - 1];
      Calls(rs, rounds[..|rounds| - 1]) + if round.k < |rs| then rs[round.k].retries + 1 else 0
  }

  datatype Outcome = Response(k: nat, attempts: nat) | NoProvider

  lemma RoundAppended(rs: seq<Record>, rounds: seq<Round>, round: Round)
    requires RoundsOk(rs, rounds) && IsChoice(AfterRounds(rs, rounds), round.chosenAt, Some(round.k))
    ensures RoundsOk(rs, rounds + [round])
    ensures AfterRounds(rs, rounds + [round]) == AfterRound(AfterRounds(rs, rounds), round)
    ensures Calls(rs, rounds + [round]) == Calls(rs, rounds) + if round.k < |rs| then rs[round.k].retries + 1 else 0
  {
    hide IsChoice, AfterRound;
    var longer := rounds + [round];
    assert longer[..|rounds|] == rounds;
    forall j | 0 <= j < |longer| ensures IsChoice(AfterRounds(rs, longer[..j]), longer[j].chosenAt, Some(longer[j].k)) {
      if j < |rounds| {
        assert longer[..j] == rounds[..j];
      }
    }
  }

  /** What no step of a call changes. */
  ghost predicate SameSettings(a: seq<Record>, b: seq<Record>) {
    |a| == |b| && forall i | 0 <= i < |a| ::
      && a[i].name == b[i].name && a[i].retries == b[i].retries && a[i].cooldown == b[i].cooldown
      && a[i].threshold == b[i].threshold && a[i].rateLimit == b[i].rateLimit && a[i].priority == b[i].priority
  }

  lemma LeftIgnoresStatus(r: Record, status: Health, horizon: real)
    ensures Left(r.(status := status), horizon) == Left(r, horizon)
  {
  }

  lemma LookingKeeps(rs: seq<Record>, now: real, start: real, horizon: real)
    requires Short(rs, start, horizon)
    ensures Short(Looked(rs, now), start, horizon) && SameSettings(rs, Looked(rs, now))
    ensures TotalLeft(Looked(rs, now), horizon) == TotalLeft(rs, horizon)
    ensures forall t :: Settled(rs, t, horizon) ==> Settled(Looked(rs, now), t, horizon)
  {
    hide Look, Left, TotalLeft;
    forall i | 0 <= i < |rs|
      ensures Look(rs[i], now).0 == rs[i].(status := Look(rs[i], now).0.status)
      ensures Left(rs[i], horizon) == Left(Looked(rs, now)[i], horizon)
    {
      StatusNeverBlocks(rs[i], now);
      LeftIgnoresStatus(rs[i], Look(rs[i], now).0.status, horizon);
    }
    SameLeft(rs, Looked(rs, now), horizon);
  }

  lemma LaterSettled(rs: seq<Record>, now: real, later: real, horizon: real)
    requires Settled(rs, now, horizon) && now <= later
    ensures Settled(rs, later, horizon)
  {
  }

  lemma FailureSettles(rs: seq<Record>, k: nat, start: real, now: real, horizon: real)
    requires k < |rs| && Short(rs, start, horizon) && start <= now < horizon && !Blocked(rs[k], horizon)
    ensures Short(rs[k := Failed(rs[k], now)], start, horizon)
    ensures Settled(rs, now, horizon) ==> Settled(rs[k := Failed(rs[k], now)], now, horizon)
  {
  }

  /** Nobody available in a settled state: nobody has a round left. */
  lemma StuckIsSpent(rs: seq<Record>, now: real, start: real, horizon: real)
    requires Short(rs, start, horizon) && Settled(rs, now, horizon) && IsChoice(rs, now, None)
    ensures TotalLeft(rs, horizon) == 0
  {
    NothingLeft(rs, horizon);
  }

  /** What a provider starts with: settings clamped from below, no failures, no block, no requests. */
  function CleanRecord(name: string, priority: int, retries: int, cooldown: real, rateLimit: Option<RateLimit>, threshold: int): (r: Record)
    ensures r.retries >= 0 && r.cooldown >= 0.0 && r.threshold >= 1
    ensures (retries >= 0 ==> r.retries == retries) && (cooldown >= 0.0 ==> r.cooldown == cooldown)
    ensures threshold >= 1 ==> r.threshold == threshold
    ensures rateLimit.None? ==> forall now :: Available(r, now)
  {
    Record(name, priority, if retries < 0 then 0 else retries, if cooldown < 0.0 then 0.0 else cooldown,
           if threshold < 1 then 1 else threshold, rateLimit, Healthy, 0, 0, None, None, [])
  }

  /** Into the dictionary by name: a known name keeps its place. */
  function Registered(rs: seq<Record>, r: Record): (s: seq<Record>)
    ensures forall x | x in s :: x == r || x in rs
  {
    if rs == [] then [r]
    else if rs[0].name == r.name then [r] + rs[1..]
    else [rs[0]] + Registered(rs[1..], r)
  }

  /** Registering replaces the record of that name or adds one, and touches no other. */
  lemma {:induction false} RegisteredDistinct(rs: seq<Record>, r: Record)
    requires Distinct(rs)
    ensures Distinct(Registered(rs, r)) && r in Registered(rs, r)
    ensures forall x | x in rs && x.name != r.name :: x in Registered(rs, r)
  {
    if rs != [] && rs[0].name != r.name {
      RegisteredDistinct(rs[1..], r);
      var rest := Registered(rs[1..], r);
      forall j | 0 <= j < |rest| ensures rest[j].name != rs[0].name {
        assert rest[j] in rest;
      }
      assert rs == [rs[0]] + rs[1..];
    }
  }

  lemma {:induction false} RegisteredAt(rs: seq<Record>, r: Record, k: nat)
    requires k <= |rs| && (forall i | 0 <= i < k :: rs[i].name != r.name) && (k < |rs| ==> rs[k].name == r.name)
    ensures Registered(rs, r) == if k < |rs| then rs[k := r] else rs + [r]
  {
    if k > 0 {
      RegisteredAt(rs[1..], r, k - 1);
    }
  }

  class Manager {
    var records: seq<Record>

    constructor ()
      ensures records == []
    {
      records := [];
    }

    /** Registering a known name replaces its record and keeps its place. */
    method RegisterProvider(name: string, priority: int, retries: int, cooldown: real, rateLimit: Option<RateLimit>, threshold: int)
      requires Distinct(records)
      modifies this
      ensures Distinct(records)
      ensures records == Registered(old(records), CleanRecord(name, priority, retries, cooldown, rateLimit, threshold))
    {
      hide Registered, Available;
      var clean := Record(name, priority, if retries < 0 then 0 else retries, if cooldown < 0.0 then 0.0 else cooldown,
                          if threshold < 1 then 1 else threshold, rateLimit, Healthy, 0, 0, None, None, []);
      var k := 0;
      while k < |records| && records[k].name != name
        invariant k <= |records| && records == old(records)
        invariant forall i | 0 <= i < k :: records[i].name != name
      {
        k := k + 1;
      }
      RegisteredAt(records, clean, k);
      if k < |records| {
        records := records[k := clean];
      } else {
        records := records + [clean];
      }
      RegisteredDistinct(old(records), clean);
    }

    /** Looks at every record and returns the best available one. */
    method ChooseProvider(now: real) returns (best: Option<nat>)
      requires Distinct(records)
      modifies this
      ensures Distinct(records) && records == Looked(old(records), now)
      ensures IsChoice(old(records), now, best)
    {
      hide Look, Before, Available;
      best := None;
      var i := 0;
      while i < |records|
        invariant i <= |records| == |old(records)|
        invariant forall j | 0 <= j < i :: records[j] == Look(old(records)[j], now).0
        invariant forall j | i <= j < |records| :: records[j] == old(records)[j]
        invariant best.None? ==> forall j | 0 <= j < i :: !Available(old(records)[j], now)
        invariant best.Some? ==> best.value < i && Available(old(records)[best.value], now)
        invariant best.Some? ==> forall j | 0 <= j < i && j != best.value && Available(old(records)[j], now) ::
          Before(old(records)[best.value], old(records)[j])
      {
        StatusNeverBlocks(old(records)[i], now);
        var look := Look(records[i], now);
        records := records[i := look.0];
        if look.1 {
          if best.None? {
            best := Some(i);
          } else {
            var champion := old(records)[best.value];
            StatusNeverBlocks(champion, now);
            SameBefore(old(records)[i], champion, look.0, records[best.value]);
            BeforeTotal(old(records)[i], champion);
            if Before(look.0, records[best.value]) {
              forall j | 0 <= j < i && j != best.value && Available(old(records)[j], now)
                ensures Before(old(records)[i], old(records)[j])
              {
                BeforeTransitive(old(records)[i], champion, old(records)[j]);
              }
              best := Some(i);
            }
          }
        }
        i := i + 1;
      }
      LookedDistinct(old(records), now);
    }

    method MarkSuccess(k: nat)
      requires k < |records|
      modifies this
      ensures records == old(records)[k := Succeeded(old(records)[k])]
    {
      records := records[k := records[k].(successes := records[k].successes + 1)];
      records := records[k := records[k].(failures := 0)];
      records := records[k := records[k].(cooldownUntil := None)];
      records := records[k := records[k].(status := Healthy)];
    }

    method MarkFailure(k: nat, now: real)
      requires k < |records|
      modifies this
      ensures records == old(records)[k := Failed(old(records)[k], now)]
    {
      records := records[k := records[k].(failures := records[k].failures + 1)];
      records := records[k := records[k].(status := if records[k].cooldown != 0.0 then Cooldown else Unhealthy)];
      records := records[k := records[k].(cooldownUntil := Some(now + records[k].cooldown))];
      if records[k].failures >= records[k].threshold {
        records := records[k := records[k].(status := Unhealthy)];
        var open := if records[k].cooldown * 2.0 < CIRCUIT_SECONDS then CIRCUIT_SECONDS else records[k].cooldown * 2.0;
        records := records[k := records[k].(circuitUntil := Some(now + open))];
      }
    }

    /**
     `execute`, without rate limits.  `answer(c)` says whether the c-th call to
     a provider succeeds, `clock(t)` is the t-th reading of the clock, and all
     readings fall before `horizon`.
     */
    method Execute(answer: nat -> bool, clock: nat -> real, ghost horizon: real)
      returns (outcome: Outcome, calls: nat, ghost rounds: seq<Round>, ghost last: real)
      requires Distinct(records) && Short(records, clock(0), horizon)
      requires forall s: nat, t: nat | s <= t :: clock(s) <= clock(t)
      requires forall t: nat :: clock(t) < horizon
      modifies this
      ensures RoundsOk(old(records), rounds) && |rounds| <= TotalLeft(old(records), horizon) <= TotalBudget(old(records))
      ensures forall c: nat | c + 1 < calls :: !answer(c)
      ensures match outcome
        case NoProvider =>
          && calls == Calls(old(records), rounds) && (calls > 0 ==> !answer(calls - 1))
          && IsChoice(AfterRounds(old(records), rounds), last, None)
          && records == Looked(AfterRounds(old(records), rounds), last)
          && (Settled(old(records), clock(0), horizon) ==> |rounds| == TotalLeft(old(records), horizon))
        case Response(k, attempts) =>
          && calls > 0 && answer(calls - 1)
          && IsChoice(AfterRounds(old(records), rounds), last, Some(k))
          && calls == Calls(old(records), rounds) + attempts && 1 <= attempts <= old(records)[k].retries + 1
          && records == Looked(AfterRounds(old(records), rounds), last)[k := Succeeded(Looked(AfterRounds(old(records), rounds), last)[k])]
    {
      hide IsChoice, Short, Settled, RoundsOk, Available, Look, Looked, Failed, Succeeded, Left, TotalLeft, TotalBudget, Distinct, Calls, AfterRounds, AfterRound;
      calls, rounds := 0, [];
      LeftWithinBudget(records, horizon);
      NoRounds(records);
      SameAsBefore(records);
      var t: nat := 0;
      while true
        invariant Distinct(records) && Short(records, clock(0), horizon) && SameSettings(old(records), records)
        invariant RoundsOk(old(records), rounds) && records == AfterRounds(old(records), rounds)
        invariant calls == Calls(old(records), rounds) && forall c: nat | c < calls :: !answer(c)
        invariant clock(0) <= clock(t) < horizon
        invariant |rounds| + TotalLeft(records, horizon) == TotalLeft(old(records), horizon)
        invariant Settled(old(records), clock(0), horizon) ==> Settled(records, clock(t), horizon)
        decreases TotalLeft(records, horizon)
      {
        ghost var before := records;
        last := clock(t);
        var choice := ChooseProvider(clock(t));
        LookingKeeps(before, last, clock(0), horizon);
        if choice.None? {
          if Settled(before, last, horizon) {
            StuckIsSpent(before, last, clock(0), horizon);
          }
          return NoProvider, calls, rounds, last;
        }
        var k := choice.value;
        ChoiceInRange(before, last, k);
        ghost var looked := records;
        var attempts := records[k].retries + 1;
        var attempt := 1;
        while attempt <= attempts
          invariant 1 <= attempt <= attempts + 1
          invariant records == looked && calls == Calls(old(records), rounds) + attempt - 1
          invariant forall c: nat | c < calls :: !answer(c)
        {
          calls := calls + 1;
          if answer(calls - 1) {
            MarkSuccess(k);
            return Response(k, attempt), calls, rounds, last;
          }
          attempt := attempt + 1;
        }
        t := t + 1;
        ghost var round := Round(k, last, clock(t));
        MarkFailure(k, clock(t));
        RoundFails(before, looked, k, clock(0), last, clock(t), horizon);
        RoundAppended(old(records), rounds, round);
        rounds := rounds + [round];
        KeepsSettings(old(records), before, records);
        if Settled(records, clock(t), horizon) {
          LaterSettled(records, clock(t), clock(t + 1), horizon);
        }
        t := t + 1;
      }
    }
  }

  lemma SameBefore(a: Record, b: Record, c: Record, d: Record)
    requires c == a.(status := c.status) && d == b.(status := d.status)
    ensures Before(a, b) <==> Before(c, d)
  {
  }

  lemma LookedDistinct(rs: seq<Record>, now: real)
    requires Distinct(rs)
    ensures Distinct(Looked(rs, now))
  {
  }

  lemma NoRounds(rs: seq<Record>)
    ensures RoundsOk(rs, []) && AfterRounds(rs, []) == rs && Calls(rs, []) == 0
  {
  }

  lemma SameAsBefore(rs: seq<Record>)
    ensures SameSettings(rs, rs)
  {
  }

  lemma ChoiceInRange(rs: seq<Record>, now: real, k: nat)
    requires IsChoice(rs, now, Some(k))
    ensures k < |rs| && Available(rs[k], now)
  {
  }

  /** One failing round: what it keeps, and that it spends one of the rounds left. */
  lemma RoundFails(rs: seq<Record>, looked: seq<Record>, k: nat, start: real, chosenAt: real, failedAt: real, horizon: real)
    requires k < |rs| && Available(rs[k], chosenAt) && looked == Looked(rs, chosenAt) && Distinct(rs)
    requires Short(rs, start, horizon) && start <= chosenAt <= failedAt < horizon
    ensures var after := looked[k := Failed(looked[k], failedAt)];
      && after == AfterRound(rs, Round(k, chosenAt, failedAt))
      && Distinct(after) && Short(after, start, horizon) && SameSettings(rs, after)
      && TotalLeft(after, horizon) + 1 == TotalLeft(rs, horizon)
      && (Settled(rs, chosenAt, horizon) ==> Settled(after, failedAt, horizon))
  {
    hide Left, Short, Settled, TotalLeft;
    LookingKeeps(rs, chosenAt, start, horizon);
    StatusNeverBlocks(rs[k], chosenAt);
    RoundSpends(rs[k], looked[k], start, chosenAt, failedAt, horizon, rs);
    OneSpent(looked, k, Failed(looked[k], failedAt), horizon);
    FailureSettles(looked, k, start, failedAt, horizon);
    if Settled(rs, chosenAt, horizon) {
      LaterSettled(looked, chosenAt, failedAt, horizon);
    }
  }

  lemma RoundSpends(r: Record, looked: Record, start: real, chosenAt: real, failedAt: real, horizon: real, rs: seq<Record>)
    requires r in rs && Short(rs, start, horizon) && looked == r.(status := looked.status)
    requires Available(r, chosenAt) && start <= chosenAt <= failedAt < horizon
    ensures Left(Failed(looked, failedAt), horizon) + 1 == Left(looked, horizon)
  {
    FailureSpends(looked, start, chosenAt, failedAt, horizon);
  }

  lemma KeepsSettings(a: seq<Record>, b: seq<Record>, c: seq<Record>)
    requires SameSettings(a, b) && SameSettings(b, c)
    ensures SameSettings(a, c)
  {
  }
}

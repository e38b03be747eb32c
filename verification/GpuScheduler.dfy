/** VRAM reservation with LRU eviction. */
module GpuScheduler {
  import opened Options
  import opened GpuMemory
  import opened Rounding
  import TextOrder

  predicate Fits(d: Device, required: real) {
    Available(d) >= required
  }

  /** Resident allocations, least recently used first. */
  function Lru(d: Device): seq<Allocation> {
    SortLru(Residents(d.allocations))
  }

  function KeptAfter(d: Device, k: nat): Device
    requires k <= |Lru(d)|
  {
    d.(allocations := DropIds(d.allocations, Lru(d)[..k]))
  }

  /**
   `t` is `d` without the shortest least-recently-used prefix of its resident
   allocations that makes the request fit, or without all of them if none does.
   */
  ghost predicate IsEvictionOf(t: Device, d: Device, required: real) {
    exists k :: 0 <= k <= |Lru(d)| && IsPrefixEvicted(t, d, required, k)
  }

  ghost predicate IsPrefixEvicted(t: Device, d: Device, required: real, k: nat)
    requires k <= |Lru(d)|
  {
    && t == KeptAfter(d, k)
    && (Fits(t, required) || k == |Lru(d)|)
    && forall j | 0 <= j < k :: !Fits(KeptAfter(d, j), required)
  }

  lemma KeepAll(d: Device)
    ensures KeptAfter(d, 0) == d
  {
  }

  /** Evicting the next victim continues the prefix. */
  lemma EvictOneMore(d: Device, k: nat)
    requires DistinctIds(d.allocations) && k < |Lru(d)|
    requires DistinctIds(KeptAfter(d, k).allocations) && Lru(KeptAfter(d, k)) == Lru(d)[k..]
    ensures var t := KeptAfter(d, k);
      && KeptAfter(d, k + 1) == t.(allocations := DropId(t.allocations, Lru(t)[0].id))
      && DistinctIds(KeptAfter(d, k + 1).allocations)
      && Lru(KeptAfter(d, k + 1)) == Lru(d)[k + 1..]
  {
    hide DropId, Residents, SortLru, DistinctIds;
    var t := KeptAfter(d, k);
    var v := Lru(t)[0];
    assert v == Lru(d)[k];
    assert Lru(d)[..k + 1][..k] == Lru(d)[..k];
    DropKeepsDistinct(t.allocations, v.id);
    DropCommutesResidents(t.allocations, v.id);
    ResidentsDistinct(t.allocations);
    SortLruTail(Residents(t.allocations));
  }

  method EvictUntilAvailable(d: Device, required: real) returns (t: Device)
    requires DistinctIds(d.allocations)
    ensures IsEvictionOf(t, d, required) && DistinctIds(t.allocations)
  {
    hide KeptAfter, DistinctIds, Residents, Available, SortLru, DropId;
    t := d;
    ghost var k := 0;
    KeepAll(d);
    while Available(t) < required
      invariant k <= |Lru(d)| && t == KeptAfter(d, k)
      invariant DistinctIds(t.allocations) && Lru(t) == Lru(d)[k..]
      invariant forall j | 0 <= j < k :: !Fits(KeptAfter(d, j), required)
      decreases |Lru(d)| - k
    {
      var resident := Residents(t.allocations);
      if resident == [] {
        break;
      }
      EvictOneMore(d, k);
      var victim := SortLru(resident)[0];
      t := t.(allocations := DropId(t.allocations, victim.id));
      k := k + 1;
    }
    assert IsPrefixEvicted(t, d, required, k);
  }

  // ---------- what eviction achieves ----------

  ghost predicate NonNegative(allocs: seq<Allocation>) {
    forall a | a in allocs :: a.vram >= 0.0
  }

  /** Memory left for requests once every resident allocation is gone. */
  function Reclaimable(d: Device): real {
    Max(0.0, d.total - d.reserve - Used(NonResidents(d.allocations)))
  }

  /** One victim: every other allocation stays, and memory is only freed. */
  lemma VictimLeaves(t: Device)
    requires DistinctIds(t.allocations) && NonNegative(t.allocations) && Lru(t) != []
    ensures var rest := DropId(t.allocations, Lru(t)[0].id);
      && NonResidents(rest) == NonResidents(t.allocations)
      && (forall a | a in rest :: a in t.allocations)
      && Used(rest) <= Used(t.allocations)
  {
    var v := Lru(t)[0];
    assert v in Residents(t.allocations);
    forall a | a in t.allocations && a.id == v.id ensures a == v {
      var i :| 0 <= i < |t.allocations| && t.allocations[i] == a;
      var j :| 0 <= j < |t.allocations| && t.allocations[j] == v;
    }
    DropResidentOnly(t.allocations, v.id);
    DropFrees(t.allocations, v);
  }

  /** Dropping residents keeps every other allocation, and only frees memory. */
  lemma {:induction false} KeptAfterKeeps(d: Device, k: nat)
    requires DistinctIds(d.allocations) && NonNegative(d.allocations) && k <= |Lru(d)|
    ensures var t := KeptAfter(d, k);
      && t == d.(allocations := t.allocations)
      && DistinctIds(t.allocations)
      && Lru(t) == Lru(d)[k..]
      && NonResidents(t.allocations) == NonResidents(d.allocations)
      && (forall a | a in t.allocations :: a in d.allocations)
      && (k > 0 ==> Used(t.allocations) <= Used(KeptAfter(d, k - 1).allocations))
  {
    hide KeptAfter, DistinctIds, Lru, Used, NonResidents;
    if k == 0 {
      KeepAll(d);
    } else {
      KeptAfterKeeps(d, k - 1);
      EvictOneMore(d, k - 1);
      VictimLeaves(KeptAfter(d, k - 1));
    }
  }

  lemma {:induction false} MoreEvictedMoreFree(d: Device, j: nat, k: nat)
    requires DistinctIds(d.allocations) && NonNegative(d.allocations) && j <= k <= |Lru(d)|
    ensures Available(KeptAfter(d, j)) <= Available(KeptAfter(d, k))
    decreases k
  {
    hide KeptAfter, DistinctIds, NonNegative, Lru;
    if j < k {
      KeptAfterKeeps(d, k);
      KeptAfterKeeps(d, k - 1);
      MoreEvictedMoreFree(d, j, k - 1);
    }
  }

  lemma AllEvictedIsReclaimable(d: Device)
    requires DistinctIds(d.allocations) && NonNegative(d.allocations)
    ensures Available(KeptAfter(d, |Lru(d)|)) == Reclaimable(d)
  {
    var t := KeptAfter(d, |Lru(d)|);
    KeptAfterKeeps(d, |Lru(d)|);
    UsedSplits(t.allocations);
    assert Lru(t) == [];
    assert |Residents(t.allocations)| == 0;
  }

  /** Eviction makes the request fit exactly when the device could hold it beside its reservations. */
  lemma EvictionSucceedsIff(t: Device, d: Device, required: real)
    requires IsEvictionOf(t, d, required) && DistinctIds(d.allocations) && NonNegative(d.allocations)
    ensures Fits(t, required) <==> Reclaimable(d) >= required
    ensures NonResidents(t.allocations) == NonResidents(d.allocations)
    ensures DistinctIds(t.allocations) && (forall a | a in t.allocations :: a in d.allocations)
    ensures Used(t.allocations) <= Used(d.allocations)
    ensures t == d.(allocations := t.allocations)
  {
    var k :| 0 <= k <= |Lru(d)| && IsPrefixEvicted(t, d, required, k);
    KeptAfterKeeps(d, k);
    AllEvictedIsReclaimable(d);
    MoreEvictedMoreFree(d, k, |Lru(d)|);
    UsedShrinks(d, k);
  }

  lemma {:induction false} DroppedAre(allocs: seq<Allocation>, victims: seq<Allocation>, a: Allocation)
    ensures a in DropIds(allocs, victims) <==> a in allocs && forall v | v in victims :: v.id != a.id
  {
    if victims != [] {
      var last := |victims| - 1;
      DroppedAre(allocs, victims[..last], a);
      assert victims == victims[..last] + [victims[last]];
    }
  }

  /** Only residents go, and none was used later than one that stays. */
  lemma EvictedAreOldest(t: Device, d: Device, required: real, gone: Allocation, kept: Allocation)
    requires IsEvictionOf(t, d, required) && DistinctIds(d.allocations)
    requires gone in d.allocations && gone !in t.allocations
    ensures gone.status == Resident
    ensures kept in t.allocations && kept.status == Resident ==> gone.lastUsed <= kept.lastUsed
  {
    hide IsPrefixEvicted, Fits, Residents, SortLru;
    var k :| 0 <= k <= |Lru(d)| && IsPrefixEvicted(t, d, required, k);
    PrefixIs(t, d, required, k);
    var lru := Lru(d);
    SortLruSorted(Residents(d.allocations));
    DroppedAre(d.allocations, lru[..k], gone);
    var v :| v in lru[..k] && v.id == gone.id;
    var p :| 0 <= p < k && lru[p] == v;
    SameIdSame(d.allocations, v, gone);
    if kept in t.allocations && kept.status == Resident {
      DroppedAre(d.allocations, lru[..k], kept);
      assert kept in lru;
      assert forall i | 0 <= i < k :: lru[i] in lru[..k];
      var q :| 0 <= q < |lru| && lru[q] == kept;
    }
  }

  lemma SameIdSame(allocs: seq<Allocation>, a: Allocation, b: Allocation)
    requires DistinctIds(allocs) && a in allocs && b in allocs && a.id == b.id
    ensures a == b
  {
    var i :| 0 <= i < |allocs| && allocs[i] == a;
    var j :| 0 <= j < |allocs| && allocs[j] == b;
  }

  lemma {:induction false} UsedShrinks(d: Device, k: nat)
    requires DistinctIds(d.allocations) && NonNegative(d.allocations) && k <= |Lru(d)|
    ensures Used(KeptAfter(d, k).allocations) <= Used(d.allocations)
  {
    hide KeptAfter, DistinctIds, NonNegative, Lru, Used;
    if k == 0 {
      KeepAll(d);
    } else {
      KeptAfterKeeps(d, k);
      UsedShrinks(d, k - 1);
    }
  }

  /** A device that can hold the request as it is could hold it without its residents. */
  lemma FitsThenReclaimable(d: Device, required: real)
    requires DistinctIds(d.allocations) && NonNegative(d.allocations) && Fits(d, required)
    ensures Reclaimable(d) >= required
  {
    KeepAll(d);
    MoreEvictedMoreFree(d, 0, |Lru(d)|);
    AllEvictedIsReclaimable(d);
  }

  // ---------- the scheduler ----------

  /** The stored allocations of a device never exceed what it may hand out. */
  ghost predicate WithinCapacity(d: Device) {
    Used(d.allocations) <= Max(0.0, d.total - d.reserve)
  }

  /** Well-formed: every allocation sits on the device it names, and no id occurs twice. */
  ghost predicate Placed(devices: seq<Device>) {
    && (forall i | 0 <= i < |devices| :: DistinctIds(devices[i].allocations))
    && (forall i, a | 0 <= i < |devices| && a in devices[i].allocations :: Counts(a) && a.gpuId == devices[i].gpuId)
    && (forall i, j | 0 <= i < j < |devices| :: devices[i].gpuId != devices[j].gpuId)
    && (forall i, j, a, b | 0 <= i < j < |devices| && a in devices[i].allocations && b in devices[j].allocations ::
          a.id != b.id)
  }

  ghost predicate Sound(devices: seq<Device>) {
    && Placed(devices)
    && forall i | 0 <= i < |devices| :: NonNegative(devices[i].allocations) && WithinCapacity(devices[i])
  }

  predicate Knows(devices: seq<Device>, gpu: Option<string>) {
    gpu.Some? && gpu.value != "" && exists i :: 0 <= i < |devices| && devices[i].gpuId == gpu.value
  }

  /** The preferred device when it exists, all devices otherwise. */
  predicate Considered(devices: seq<Device>, gpu: Option<string>, i: nat)
    requires i < |devices|
  {
    Knows(devices, gpu) ==> devices[i].gpuId == gpu.value
  }

  predicate IsCandidate(devices: seq<Device>, gpu: Option<string>, required: real, i: nat)
    requires i < |devices|
  {
    Considered(devices, gpu, i) && Fits(devices[i], required)
  }

  predicate HasCandidate(devices: seq<Device>, gpu: Option<string>, required: real) {
    exists i :: 0 <= i < |devices| && IsCandidate(devices, gpu, required, i)
  }

  /** Sort key (-available, gpu_id). */
  predicate PreferredTo(a: Device, b: Device) {
    Available(a) > Available(b) || (Available(a) == Available(b) && TextOrder.Leq(a.gpuId, b.gpuId))
  }

  /** The candidate with most memory available, ties by id. */
  ghost predicate IsBest(devices: seq<Device>, gpu: Option<string>, required: real, b: nat) {
    && b < |devices| && IsCandidate(devices, gpu, required, b)
    && forall i | 0 <= i < |devices| && IsCandidate(devices, gpu, required, i) :: PreferredTo(devices[b], devices[i])
  }

  /** Every considered device after eviction; the others untouched. */
  ghost predicate EvictedWhereConsidered(after: seq<Device>, before: seq<Device>, gpu: Option<string>, required: real) {
    && |after| == |before|
    && forall i | 0 <= i < |before| ::
         if Considered(before, gpu, i) then IsEvictionOf(after[i], before[i], required) else after[i] == before[i]
  }

  function Append(d: Device, a: Allocation): Device {
    d.(allocations := d.allocations + [a])
  }

  lemma PreferredTotal(a: Device, b: Device)
    ensures PreferredTo(a, b) || PreferredTo(b, a)
  {
    TextOrder.Total(a.gpuId, b.gpuId);
  }

  lemma PreferredTransitive(a: Device, b: Device, c: Device)
    requires PreferredTo(a, b) && PreferredTo(b, c)
    ensures PreferredTo(a, c)
  {
    if Available(a) == Available(c) {
      TextOrder.Transitive(a.gpuId, b.gpuId, c.gpuId);
    }
  }

  /**
   Told on the devices themselves: the chosen one holds the request beside what
   it uses; it is the preferred one when that exists, and otherwise no device
   that could hold the request has more room, or as much and an earlier id.
   Room below zero counts as none.
   */
  ghost predicate MostRoom(devices: seq<Device>, gpu: Option<string>, required: real, b: nat) {
    && b < |devices|
    && (required <= 0.0 || Room(devices[b]) >= required)
    && (gpu.Some? && gpu.value != "" && (exists i :: 0 <= i < |devices| && devices[i].gpuId == gpu.value) ==>
          devices[b].gpuId == gpu.value)
    && forall i {:trigger devices[i]} | 0 <= i < |devices| && i != b && (required <= 0.0 || Room(devices[i]) >= required) ::
         || (gpu.Some? && gpu.value != "" && devices[b].gpuId == gpu.value && devices[i].gpuId != gpu.value)
         || (Room(devices[b]) > Room(devices[i]) && Room(devices[b]) > 0.0)
         || ((Room(devices[b]) == Room(devices[i]) || (Room(devices[b]) <= 0.0 && Room(devices[i]) <= 0.0))
             && exists p: nat :: TextOrder.FirstDifference(devices[b].gpuId, devices[i].gpuId, p))
  }

  function Room(d: Device): real {
    d.total - d.reserve - Used(d.allocations)
  }

  lemma BestHasMostRoom(devices: seq<Device>, gpu: Option<string>, required: real, b: nat)
    requires IsBest(devices, gpu, required, b)
    ensures MostRoom(devices, gpu, required, b)
  {
    hide TextOrder.Leq, TextOrder.FirstDifference, Used;
    forall i | 0 <= i < |devices| && i != b && (required <= 0.0 || Room(devices[i]) >= required)
      ensures
        || (gpu.Some? && gpu.value != "" && devices[b].gpuId == gpu.value && devices[i].gpuId != gpu.value)
        || (Room(devices[b]) > Room(devices[i]) && Room(devices[b]) > 0.0)
        || ((Room(devices[b]) == Room(devices[i]) || (Room(devices[b]) <= 0.0 && Room(devices[i]) <= 0.0))
            && exists p: nat :: TextOrder.FirstDifference(devices[b].gpuId, devices[i].gpuId, p))
    {
      TextOrder.LeqMeans(devices[b].gpuId, devices[i].gpuId);
      assert Considered(devices, gpu, b);
      if Considered(devices, gpu, i) {
        assert IsCandidate(devices, gpu, required, i);
        assert PreferredTo(devices[b], devices[i]);
      }
    }
  }

  method FindBest(devices: seq<Device>, gpu: Option<string>, required: real) returns (b: int)
    ensures b < 0 <==> !HasCandidate(devices, gpu, required)
    ensures b >= 0 ==> IsBest(devices, gpu, required, b)
  {
    hide Available, TextOrder.Leq, PreferredTo;
    b := -1;
    for i := 0 to |devices|
      invariant -1 <= b < i
      invariant b < 0 <==> forall j | 0 <= j < i :: !IsCandidate(devices, gpu, required, j)
      invariant b >= 0 ==> IsCandidate(devices, gpu, required, b)
      invariant b >= 0 ==> forall j | 0 <= j < i && IsCandidate(devices, gpu, required, j) :: PreferredTo(devices[b], devices[j])
    {
      if IsCandidate(devices, gpu, required, i) {
        PreferredTotal(devices[i], devices[i]);
        if b < 0 {
          b := i;
        } else if !PreferredTo(devices[b], devices[i]) {
          PreferredTotal(devices[b], devices[i]);
          forall j | 0 <= j < i && IsCandidate(devices, gpu, required, j) ensures PreferredTo(devices[i], devices[j]) {
            PreferredTransitive(devices[i], devices[b], devices[j]);
          }
          b := i;
        }
      }
    }
  }

  // ---------- what the operations keep ----------

  lemma EvictionKeepsPlaced(after: seq<Device>, before: seq<Device>, gpu: Option<string>, required: real)
    requires Placed(before) && EvictedWhereConsidered(after, before, gpu, required)
    ensures forall i | 0 <= i < |before| ::
      && after[i] == before[i].(allocations := after[i].allocations)
      && DistinctIds(after[i].allocations)
      && forall a | a in after[i].allocations :: a in before[i].allocations
    ensures Placed(after)
  {
    hide IsEvictionOf, DistinctIds, Knows;
    forall i | 0 <= i < |before|
      ensures after[i] == before[i].(allocations := after[i].allocations)
      ensures DistinctIds(after[i].allocations)
      ensures forall a | a in after[i].allocations :: a in before[i].allocations
    {
      if Considered(before, gpu, i) {
        EvictionPlaces(after[i], before[i], required);
      }
    }
  }

  lemma EvictionPlaces(t: Device, d: Device, required: real)
    requires IsEvictionOf(t, d, required) && DistinctIds(d.allocations)
    ensures t == d.(allocations := t.allocations) && DistinctIds(t.allocations)
    ensures forall a | a in t.allocations :: a in d.allocations
  {
    hide IsPrefixEvicted, Fits;
    var k :| 0 <= k <= |Lru(d)| && IsPrefixEvicted(t, d, required, k);
    PrefixIs(t, d, required, k);
    DropsPlace(d.allocations, Lru(d)[..k]);
  }

  lemma PrefixIs(t: Device, d: Device, required: real, k: nat)
    requires k <= |Lru(d)| && IsPrefixEvicted(t, d, required, k)
    ensures t == KeptAfter(d, k)
  {
  }

  lemma {:induction false} DropsPlace(allocs: seq<Allocation>, victims: seq<Allocation>)
    requires DistinctIds(allocs)
    ensures DistinctIds(DropIds(allocs, victims)) && forall a | a in DropIds(allocs, victims) :: a in allocs
  {
    if victims != [] {
      DropsPlace(allocs, victims[..|victims| - 1]);
      DropKeepsDistinct(DropIds(allocs, victims[..|victims| - 1]), victims[|victims| - 1].id);
    }
  }

  lemma EvictionKeepsSound(after: seq<Device>, before: seq<Device>, gpu: Option<string>, required: real)
    requires Sound(before) && EvictedWhereConsidered(after, before, gpu, required)
    ensures Sound(after)
  {
    hide IsEvictionOf;
    EvictionKeepsPlaced(after, before, gpu, required);
    forall i | 0 <= i < |after| ensures NonNegative(after[i].allocations) && WithinCapacity(after[i]) {
      if Considered(before, gpu, i) {
        EvictionSucceedsIff(after[i], before[i], required);
      }
    }
  }

  lemma AppendKeepsPlaced(devices: seq<Device>, b: nat, a: Allocation)
    requires Placed(devices) && b < |devices| && a.gpuId == devices[b].gpuId && Counts(a)
    requires forall i, c | 0 <= i < |devices| && c in devices[i].allocations :: c.id != a.id
    ensures Placed(devices[b := Append(devices[b], a)])
  {
    hide DistinctIds;
    var after := devices[b := Append(devices[b], a)];
    assert forall c | c in after[b].allocations :: c == a || c in devices[b].allocations;
    AppendDistinct(devices[b].allocations, a);
    forall i | 0 <= i < |after| ensures DistinctIds(after[i].allocations) {
      assert i != b ==> DistinctIds(devices[i].allocations);
    }
  }

  lemma AppendDistinct(allocs: seq<Allocation>, a: Allocation)
    requires DistinctIds(allocs) && forall c | c in allocs :: c.id != a.id
    ensures DistinctIds(allocs + [a])
  {
    assert forall i | 0 <= i < |allocs| :: allocs[i] in allocs;
  }

  lemma AppendKeepsSound(devices: seq<Device>, b: nat, a: Allocation, required: real)
    requires Sound(devices) && b < |devices| && a.gpuId == devices[b].gpuId && Counts(a)
    requires forall i, c | 0 <= i < |devices| && c in devices[i].allocations :: c.id != a.id
    requires Fits(devices[b], required) && a.vram == required >= 0.0
    ensures Sound(devices[b := Append(devices[b], a)])
  {
    AppendKeepsPlaced(devices, b, a);
    UsedAppend(devices[b].allocations, a);
    var after := devices[b := Append(devices[b], a)];
    forall i | 0 <= i < |after| ensures NonNegative(after[i].allocations) && WithinCapacity(after[i]) {
      assert i != b ==> NonNegative(devices[i].allocations) && WithinCapacity(devices[i]);
    }
  }

  /** With eviction, some considered device fits the request afterwards iff some could hold it beside its reservations. */
  lemma EvictionFindsRoomIff(after: seq<Device>, before: seq<Device>, gpu: Option<string>, required: real)
    requires Sound(before) && EvictedWhereConsidered(after, before, gpu, required)
    ensures HasCandidate(after, gpu, required) <==>
              exists i :: 0 <= i < |before| && Considered(before, gpu, i) && Reclaimable(before[i]) >= required
  {
    hide IsEvictionOf;
    EvictionKeepsPlaced(after, before, gpu, required);
    SameKnown(after, before, gpu);
    forall i | 0 <= i < |before| && Considered(before, gpu, i)
      ensures Considered(after, gpu, i)
      ensures IsCandidate(after, gpu, required, i) <==> Reclaimable(before[i]) >= required
    {
      EvictionSucceedsIff(after[i], before[i], required);
    }
    forall i | 0 <= i < |before| && IsCandidate(after, gpu, required, i) ensures Considered(before, gpu, i) {}
  }

  lemma SameKnown(after: seq<Device>, before: seq<Device>, gpu: Option<string>)
    requires |after| == |before| && forall i | 0 <= i < |before| :: after[i].gpuId == before[i].gpuId
    ensures Knows(after, gpu) <==> Knows(before, gpu)
  {
    if Knows(before, gpu) {
      var i :| 0 <= i < |before| && before[i].gpuId == gpu.value;
      assert after[i].gpuId == gpu.value;
    }
  }

  class GPUScheduler {
    var devices: seq<Device>

    constructor (devices: seq<Device>)
      requires devices != [] && Placed(devices)
      ensures this.devices == devices
    {
      this.devices := devices;
    }

    method EvictConsidered(required: real, gpu: Option<string>)
      requires Placed(devices)
      modifies this
      ensures EvictedWhereConsidered(devices, old(devices), gpu, required)
    {
      hide IsEvictionOf, DistinctIds;
      ghost var before := devices;
      for i := 0 to |devices|
        invariant |devices| == |before|
        invariant forall j | i <= j < |before| :: devices[j] == before[j]
        invariant forall j | 0 <= j < i ::
            if Considered(before, gpu, j) then IsEvictionOf(devices[j], before[j], required) && devices[j].gpuId == before[j].gpuId
            else devices[j] == before[j]
      {
        assert forall j | 0 <= j < |before| :: devices[j].gpuId == before[j].gpuId;
        SameKnown(devices, before, gpu);
        if Considered(devices, gpu, i) {
          var t := EvictUntilAvailable(devices[i], required);
          EvictionPlaces(t, devices[i], required);
          devices := devices[i := t];
        }
      }
    }

    /**
     Reserve `required` GB.  Eviction happens only when nothing fits as it is;
     what it evicted stays evicted even when the request fails in the end.
     `mid` is the state the choice of a device is made in.
     */
    method Allocate(modelId: string, required: real, gpu: Option<string>, allowEviction: bool, id: string, now: real)
      returns (r: Option<Allocation>, ghost mid: seq<Device>)
      requires Placed(devices)
      requires forall i, a | 0 <= i < |devices| && a in devices[i].allocations :: a.id != id
      modifies this
      ensures if allowEviction && !HasCandidate(old(devices), gpu, required)
              then EvictedWhereConsidered(mid, old(devices), gpu, required) else mid == old(devices)
      ensures if HasCandidate(mid, gpu, required)
              then exists b: nat :: IsBest(mid, gpu, required, b) && MostRoom(mid, gpu, required, b)
                     && r == Some(Allocation(id, modelId, mid[b].gpuId, required, Reserved, now))
                     && devices == mid[b := Append(mid[b], r.value)]
              else r == None && devices == mid
      ensures Placed(devices)
      ensures Sound(old(devices)) && required >= 0.0 ==> Sound(devices)
      ensures Sound(old(devices)) && allowEviction ==>
        (r.Some? <==> exists i :: 0 <= i < |old(devices)| && Considered(old(devices), gpu, i) && Reclaimable(old(devices)[i]) >= required)
    {
      hide EvictedWhereConsidered, Sound, Placed, IsBest, MostRoom, IsCandidate, Considered, Reclaimable;
      ghost var before := devices;
      var b := FindBest(devices, gpu, required);
      if b < 0 && allowEviction {
        EvictConsidered(required, gpu);
        EvictionFacts(devices, before, gpu, required, id);
        b := FindBest(devices, gpu, required);
      } else if b >= 0 {
        CandidateIsReclaimable(before, gpu, required);
      }
      mid := devices;
      if b < 0 {
        return None, mid;
      }
      BestIsCandidate(mid, gpu, required, b);
      BestHasMostRoom(mid, gpu, required, b);
      var a := Allocation(id, modelId, devices[b].gpuId, required, Reserved, now);
      AppendKeepsPlaced(mid, b, a);
      if Sound(mid) && required >= 0.0 {
        AppendKeepsSound(mid, b, a, required);
      }
      devices := devices[b := Append(devices[b], a)];
      r := Some(a);
    }

    /** Mark the allocation RESIDENT and used now; an unknown id changes nothing. */
    method MarkResident(id: string, now: real) returns (found: bool)
      requires Placed(devices)
      modifies this
      ensures found <==> Stores(old(devices), id)
      ensures devices == Everywhere(old(devices), Mark(id, now, true))
      ensures Placed(devices) && (Sound(old(devices)) ==> Sound(devices))
    {
      hide Placed, Sound, DistinctIds, Marked;
      ghost var before := devices;
      MarkKeeps(before, id, now, true);
      for i := 0 to |devices|
        invariant devices == before
        invariant forall j | 0 <= j < i :: !Has(before[j], id)
      {
        if Has(devices[i], id) {
          MarkElsewhere(before, id, now, true, i);
          devices := devices[i := Marked(devices[i], id, now, true)];
          return true;
        }
      }
      MarkElsewhere(before, id, now, true, |before|);
      found := false;
    }

    /** Mark the allocation used now, which moves it to the end of the eviction order. */
    method Touch(id: string, now: real) returns (found: bool)
      requires Placed(devices)
      modifies this
      ensures found <==> Stores(old(devices), id)
      ensures devices == Everywhere(old(devices), Mark(id, now, false))
      ensures Placed(devices) && (Sound(old(devices)) ==> Sound(devices))
    {
      hide Placed, Sound, DistinctIds, Marked;
      ghost var before := devices;
      MarkKeeps(before, id, now, false);
      for i := 0 to |devices|
        invariant devices == before
        invariant forall j | 0 <= j < i :: !Has(before[j], id)
      {
        if Has(devices[i], id) {
          MarkElsewhere(before, id, now, false, i);
          devices := devices[i := Marked(devices[i], id, now, false)];
          return true;
        }
      }
      MarkElsewhere(before, id, now, false, |before|);
      found := false;
    }

    /** Forget the allocation, wherever it is. */
    method Release(id: string) returns (found: bool)
      requires Placed(devices)
      modifies this
      ensures found <==> Stores(old(devices), id)
      ensures devices == Everywhere(old(devices), Drop(id))
      ensures Placed(devices) && (Sound(old(devices)) ==> Sound(devices))
    {
      hide Placed, Sound, DistinctIds, DropId;
      ghost var before := devices;
      DropKeeps(before, id);
      for i := 0 to |devices|
        invariant devices == before
        invariant forall j | 0 <= j < i :: !Has(before[j], id)
      {
        if Has(devices[i], id) {
          DropElsewhere(before, id, i);
          devices := devices[i := devices[i].(allocations := DropId(devices[i].allocations, id))];
          return true;
        }
      }
      DropElsewhere(before, id, |before|);
      found := false;
    }

    /** Drop every allocation of a model, reserved or resident, and report them. */
    method EvictModel(modelId: string) returns (evicted: seq<Allocation>)
      requires Placed(devices)
      modifies this
      ensures devices == Everywhere(old(devices), DropModel(modelId))
      ensures evicted == AllOfModel(old(devices), modelId)
      ensures Placed(devices) && (Sound(old(devices)) ==> Sound(devices))
    {
      hide Placed, Sound, WithoutModel;
      ghost var before := devices;
      ModelDropKeeps(before, modelId);
      evicted := [];
      for i := 0 to |devices|
        invariant |devices| == |before|
        invariant forall j | i <= j < |before| :: devices[j] == before[j]
        invariant forall j | 0 <= j < i :: devices[j] == before[j].(allocations := WithoutModel(before[j].allocations, modelId))
        invariant evicted + AllOfModel(before[i..], modelId) == AllOfModel(before, modelId)
      {
        assert before[i..][1..] == before[i + 1..];
        evicted := evicted + OfModel(devices[i].allocations, modelId);
        devices := devices[i := devices[i].(allocations := WithoutModel(devices[i].allocations, modelId))];
      }
    }
  }

  /** Into the dictionary by `gpu_id`: a repeated id keeps its place and takes the later device. */
  function PutById(known: seq<Device>, d: Device): (r: seq<Device>)
    ensures forall x | x in r :: x == d || x in known
  {
    if known == [] then [d]
    else if known[0].gpuId == d.gpuId then [d] + known[1..]
    else [known[0]] + PutById(known[1..], d)
  }

  function ById(devices: seq<Device>): (r: seq<Device>)
    ensures forall x | x in r :: x in devices
  {
    if devices == [] then [] else PutById(ById(devices[..|devices| - 1]), devices[|devices| - 1])
  }

  ghost predicate DistinctGpus(devices: seq<Device>) {
    forall i, j | 0 <= i < j < |devices| :: devices[i].gpuId != devices[j].gpuId
  }

  lemma {:induction false} PutKeepsDistinct(known: seq<Device>, d: Device)
    requires DistinctGpus(known)
    ensures DistinctGpus(PutById(known, d))
    ensures forall x | x in known && x.gpuId != d.gpuId :: x in PutById(known, d)
    ensures d in PutById(known, d)
  {
    if known != [] && known[0].gpuId != d.gpuId {
      PutKeepsDistinct(known[1..], d);
      var rest := PutById(known[1..], d);
      forall j | 0 <= j < |rest| ensures rest[j].gpuId != known[0].gpuId {
        assert rest[j] in rest;
      }
      assert known == [known[0]] + known[1..];
    }
  }

  lemma {:induction false} ByIdDistinct(devices: seq<Device>)
    ensures DistinctGpus(ById(devices))
  {
    if devices != [] {
      ByIdDistinct(devices[..|devices| - 1]);
      PutKeepsDistinct(ById(devices[..|devices| - 1]), devices[|devices| - 1]);
    }
  }

  /** The last device given with an id is the one kept. */
  lemma {:induction false} LastOfIdKept(devices: seq<Device>, i: nat)
    requires i < |devices| && forall j | i < j < |devices| :: devices[j].gpuId != devices[i].gpuId
    ensures devices[i] in ById(devices) && DistinctGpus(ById(devices))
  {
    var n := |devices| - 1;
    ByIdDistinct(devices);
    ByIdDistinct(devices[..n]);
    PutKeepsDistinct(ById(devices[..n]), devices[n]);
    if i < n {
      LastOfIdKept(devices[..n], i);
    }
  }

  /** A device with a known id takes that id's place; any other goes to the end. */
  lemma PlaceOfId(devices: seq<Device>, d: Device) returns (k: nat)
    ensures var known := ById(devices);
      && k <= |known| && (k == |known| <==> forall x | x in known :: x.gpuId != d.gpuId)
      && (k < |known| ==> known[k].gpuId == d.gpuId)
      && ById(devices + [d]) == if k < |known| then known[k := d] else known + [d]
  {
    assert (devices + [d])[..|devices|] == devices;
    k := PutAt(ById(devices), d);
  }

  lemma {:induction false} PutAt(known: seq<Device>, d: Device) returns (k: nat)
    ensures k <= |known| && (k == |known| <==> forall x | x in known :: x.gpuId != d.gpuId)
    ensures k < |known| ==> known[k].gpuId == d.gpuId
    ensures PutById(known, d) == if k < |known| then known[k := d] else known + [d]
  {
    if known == [] || known[0].gpuId == d.gpuId {
      k := 0;
      assert known != [] ==> known[0] in known;
    } else {
      k := PutAt(known[1..], d);
      k := k + 1;
      assert known == [known[0]] + known[1..];
    }
  }

  lemma ByIdNonEmpty(devices: seq<Device>)
    requires devices != []
    ensures ById(devices) != []
  {
  }

  /** Devices that hold nothing yet can always be opened, ids repeated or not. */
  lemma EmptyDevicesArePlaced(devices: seq<Device>)
    requires forall d | d in devices :: d.allocations == []
    ensures Placed(ById(devices)) && Sound(ById(devices))
  {
    ByIdDistinct(devices);
    forall i | 0 <= i < |ById(devices)| ensures ById(devices)[i].allocations == [] {
      assert ById(devices)[i] in ById(devices);
    }
  }

  /** A scheduler needs at least one device; null stands for the ValueError without one. */
  method Open(devices: seq<Device>) returns (s: GPUScheduler?)
    requires Placed(ById(devices))
    ensures s == null <==> devices == []
    ensures s != null ==> fresh(s) && s.devices == ById(devices)
  {
    if devices == [] {
      return null;
    }
    ByIdNonEmpty(devices);
    s := new GPUScheduler(ById(devices));
  }

  predicate Has(d: Device, id: string) {
    exists a :: a in d.allocations && a.id == id
  }

  predicate Stores(devices: seq<Device>, id: string) {
    exists i :: 0 <= i < |devices| && Has(devices[i], id)
  }

  /** An allocation is known when it is held on any device at all. */
  lemma StoresMeans(devices: seq<Device>, id: string)
    ensures Stores(devices, id) <==> exists d, a :: d in devices && a in d.allocations && a.id == id
  {
    if Stores(devices, id) {
      var i :| 0 <= i < |devices| && Has(devices[i], id);
      var a :| a in devices[i].allocations && a.id == id;
      assert devices[i] in devices;
    }
    if d, a :| d in devices && a in d.allocations && a.id == id {
      var i :| 0 <= i < |devices| && devices[i] == d;
      assert Has(devices[i], id);
    }
  }

  /** What the remaining operations do to the allocations of a device. */
  datatype Edit = Mark(id: string, now: real, resident: bool) | Drop(id: string) | DropModel(modelId: string)

  function Edited(d: Device, e: Edit): Device {
    match e
    case Mark(id, now, resident) => Marked(d, id, now, resident)
    case Drop(id) => d.(allocations := DropId(d.allocations, id))
    case DropModel(modelId) => d.(allocations := WithoutModel(d.allocations, modelId))
  }

  function Everywhere(devices: seq<Device>, e: Edit): seq<Device> {
    seq(|devices|, i requires 0 <= i < |devices| => Edited(devices[i], e))
  }

  function Marked(d: Device, id: string, now: real, resident: bool): Device {
    d.(allocations := seq(|d.allocations|, i requires 0 <= i < |d.allocations| =>
        if d.allocations[i].id == id then d.allocations[i].(status := if resident then Resident else d.allocations[i].status, lastUsed := now) else d.allocations[i]))
  }

  lemma MarkElsewhere(devices: seq<Device>, id: string, now: real, resident: bool, i: nat)
    requires Placed(devices) && i <= |devices|
    requires forall j | 0 <= j < i :: !Has(devices[j], id)
    requires i < |devices| ==> Has(devices[i], id)
    ensures Everywhere(devices, Mark(id, now, resident)) == if i < |devices| then devices[i := Marked(devices[i], id, now, resident)] else devices
  {
    forall j | 0 <= j < |devices| && j != i ensures Marked(devices[j], id, now, resident) == devices[j] {
      forall k | 0 <= k < |devices[j].allocations| ensures devices[j].allocations[k].id != id {
        assert devices[j].allocations[k] in devices[j].allocations;
      }
    }
  }

  lemma {:induction false} MarkKeepsUsed(d: Device, id: string, now: real, resident: bool)
    requires forall a | a in d.allocations :: Counts(a)
    ensures Used(Marked(d, id, now, resident).allocations) == Used(d.allocations)
    decreases |d.allocations|
  {
    if d.allocations != [] {
      var rest := d.(allocations := d.allocations[1..]);
      assert d.allocations[0] in d.allocations && forall a | a in rest.allocations :: a in d.allocations;
      MarkKeepsUsed(rest, id, now, resident);
      assert Marked(d, id, now, resident).allocations[1..] == Marked(rest, id, now, resident).allocations;
    }
  }

  lemma MarkKeeps(devices: seq<Device>, id: string, now: real, resident: bool)
    requires Placed(devices)
    ensures Placed(Everywhere(devices, Mark(id, now, resident)))
    ensures Sound(devices) ==> Sound(Everywhere(devices, Mark(id, now, resident)))
  {
    hide Used, DistinctIds, Marked;
    var after := Everywhere(devices, Mark(id, now, resident));
    forall i | 0 <= i < |after| ensures DistinctIds(after[i].allocations) && after[i] == devices[i].(allocations := after[i].allocations) {
      MarkDistinct(devices[i], id, now, resident);
    }
    forall i, a | 0 <= i < |after| && a in after[i].allocations ensures Counts(a) && a.gpuId == after[i].gpuId {
      var b := MarkOrigin(devices[i], id, now, resident, a);
    }
    forall i, j, a, b | 0 <= i < j < |after| && a in after[i].allocations && b in after[j].allocations
      ensures a.id != b.id
    {
      var c := MarkOrigin(devices[i], id, now, resident, a);
      var d := MarkOrigin(devices[j], id, now, resident, b);
      assert c in devices[i].allocations && d in devices[j].allocations;
    }
    if Sound(devices) {
      forall i | 0 <= i < |after| ensures WithinCapacity(after[i]) && NonNegative(after[i].allocations) {
        MarkKeepsUsed(devices[i], id, now, resident);
        assert WithinCapacity(devices[i]) && NonNegative(devices[i].allocations);
        forall a | a in after[i].allocations ensures a.vram >= 0.0 {
          var b := MarkOrigin(devices[i], id, now, resident, a);
        }
      }
    }
  }

  lemma MarkDistinct(d: Device, id: string, now: real, resident: bool)
    requires DistinctIds(d.allocations)
    ensures DistinctIds(Marked(d, id, now, resident).allocations) && Marked(d, id, now, resident) == d.(allocations := Marked(d, id, now, resident).allocations)
  {
  }

  lemma MarkOrigin(d: Device, id: string, now: real, resident: bool, a: Allocation) returns (b: Allocation)
    requires a in Marked(d, id, now, resident).allocations
    ensures b in d.allocations && b.id == a.id && b.gpuId == a.gpuId && b.vram == a.vram && (Counts(b) ==> Counts(a))
  {
    var k :| 0 <= k < |d.allocations| && Marked(d, id, now, resident).allocations[k] == a;
    b := d.allocations[k];
  }

  /** Marking touches the named allocation only: its time, and its status when it becomes resident. */
  lemma MarkMeans(d: Device, id: string, now: real, resident: bool, k: nat)
    requires k < |d.allocations|
    ensures var before, t := d.allocations[k], Marked(d, id, now, resident);
      && |t.allocations| == |d.allocations| && t == d.(allocations := t.allocations)
      && t.allocations[k] ==
        if before.id != id then before
        else Allocation(id, before.modelId, before.gpuId, before.vram, if resident then Resident else before.status, now)
  {
  }

  /** Dropping a model reports exactly what it drops. */
  lemma {:induction false} ReportedAreDropped(allocs: seq<Allocation>, modelId: string)
    ensures |OfModel(allocs, modelId)| + |WithoutModel(allocs, modelId)| == |allocs|
    ensures forall a | a in allocs && a.modelId == modelId :: a.(status := Evicted) in OfModel(allocs, modelId)
  {
    if allocs != [] {
      ReportedAreDropped(allocs[1..], modelId);
      assert allocs == [allocs[0]] + allocs[1..];
    }
  }

  /** And reported in the order they are held. */
  lemma {:induction false} ReportedInOrder(allocs: seq<Allocation>, modelId: string, i: nat, j: nat) returns (p: nat, q: nat)
    requires i < j < |allocs| && allocs[i].modelId == modelId && allocs[j].modelId == modelId
    ensures p < q < |OfModel(allocs, modelId)|
    ensures OfModel(allocs, modelId)[p] == allocs[i].(status := Evicted)
    ensures OfModel(allocs, modelId)[q] == allocs[j].(status := Evicted)
  {
    if i > 0 {
      p, q := ReportedInOrder(allocs[1..], modelId, i - 1, j - 1);
      if allocs[0].modelId == modelId {
        p, q := p + 1, q + 1;
      }
    } else {
      ReportedAreDropped(allocs[1..], modelId);
      assert allocs[j] == allocs[1..][j - 1] && allocs[j] in allocs[1..];
      var rest := OfModel(allocs[1..], modelId);
      assert allocs[j].(status := Evicted) in rest;
      q :| q < |rest| && rest[q] == allocs[j].(status := Evicted);
      p, q := 0, q + 1;
    }
  }

  /** Removing allocations keeps everything as it should be. */
  lemma RemovalKeeps(after: seq<Device>, before: seq<Device>)
    requires Placed(before) && |after| == |before|
    requires forall i | 0 <= i < |before| ::
      && after[i] == before[i].(allocations := after[i].allocations)
      && DistinctIds(after[i].allocations)
      && (forall a | a in after[i].allocations :: a in before[i].allocations)
      && (NonNegative(before[i].allocations) ==> Used(after[i].allocations) <= Used(before[i].allocations))
    ensures Placed(after) && (Sound(before) ==> Sound(after))
  {
    if Sound(before) {
      forall i | 0 <= i < |after| ensures NonNegative(after[i].allocations) && WithinCapacity(after[i]) {
        assert NonNegative(before[i].allocations) && WithinCapacity(before[i]);
      }
    }
  }

  lemma {:induction false} DropShrinks(allocs: seq<Allocation>, id: string)
    requires NonNegative(allocs)
    ensures Used(DropId(allocs, id)) <= Used(allocs)
  {
    if allocs != [] {
      assert allocs[0] in allocs && forall a | a in allocs[1..] :: a in allocs;
      DropShrinks(allocs[1..], id);
    }
  }

  lemma DropKeeps(devices: seq<Device>, id: string)
    requires Placed(devices)
    ensures Placed(Everywhere(devices, Drop(id)))
    ensures Sound(devices) ==> Sound(Everywhere(devices, Drop(id)))
  {
    var after := Everywhere(devices, Drop(id));
    forall i | 0 <= i < |devices|
      ensures DistinctIds(after[i].allocations)
      ensures NonNegative(devices[i].allocations) ==> Used(after[i].allocations) <= Used(devices[i].allocations)
    {
      DropKeepsDistinct(devices[i].allocations, id);
      if NonNegative(devices[i].allocations) {
        DropShrinks(devices[i].allocations, id);
      }
    }
    RemovalKeeps(after, devices);
  }

  lemma DropElsewhere(devices: seq<Device>, id: string, i: nat)
    requires Placed(devices) && i <= |devices|
    requires forall j | 0 <= j < i :: !Has(devices[j], id)
    requires i < |devices| ==> Has(devices[i], id)
    ensures Everywhere(devices, Drop(id))
         == if i < |devices| then devices[i := devices[i].(allocations := DropId(devices[i].allocations, id))] else devices
  {
    forall j | 0 <= j < |devices| && j != i ensures DropId(devices[j].allocations, id) == devices[j].allocations {
      DropAbsent(devices[j].allocations, id);
    }
  }

  function WithoutModel(allocs: seq<Allocation>, modelId: string): (r: seq<Allocation>)
    ensures forall a :: a in r <==> a in allocs && a.modelId != modelId
  {
    if allocs == [] then []
    else
      assert allocs == [allocs[0]] + allocs[1..];
      var rest := WithoutModel(allocs[1..], modelId);
      if allocs[0].modelId != modelId then [allocs[0]] + rest else rest
  }

  function OfModel(allocs: seq<Allocation>, modelId: string): (r: seq<Allocation>)
    ensures forall a | a in r :: a.modelId == modelId && a.status == Evicted
  {
    if allocs == [] then []
    else
      var rest := OfModel(allocs[1..], modelId);
      if allocs[0].modelId == modelId then [allocs[0].(status := Evicted)] + rest else rest
  }

  function AllOfModel(devices: seq<Device>, modelId: string): seq<Allocation> {
    if devices == [] then [] else OfModel(devices[0].allocations, modelId) + AllOfModel(devices[1..], modelId)
  }

  /** Each device's own are reported between those of the devices before it and after it. */
  lemma {:induction false} ReportedAt(devices: seq<Device>, modelId: string, k: nat)
    requires k < |devices|
    ensures AllOfModel(devices, modelId) ==
      AllOfModel(devices[..k], modelId) + OfModel(devices[k].allocations, modelId) + AllOfModel(devices[k + 1..], modelId)
  {
    hide OfModel;
    if k > 0 {
      ReportedAt(devices[1..], modelId, k - 1);
      assert devices[1..][..k - 1] == devices[..k][1..] && devices[1..][k - 1] == devices[k];
      assert devices[1..][k..] == devices[k + 1..];
    }
  }

  lemma {:induction false} WithoutModelDistinct(allocs: seq<Allocation>, modelId: string)
    requires DistinctIds(allocs)
    ensures DistinctIds(WithoutModel(allocs, modelId))
  {
    if allocs != [] {
      WithoutModelDistinct(allocs[1..], modelId);
      var rest := WithoutModel(allocs[1..], modelId);
      forall j | 0 <= j < |rest| ensures rest[j].id != allocs[0].id {
        assert rest[j] in allocs[1..];
      }
    }
  }

  lemma {:induction false} WithoutModelShrinks(allocs: seq<Allocation>, modelId: string)
    requires NonNegative(allocs)
    ensures Used(WithoutModel(allocs, modelId)) <= Used(allocs)
  {
    if allocs != [] {
      assert allocs[0] in allocs && forall a | a in allocs[1..] :: a in allocs;
      WithoutModelShrinks(allocs[1..], modelId);
    }
  }

  lemma ModelDropKeeps(devices: seq<Device>, modelId: string)
    requires Placed(devices)
    ensures Placed(Everywhere(devices, DropModel(modelId)))
    ensures Sound(devices) ==> Sound(Everywhere(devices, DropModel(modelId)))
  {
    var after := Everywhere(devices, DropModel(modelId));
    forall i | 0 <= i < |devices|
      ensures DistinctIds(after[i].allocations)
      ensures NonNegative(devices[i].allocations) ==> Used(after[i].allocations) <= Used(devices[i].allocations)
    {
      WithoutModelDistinct(devices[i].allocations, modelId);
      if NonNegative(devices[i].allocations) {
        WithoutModelShrinks(devices[i].allocations, modelId);
      }
    }
    RemovalKeeps(after, devices);
  }

  lemma BestIsCandidate(devices: seq<Device>, gpu: Option<string>, required: real, b: nat)
    requires IsBest(devices, gpu, required, b)
    ensures b < |devices| && Fits(devices[b], required)
  {
  }

  lemma CandidateIsReclaimable(devices: seq<Device>, gpu: Option<string>, required: real)
    requires HasCandidate(devices, gpu, required)
    ensures Sound(devices) ==>
      exists i :: 0 <= i < |devices| && Considered(devices, gpu, i) && Reclaimable(devices[i]) >= required
  {
    if Sound(devices) {
      var i :| 0 <= i < |devices| && IsCandidate(devices, gpu, required, i);
      FitsThenReclaimable(devices[i], required);
    }
  }

  lemma EvictionFacts(after: seq<Device>, before: seq<Device>, gpu: Option<string>, required: real, id: string)
    requires Placed(before) && EvictedWhereConsidered(after, before, gpu, required)
    requires forall i, a | 0 <= i < |before| && a in before[i].allocations :: a.id != id
    ensures Placed(after) && forall i, a | 0 <= i < |after| && a in after[i].allocations :: a.id != id
    ensures Sound(before) ==> Sound(after)
    ensures Sound(before) ==> (HasCandidate(after, gpu, required) <==>
              exists i :: 0 <= i < |before| && Considered(before, gpu, i) && Reclaimable(before[i]) >= required)
  {
    EvictionKeepsPlaced(after, before, gpu, required);
    if Sound(before) {
      EvictionKeepsSound(after, before, gpu, required);
      EvictionFindsRoomIff(after, before, gpu, required);
    }
  }

  // ---------- negative requests ----------

  const BORROWED := Allocation("a", "m", "gpu", -5.0, Reserved, 0.0)
  const LARGE := Allocation("b", "m", "gpu", 15.0, Reserved, 1.0)

  function TenGb(allocs: seq<Allocation>): Device {
    Device("gpu", 10.0, 0.0, allocs)
  }

  lemma BorrowedSums()
    ensures Available(TenGb([])) == 10.0
    ensures Available(TenGb([BORROWED])) == 15.0
    ensures Used([LARGE]) == 15.0 && DropId([BORROWED, LARGE], "a") == [LARGE]
  {
    assert [BORROWED][1..] == [] && [LARGE][1..] == [];
    assert [BORROWED, LARGE][1..] == [LARGE];
  }

  /** On a single device that fits the request, the allocation lands there. */
  lemma OnlyChoice(d: Device, required: real, b: nat)
    requires Available(d) >= required
    ensures HasCandidate([d], None, required)
    ensures IsBest([d], None, required, b) ==> b == 0
  {
    assert IsCandidate([d], None, required, 0);
  }

  /**
   The capacity bound needs non-negative requests: a request for -5 GB is
   granted, makes room for 15 GB on a 10 GB device, and once it is released the
   device holds more than it has.
   */
  method NegativeRequestOverbooks() returns (s: GPUScheduler)
    ensures |s.devices| == 1 && !WithinCapacity(s.devices[0])
  {
    hide Used, Available, DropId, HasCandidate, Placed, Sound, PreferredTo, Fits;
    BorrowedSums();
    TenGbPlaced();
    s := new GPUScheduler([TenGb([])]);
    var a, m0 := s.Allocate("m", -5.0, None, false, "a", 0.0);
    OnlyChoice(TenGb([]), -5.0, 0);
    ghost var c: nat :| IsBest(m0, None, -5.0, c) && s.devices == m0[c := Append(m0[c], a.value)]
      && a == Some(Allocation("a", "m", m0[c].gpuId, -5.0, Reserved, 0.0));
    OnlyChoice(TenGb([]), -5.0, c);
    assert a == Some(BORROWED) && [] + [BORROWED] == [BORROWED];
    assert s.devices == [TenGb([BORROWED])];
    var b, m1 := s.Allocate("m", 15.0, None, false, "b", 1.0);
    OnlyChoice(TenGb([BORROWED]), 15.0, 0);
    ghost var e: nat :| IsBest(m1, None, 15.0, e) && s.devices == m1[e := Append(m1[e], b.value)]
      && b == Some(Allocation("b", "m", m1[e].gpuId, 15.0, Reserved, 1.0));
    OnlyChoice(TenGb([BORROWED]), 15.0, e);
    assert b == Some(LARGE) && [BORROWED] + [LARGE] == [BORROWED, LARGE];
    assert s.devices == [TenGb([BORROWED, LARGE])];
    var found := s.Release("a");
    assert s.devices == [TenGb([LARGE])];
  }

  lemma TenGbPlaced()
    ensures Placed([TenGb([])])
  {
  }
}

/** Which granted requests keep a device within its capacity whatever is done to it afterwards. */
module GpuCapacity {
  import opened GpuMemory
  import opened GpuScheduler

  /** What may still happen to a device: non-negative requests that fit, and the edits; an eviction is a row of drops. */
  datatype Op = Grant(a: Allocation) | Change(e: Edit)

  predicate IsFresh(d: Device, id: string) {
    forall a | a in d.allocations :: a.id != id
  }

  /** A request granted on `d`, of any size. */
  predicate Granted(d: Device, a: Allocation) {
    Counts(a) && a.gpuId == d.gpuId && Fits(d, a.vram) && IsFresh(d, a.id)
  }

  predicate Allowed(d: Device, op: Op) {
    op.Grant? ==> Granted(d, op.a) && op.a.vram >= 0.0
  }

  function Apply(d: Device, op: Op): Device {
    match op
    case Grant(a) => Append(d, a)
    case Change(e) => Edited(d, e)
  }

  ghost predicate Reaches(d: Device, ops: seq<Op>, t: Device)
    decreases |ops|
  {
    if ops == [] then t == d else Allowed(d, ops[0]) && Reaches(Apply(d, ops[0]), ops[1..], t)
  }

  /** The device stays within its capacity under every continuation. */
  ghost predicate Safe(d: Device) {
    forall ops, t :: Reaches(d, ops, t) ==> WithinCapacity(t)
  }

  // ---------- ordinary devices ----------

  lemma OneDevice(d: Device, t: Device, e: Edit)
    requires t == Edited(d, e)
    ensures Everywhere([d], e) == [t]
  {
  }

  lemma SoundMeans(d: Device)
    requires Sound([d])
    ensures WithinCapacity(d) && NonNegative(d.allocations) && DistinctIds(d.allocations)
    ensures forall a | a in d.allocations :: Counts(a) && a.gpuId == d.gpuId
  {
    assert [d][0] == d;
  }

  lemma ChangeKeepsSound(d: Device, e: Edit)
    requires Sound([d])
    ensures Sound([Edited(d, e)])
  {
    hide Sound, Placed, Edited, Everywhere;
    OneDevice(d, Edited(d, e), e);
    SoundIsPlaced([d]);
    match e {
      case Mark(id, now, resident) => MarkKeeps([d], id, now, resident);
      case Drop(id) => DropKeeps([d], id);
      case DropModel(modelId) => ModelDropKeeps([d], modelId);
    }
  }

  lemma SoundIsPlaced(devices: seq<Device>)
    requires Sound(devices)
    ensures Placed(devices)
  {
  }

  lemma GrantKeepsSound(d: Device, a: Allocation)
    requires Sound([d]) && Granted(d, a) && a.vram >= 0.0
    ensures Sound([Append(d, a)])
  {
    hide Sound, Append;
    assert [d][0] == d;
    AppendKeepsSound([d], 0, a, a.vram);
    assert [d][0 := Append(d, a)] == [Append(d, a)];
  }

  lemma {:induction false} SoundIsSafe(d: Device, ops: seq<Op>, t: Device)
    requires Sound([d]) && Reaches(d, ops, t)
    ensures WithinCapacity(t)
    decreases |ops|
  {
    hide Sound, WithinCapacity, Edited, Append, Granted;
    if ops == [] {
      SoundMeans(d);
    } else {
      match ops[0] {
        case Grant(a) => GrantKeepsSound(d, a);
        case Change(e) => ChangeKeepsSound(d, e);
      }
      SoundIsSafe(Apply(d, ops[0]), ops[1..], t);
    }
  }

  // ---------- devices whose reserve exceeds their memory ----------

  /** All allocations are empty, but for at most one negative one that does not outweigh the missing memory. */
  ghost predicate Sunk(d: Device, id: string, v: real) {
    && d.total - d.reserve <= v < 0.0
    && DistinctIds(d.allocations)
    && forall a | a in d.allocations :: Counts(a) && (a.vram == 0.0 || (a.id == id && a.vram == v))
  }

  lemma {:induction false} SunkUsed(allocs: seq<Allocation>, id: string, v: real)
    requires v < 0.0 && DistinctIds(allocs)
    requires forall a | a in allocs :: Counts(a) && (a.vram == 0.0 || (a.id == id && a.vram == v))
    ensures v <= Used(allocs) <= 0.0
    ensures (forall a | a in allocs :: a.id != id) ==> Used(allocs) == 0.0
  {
    if allocs != [] {
      assert allocs[0] in allocs && forall a | a in allocs[1..] :: a in allocs;
      SunkUsed(allocs[1..], id, v);
      if allocs[0].id == id {
        forall a | a in allocs[1..] ensures a.id != id {
          var k :| 0 <= k < |allocs| - 1 && allocs[1..][k] == a;
          assert allocs[k + 1] == a;
        }
      }
    }
  }

  lemma ChangeKeepsSunk(d: Device, e: Edit, id: string, v: real)
    requires Sunk(d, id, v)
    ensures Sunk(Edited(d, e), id, v)
  {
    match e {
      case Mark(x, now, resident) =>
        MarkDistinct(d, x, now, resident);
        forall a | a in Marked(d, x, now, resident).allocations
          ensures Counts(a) && (a.vram == 0.0 || (a.id == id && a.vram == v))
        {
          var b := MarkOrigin(d, x, now, resident, a);
        }
      case Drop(x) => DropKeepsDistinct(d.allocations, x);
      case DropModel(modelId) => WithoutModelDistinct(d.allocations, modelId);
    }
  }

  lemma GrantKeepsSunk(d: Device, a: Allocation, id: string, v: real)
    requires Sunk(d, id, v) && Granted(d, a) && a.vram >= 0.0
    ensures Sunk(Append(d, a), id, v)
  {
    SunkUsed(d.allocations, id, v);
    AppendDistinct(d.allocations, a);
  }

  lemma {:induction false} SunkIsSafe(d: Device, id: string, v: real, ops: seq<Op>, t: Device)
    requires Sunk(d, id, v) && Reaches(d, ops, t)
    ensures WithinCapacity(t)
    decreases |ops|
  {
    hide Edited, Append, Granted, Used, DistinctIds;
    if ops == [] {
      SunkUsed(d.allocations, id, v);
    } else {
      match ops[0] {
        case Grant(a) => GrantKeepsSunk(d, a, id, v);
        case Change(e) => ChangeKeepsSunk(d, e, id, v);
      }
      SunkIsSafe(Apply(d, ops[0]), id, v, ops[1..], t);
    }
  }

  lemma {:induction false} NothingUsed(allocs: seq<Allocation>)
    requires NonNegative(allocs) && Used(allocs) <= 0.0 && forall a | a in allocs :: Counts(a)
    ensures forall a | a in allocs :: a.vram == 0.0
  {
    if allocs != [] {
      assert allocs[0] in allocs && forall a | a in allocs[1..] :: a in allocs;
      UsedNonNegative(allocs[1..]);
      NothingUsed(allocs[1..]);
    }
  }

  lemma {:induction false} UsedNonNegative(allocs: seq<Allocation>)
    requires NonNegative(allocs)
    ensures Used(allocs) >= 0.0
  {
    if allocs != [] {
      assert allocs[0] in allocs && forall a | a in allocs[1..] :: a in allocs;
      UsedNonNegative(allocs[1..]);
    }
  }

  lemma SmallDebtSinks(d: Device, a: Allocation)
    requires Sound([d]) && Granted(d, a) && d.total - d.reserve <= a.vram < 0.0
    ensures Sunk(Append(d, a), a.id, a.vram)
  {
    SoundMeans(d);
    NothingUsed(d.allocations);
    AppendDistinct(d.allocations, a);
  }

  // ---------- borrowing ----------

  function LongerId(allocs: seq<Allocation>): (id: string)
    ensures forall a | a in allocs :: |a.id| < |id|
  {
    if allocs == [] then "x"
    else
      var rest := LongerId(allocs[1..]);
      assert allocs == [allocs[0]] + allocs[1..];
      rest + allocs[0].id
  }

  /** The request that fills the memory a negative one pretends to free. */
  function Filler(d: Device): Allocation {
    Allocation(LongerId(d.allocations), "", d.gpuId, Available(d), Reserved, 0.0)
  }

  lemma FillerIsGranted(d: Device)
    ensures Granted(d, Filler(d)) && Filler(d).vram >= 0.0
  {
  }

  /** Grant the debt, grant what it seems to free, release the debt: the device is over its capacity. */
  lemma DebtOverbooks(d: Device, debt: Allocation)
    requires Sound([d]) && Granted(d, debt) && debt.vram < 0.0 && debt.vram < d.total - d.reserve
    ensures var owing := Append(d, debt);
      var filled := Append(owing, Filler(owing));
      && Granted(owing, Filler(owing)) && Filler(owing).vram >= 0.0
      && !WithinCapacity(filled.(allocations := DropId(filled.allocations, debt.id)))
  {
    SoundMeans(d);
    UsedNonNegative(d.allocations);
    var owing := Append(d, debt);
    var big := Filler(owing);
    var filled := Append(owing, big);
    FillerIsGranted(owing);
    UsedAppend(d.allocations, debt);
    UsedAppend(owing.allocations, big);
    AppendDistinct(d.allocations, debt);
    AppendDistinct(owing.allocations, big);
    DropFrees(filled.allocations, debt);
  }

  lemma DebtIsUnsafe(d: Device, debt: Allocation)
    requires Sound([d]) && Granted(d, debt) && debt.vram < 0.0 && debt.vram < d.total - d.reserve
    ensures !Safe(Append(d, debt))
  {
    hide Sound, Append, WithinCapacity, Filler, Granted, DropId;
    DebtOverbooks(d, debt);
    var owing := Append(d, debt);
    var filled := Append(owing, Filler(owing));
    var ops := [Grant(Filler(owing)), Change(Drop(debt.id))];
    var end := filled.(allocations := DropId(filled.allocations, debt.id));
    assert ops[1..] == [Change(Drop(debt.id))] && ops[1..][1..] == [];
    assert Reaches(filled, ops[1..], end);
    assert Reaches(owing, ops, end);
  }

  /**
   A granted request leaves its device within capacity under every continuation
   exactly when it is not negative, or no less than what a device whose reserve
   exceeds its memory is short of.
   */
  lemma SafeIff(d: Device, a: Allocation)
    requires Sound([d]) && Granted(d, a)
    ensures Safe(Append(d, a)) <==> a.vram >= 0.0 || a.vram >= d.total - d.reserve
  {
    hide Sound, Granted, Append, WithinCapacity, Sunk;
    var t := Append(d, a);
    if a.vram >= 0.0 {
      GrantKeepsSound(d, a);
      forall ops, end | Reaches(t, ops, end) ensures WithinCapacity(end) {
        SoundIsSafe(t, ops, end);
      }
    } else if a.vram >= d.total - d.reserve {
      SmallDebtSinks(d, a);
      forall ops, end | Reaches(t, ops, end) ensures WithinCapacity(end) {
        SunkIsSafe(t, a.id, a.vram, ops, end);
      }
    } else {
      DebtIsUnsafe(d, a);
    }
  }

  /** Where the reserve fits in the memory, that is: exactly when it is not negative. */
  lemma SafeIffNonNegative(d: Device, a: Allocation)
    requires Sound([d]) && Granted(d, a) && d.total >= d.reserve
    ensures Safe(Append(d, a)) <==> a.vram >= 0.0
  {
    SafeIff(d, a);
  }
}

/** Devices, allocations and the least-recently-used eviction order. */
module GpuMemory {
  import opened Rounding

  datatype Status = Reserved | Resident | Released | Evicted

  datatype Allocation = Allocation(id: string, modelId: string, gpuId: string, vram: real, status: Status, lastUsed: real)

  /** Allocations in the order they were made. */
  datatype Device = Device(gpuId: string, total: real, reserve: real, allocations: seq<Allocation>)

  predicate Counts(a: Allocation) {
    a.status == Reserved || a.status == Resident
  }

  function Used(allocs: seq<Allocation>): real {
    if allocs == [] then 0.0
    else (if Counts(allocs[0]) then allocs[0].vram else 0.0) + Used(allocs[1..])
  }

  function Available(d: Device): real {
    Max(0.0, d.total - d.reserve - Used(d.allocations))
  }

  ghost predicate DistinctIds(allocs: seq<Allocation>) {
    forall i, j | 0 <= i < j < |allocs| :: allocs[i].id != allocs[j].id
  }

  // ---------- filters ----------

  function Residents(allocs: seq<Allocation>): (r: seq<Allocation>)
    ensures forall a :: a in r <==> a in allocs && a.status == Resident
    ensures |r| <= |allocs|
  {
    if allocs == [] then []
    else
      assert allocs == [allocs[0]] + allocs[1..];
      var rest := Residents(allocs[1..]);
      if allocs[0].status == Resident then [allocs[0]] + rest else rest
  }

  function NonResidents(allocs: seq<Allocation>): (r: seq<Allocation>)
    ensures forall a :: a in r <==> a in allocs && a.status != Resident
  {
    if allocs == [] then []
    else
      assert allocs == [allocs[0]] + allocs[1..];
      var rest := NonResidents(allocs[1..]);
      if allocs[0].status != Resident then [allocs[0]] + rest else rest
  }

  /** `allocations.pop(id, None)` */
  function DropId(allocs: seq<Allocation>, id: string): (r: seq<Allocation>)
    ensures forall a :: a in r <==> a in allocs && a.id != id
    ensures |r| <= |allocs|
  {
    if allocs == [] then []
    else
      assert allocs == [allocs[0]] + allocs[1..];
      var rest := DropId(allocs[1..], id);
      if allocs[0].id != id then [allocs[0]] + rest else rest
  }

  function DropIds(allocs: seq<Allocation>, victims: seq<Allocation>): seq<Allocation> {
    if victims == [] then allocs else DropId(DropIds(allocs, victims[..|victims| - 1]), victims[|victims| - 1].id)
  }

  lemma {:induction false} DropKeepsDistinct(allocs: seq<Allocation>, id: string)
    requires DistinctIds(allocs)
    ensures DistinctIds(DropId(allocs, id))
  {
    if allocs != [] {
      DropKeepsDistinct(allocs[1..], id);
      var rest := DropId(allocs[1..], id);
      forall j | 0 <= j < |rest| ensures rest[j].id != allocs[0].id {
        assert rest[j] in allocs[1..];
      }
    }
  }

  lemma {:induction false} DropAbsent(allocs: seq<Allocation>, id: string)
    requires forall a | a in allocs :: a.id != id
    ensures DropId(allocs, id) == allocs
  {
    if allocs != [] {
      DropAbsent(allocs[1..], id);
    }
  }

  /** Removing one counted allocation frees exactly its memory. */
  lemma {:induction false} DropFrees(allocs: seq<Allocation>, a: Allocation)
    requires DistinctIds(allocs) && a in allocs && Counts(a)
    ensures Used(DropId(allocs, a.id)) == Used(allocs) - a.vram
  {
    if allocs[0] == a {
      forall b | b in allocs[1..] ensures b.id != a.id {
        var j :| 0 <= j < |allocs| - 1 && allocs[1..][j] == b;
        assert allocs[j + 1] == b;
      }
      DropAbsent(allocs[1..], a.id);
    } else {
      var j :| 0 <= j < |allocs| && allocs[j] == a;
      assert allocs[1..][j - 1] == a;
      DropFrees(allocs[1..], a);
    }
  }

  lemma {:induction false} UsedAppend(allocs: seq<Allocation>, a: Allocation)
    ensures Used(allocs + [a]) == Used(allocs) + if Counts(a) then a.vram else 0.0
  {
    if allocs != [] {
      assert (allocs + [a])[1..] == allocs[1..] + [a];
      UsedAppend(allocs[1..], a);
    } else {
      assert [a][1..] == [];
    }
  }

  lemma {:induction false} UsedSplits(allocs: seq<Allocation>)
    ensures Used(allocs) == Used(Residents(allocs)) + Used(NonResidents(allocs))
  {
    if allocs != [] {
      UsedSplits(allocs[1..]);
    }
  }

  lemma {:induction false} UsedNonNegative(allocs: seq<Allocation>)
    requires forall a | a in allocs :: a.vram >= 0.0
    ensures Used(allocs) >= 0.0
  {
    if allocs != [] {
      UsedNonNegative(allocs[1..]);
    }
  }

  // ---------- least recently used first ----------

  function InsertLru(a: Allocation, s: seq<Allocation>): seq<Allocation> {
    if s == [] || a.lastUsed <= s[0].lastUsed then [a] + s else [s[0]] + InsertLru(a, s[1..])
  }

  /** `sorted(resident, key=last_used_at)`, stable. */
  function SortLru(s: seq<Allocation>): (r: seq<Allocation>)
    ensures |r| == |s|
    ensures forall a :: a in r <==> a in s
  {
    if s == [] then []
    else
      assert s == [s[0]] + s[1..];
      InsertLruElements(s[0], SortLru(s[1..]));
      InsertLru(s[0], SortLru(s[1..]))
  }

  lemma {:induction false} InsertLruElements(a: Allocation, s: seq<Allocation>)
    ensures |InsertLru(a, s)| == |s| + 1
    ensures forall b :: b in InsertLru(a, s) <==> b == a || b in s
  {
    if s != [] && s[0].lastUsed < a.lastUsed {
      InsertLruElements(a, s[1..]);
      assert s == [s[0]] + s[1..];
    }
  }

  ghost predicate LruAscending(s: seq<Allocation>) {
    forall i, j | 0 <= i < j < |s| :: s[i].lastUsed <= s[j].lastUsed
  }

  lemma {:induction false} InsertLruSorted(a: Allocation, s: seq<Allocation>)
    requires LruAscending(s)
    ensures LruAscending(InsertLru(a, s))
  {
    if s != [] && s[0].lastUsed < a.lastUsed {
      InsertLruSorted(a, s[1..]);
      InsertLruElements(a, s[1..]);
      var t := InsertLru(a, s[1..]);
      forall j | 0 <= j < |t| ensures s[0].lastUsed <= t[j].lastUsed {
        assert t[j] == a || t[j] in s[1..];
      }
    }
  }

  lemma {:induction false} SortLruSorted(s: seq<Allocation>)
    ensures LruAscending(SortLru(s))
  {
    if s != [] {
      SortLruSorted(s[1..]);
      InsertLruSorted(s[0], SortLru(s[1..]));
    }
  }

  /** Taking the first victim away leaves the rest of the order as it was. */
  lemma {:induction false} SortLruTail(s: seq<Allocation>)
    requires DistinctIds(s) && s != []
    ensures SortLru(DropId(s, SortLru(s)[0].id)) == SortLru(s)[1..]
  {
    var sorted := SortLru(s[1..]);
    if sorted == [] || s[0].lastUsed <= sorted[0].lastUsed {
      forall b | b in s[1..] ensures b.id != s[0].id {
        var j :| 0 <= j < |s| - 1 && s[1..][j] == b;
        assert s[j + 1] == b;
      }
      DropAbsent(s[1..], s[0].id);
    } else {
      var v := sorted[0];
      assert v in s[1..];
      assert v.id != s[0].id by {
        var j :| 0 <= j < |s| - 1 && s[1..][j] == v;
        assert s[j + 1] == v;
      }
      SortLruTail(s[1..]);
      assert SortLru(s) == [v] + InsertLru(s[0], sorted[1..]);
      var dropped := DropId(s, v.id);
      assert dropped == [s[0]] + DropId(s[1..], v.id);
      assert dropped[1..] == DropId(s[1..], v.id);
    }
  }

  lemma {:induction false} DropCommutesResidents(allocs: seq<Allocation>, id: string)
    ensures Residents(DropId(allocs, id)) == DropId(Residents(allocs), id)
  {
    if allocs != [] {
      DropCommutesResidents(allocs[1..], id);
    }
  }

  lemma {:induction false} DropResidentOnly(allocs: seq<Allocation>, id: string)
    requires forall a | a in allocs && a.id == id :: a.status == Resident
    ensures NonResidents(DropId(allocs, id)) == NonResidents(allocs)
  {
    if allocs != [] {
      assert allocs[0] in allocs && forall a | a in allocs[1..] :: a in allocs;
      DropResidentOnly(allocs[1..], id);
    }
  }

  lemma {:induction false} ResidentsDistinct(allocs: seq<Allocation>)
    requires DistinctIds(allocs)
    ensures DistinctIds(Residents(allocs))
  {
    if allocs != [] {
      ResidentsDistinct(allocs[1..]);
      var rest := Residents(allocs[1..]);
      forall j | 0 <= j < |rest| ensures rest[j].id != allocs[0].id {
        assert rest[j] in allocs[1..];
      }
    }
  }
}

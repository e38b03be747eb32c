/**
 The live render pipeline: a background thread renders groups of cues while TTS
 marks cues ready and the user pauses, resumes or cancels.  Each method below is
 one atomic step of some thread; any order of calls is an interleaving, so what
 `Valid` says holds in every reachable state.
 */
module LiveRender {
  import opened Rounding
  import KeySort
  import Timeline

  type Cue = Timeline.Cue

  const CUE_LOCKED := "Cue-Locked Audio Master Sync"

  datatype PipelineState = Idle | Running | Paused | Cancelled | Done

  /** Manifest entry of a rendered group. */
  datatype Group = Group(file: string, cueIds: seq<int>, audioSeconds: seq<real>, timingMode: string)

  /** Where the render thread stands. */
  datatype Pc = NotStarted | AtHead | AtPause | AtPauseCancel | Scanning(g: nat) | Rendering(g: nat) | AtExit | Finished

  datatype RenderOutcome = Rendered(file: string) | RenderFailed

  function Min(a: int, b: int): int { if a <= b then a else b }

  function GroupCount(n: nat, size: nat): nat
    requires size > 0
  {
    (n + size - 1) / size
  }

  /** Cues `g * size` up to `(g + 1) * size`, cut at the end of the list. */
  function GroupCues(cues: seq<Cue>, size: nat, g: nat): seq<Cue>
    requires size > 0 && g < GroupCount(|cues|, size)
  {
    GroupBounds(|cues|, size, g);
    cues[g * size..Min((g + 1) * size, |cues|)]
  }

  lemma GroupBounds(n: nat, size: nat, g: nat)
    requires size > 0 && g < GroupCount(n, size)
    ensures g * size < n && g * size <= (g + 1) * size
  {
    var total := GroupCount(n, size);
    assert total * size <= n + size - 1;
    assert (g + 1) * size <= total * size by {
      MulMonotone(g + 1, total, size);
    }
    assert (g + 1) * size == g * size + size;
  }

  lemma MulMonotone(a: nat, b: nat, c: nat)
    requires a <= b
    ensures a * c <= b * c
  {
  }

  function IdsOf(cues: seq<Cue>): seq<int> {
    seq(|cues|, i requires 0 <= i < |cues| => cues[i].idx)
  }

  function RoundedAudio(cues: seq<Cue>): seq<real> {
    seq(|cues|, i requires 0 <= i < |cues| => Round6(cues[i].audioSeconds))
  }

  /** The manifest entry a successful render of group `g` writes. */
  ghost predicate IsEntryOf(entry: Group, cues: seq<Cue>, size: nat, g: nat)
    requires size > 0 && g < GroupCount(|cues|, size)
  {
    var group := GroupCues(cues, size, g);
    entry.cueIds == IdsOf(group) && entry.audioSeconds == RoundedAudio(group) && entry.timingMode == CUE_LOCKED
  }

  /** `entries` are what successful renders of distinct groups wrote. */
  ghost predicate EntriesOf(entries: seq<(int, Group)>, cues: seq<Cue>, size: nat)
    requires size > 0
  {
    && KeySort.DistinctKeys(entries)
    && forall k | 0 <= k < |entries| :: EntryFor(entries[k], cues, size)
  }

  ghost predicate EntryFor(e: (int, Group), cues: seq<Cue>, size: nat)
    requires size > 0
  {
    0 <= e.0 < GroupCount(|cues|, size) && IsEntryOf(e.1, cues, size, e.0)
  }

  /** All cue ids in the order of the entries. */
  function FlatIds(entries: seq<(int, Group)>): seq<int> {
    if entries == [] then [] else FlatIds(entries[..|entries| - 1]) + entries[|entries| - 1].1.cueIds
  }

  function FlatAudio(entries: seq<(int, Group)>): seq<real> {
    if entries == [] then [] else FlatAudio(entries[..|entries| - 1]) + entries[|entries| - 1].1.audioSeconds
  }

  function Keys(entries: seq<(int, Group)>): set<int> {
    set k | 0 <= k < |entries| :: entries[k].0
  }

  lemma KeysGrow(entries: seq<(int, Group)>, e: (int, Group))
    ensures Keys(entries + [e]) == Keys(entries) + {e.0}
  {
    var all := entries + [e];
    assert all[|entries|] == e;
    assert forall k | 0 <= k < |entries| :: all[k] == entries[k];
  }

  lemma EntriesGrow(entries: seq<(int, Group)>, cues: seq<Cue>, size: nat, e: (int, Group))
    requires size > 0 && EntriesOf(entries, cues, size) && EntryFor(e, cues, size) && e.0 !in Keys(entries)
    ensures EntriesOf(entries + [e], cues, size)
    ensures Keys(entries + [e]) == Keys(entries) + {e.0}
  {
    KeysGrow(entries, e);
    assert forall k | 0 <= k < |entries| :: entries[k].0 in Keys(entries);
  }

  lemma NoCues()
    ensures IdsOf([]) == [] && RoundedAudio([]) == []
  {
  }

  lemma {:induction false} SortedEntriesCover(sorted: seq<(int, Group)>, cues: seq<Cue>, size: nat, k: nat)
    requires size > 0 && k <= |sorted| && k <= GroupCount(|cues|, size)
    requires forall i | 0 <= i < k :: sorted[i].0 == i && EntryFor(sorted[i], cues, size)
    ensures var front := cues[..Min(k * size, |cues|)];
      FlatIds(sorted[..k]) == IdsOf(front) && FlatAudio(sorted[..k]) == RoundedAudio(front)
  {
    hide Round6, GroupCount, IdsOf, RoundedAudio;
    if k == 0 {
      NoCues();
    } else {
      SortedEntriesCover(sorted, cues, size, k - 1);
      assert sorted[..k][..k - 1] == sorted[..k - 1];
      GroupBounds(|cues|, size, k - 1);
      var lo, hi := (k - 1) * size, Min(k * size, |cues|);
      assert Min((k - 1) * size, |cues|) == lo;
      assert EntryFor(sorted[k - 1], cues, size);
      CuesConcat(cues, lo, hi);
    }
  }

  lemma CuesConcat(cues: seq<Cue>, lo: nat, hi: nat)
    requires lo <= hi <= |cues|
    ensures IdsOf(cues[..hi]) == IdsOf(cues[..lo]) + IdsOf(cues[lo..hi])
    ensures RoundedAudio(cues[..hi]) == RoundedAudio(cues[..lo]) + RoundedAudio(cues[lo..hi])
  {
    hide Round6;
    assert cues[..hi] == cues[..lo] + cues[lo..hi];
  }

  lemma GroupsReachEnd(n: nat, size: nat)
    requires size > 0
    ensures Min(GroupCount(n, size) * size, n) == n
  {
  }

  /** Sorted by group number, the entries keep their groups, and all numbers differ. */
  lemma SortedEntries(entries: seq<(int, Group)>, cues: seq<Cue>, size: nat)
    requires size > 0 && EntriesOf(entries, cues, size)
    ensures var sorted := KeySort.Sort(entries);
      && KeySort.Ascending(sorted) && KeySort.DistinctKeys(sorted)
      && forall i | 0 <= i < |sorted| :: EntryFor(sorted[i], cues, size)
  {
    hide EntryFor, KeySort.Sort;
    var sorted := KeySort.Sort(entries);
    KeySort.SortIsSorted(entries);
    KeySort.SameMultisetDistinct(entries, sorted);
    forall i | 0 <= i < |sorted| ensures EntryFor(sorted[i], cues, size) {
      assert sorted[i] in multiset(entries);
      var k :| 0 <= k < |entries| && entries[k] == sorted[i];
    }
  }

  lemma EntriesNumbered(sorted: seq<(int, Group)>, cues: seq<Cue>, size: nat)
    requires size > 0 && KeySort.Ascending(sorted) && KeySort.DistinctKeys(sorted) && |sorted| >= GroupCount(|cues|, size)
    requires forall i | 0 <= i < |sorted| :: EntryFor(sorted[i], cues, size)
    ensures |sorted| == GroupCount(|cues|, size) && forall i | 0 <= i < |sorted| :: sorted[i].0 == i
  {
    hide IsEntryOf, GroupCount, KeySort.Ascending, KeySort.DistinctKeys;
    forall i | 0 <= i < |sorted| ensures sorted[i].0 == i {
      forall j | 0 <= j < |sorted| ensures 0 <= sorted[j].0 < 0 + |sorted| {
        assert EntryFor(sorted[j], cues, size);
      }
      KeySort.KeysAreRange(sorted, 0, i);
    }
    if |sorted| > 0 {
      assert EntryFor(sorted[|sorted| - 1], cues, size);
    }
  }

  /**
   As many entries as there are groups cover every cue exactly once: sorted by
   group number, in whatever order they were written, they give the cue list.
   */
  lemma EntriesCoverCues(entries: seq<(int, Group)>, cues: seq<Cue>, size: nat)
    requires size > 0 && EntriesOf(entries, cues, size) && |entries| >= GroupCount(|cues|, size)
    ensures |entries| == GroupCount(|cues|, size)
    ensures FlatIds(KeySort.Sort(entries)) == IdsOf(cues)
    ensures FlatAudio(KeySort.Sort(entries)) == RoundedAudio(cues)
    ensures forall i | 0 <= i < |entries| :: KeySort.Sort(entries)[i].0 == i
    ensures forall i | 0 <= i < |entries| :: EntryFor(KeySort.Sort(entries)[i], cues, size)
  {
    hide EntriesOf, EntryFor, GroupCount, IdsOf, RoundedAudio, FlatIds, FlatAudio, KeySort.Sort, KeySort.Ascending, KeySort.DistinctKeys;
    var sorted := KeySort.Sort(entries);
    SortedEntries(entries, cues, size);
    EntriesNumbered(sorted, cues, size);
    SortedEntriesCover(sorted, cues, size, |sorted|);
    GroupsReachEnd(|cues|, size);
    assert sorted[..|sorted|] == sorted && cues[..|cues|] == cues;
  }

  class LivePipeline {
    const cues: seq<Cue>
    const groupSize: nat
    var totalGroups: nat
    var ready: set<int>
    var cleanedCues: nat
    var ttsDone: bool
    var pauseFlag: bool
    var cancelFlag: bool
    var pipelineState: PipelineState
    var currentGroup: nat
    var rendered: set<int>
    var manifest: seq<(int, Group)>   // entries in the order they were written
    var saved: seq<(int, Group)>      // the manifest file
    var completedGroups: nat
    var pc: Pc

    ghost predicate Valid()
      reads this
    {
      && groupSize > 0
      && (pc != NotStarted ==> totalGroups == GroupCount(|cues|, groupSize) && saved == manifest)
      && (pc == NotStarted ==> manifest == [])
      && EntriesOf(manifest, cues, groupSize)
      && (forall k | 0 <= k < |manifest| :: GroupReady(manifest[k].0))
      && rendered == Keys(manifest) && completedGroups == |rendered| == |manifest|
      && cleanedCues == |ready|
      && (pc.Scanning? ==> pc.g <= totalGroups)
      && (pc.Rendering? ==> pc.g < totalGroups && pc.g !in rendered && GroupReady(pc.g))
      && (pipelineState == Done ==> pc == Finished && ttsDone && |rendered| >= totalGroups)
    }

    predicate GroupReady(g: int)
      requires groupSize > 0
      reads this
    {
      0 <= g < GroupCount(|cues|, groupSize) ==> forall c | c in GroupCues(cues, groupSize, g) :: c.idx in ready
    }

    lemma AllOfGroupReady(g: nat)
      requires groupSize > 0 && g < GroupCount(|cues|, groupSize) && GroupReady(g)
      ensures forall i: nat | i < |cues| && g * groupSize <= i < (g + 1) * groupSize :: cues[i].idx in ready
    {
      GroupBounds(|cues|, groupSize, g);
      var group := GroupCues(cues, groupSize, g);
      forall i: nat | i < |cues| && g * groupSize <= i < (g + 1) * groupSize ensures cues[i].idx in ready {
        assert group[i - g * groupSize] == cues[i];
        assert cues[i] in group;
      }
    }

    constructor (cues: seq<Cue>, groupSize: nat)
      requires groupSize > 0
      ensures Valid() && this.cues == cues && this.groupSize == groupSize
      ensures ready == {} && manifest == [] && !ttsDone && !pauseFlag && !cancelFlag
      ensures pipelineState == Idle && pc == NotStarted
    {
      this.cues, this.groupSize := cues, groupSize;
      totalGroups, ready, cleanedCues, ttsDone, pauseFlag, cancelFlag := 0, {}, 0, false, false, false;
      pipelineState, currentGroup, rendered, manifest := Idle, 0, {}, [];
      completedGroups, pc := 0, NotStarted;
    }

    // ---------- called by the TTS loop and the user ----------

    method Pause()
      requires Valid()
      modifies `pauseFlag, `pipelineState
      ensures Valid() && pauseFlag && pipelineState == Paused
    {
      pauseFlag := true;
      pipelineState := Paused;
    }

    method Resume()
      requires Valid()
      modifies `pauseFlag, `pipelineState
      ensures Valid() && !pauseFlag
      ensures pipelineState == if old(pipelineState) == Paused then Running else old(pipelineState)
    {
      pauseFlag := false;
      if pipelineState == Paused {
        pipelineState := Running;
      }
    }

    method Cancel()
      requires Valid()
      modifies `cancelFlag, `pipelineState
      ensures Valid() && cancelFlag && pipelineState == Cancelled
    {
      cancelFlag := true;
      pipelineState := Cancelled;
    }

    method MarkCueReady(idx: int)
      requires Valid()
      modifies `ready, `cleanedCues
      ensures Valid() && ready == old(ready) + {idx}
    {
      ready := ready + {idx};
      cleanedCues := |ready|;
    }

    method MarkTtsDone()
      requires Valid()
      modifies `ttsDone
      ensures Valid() && ttsDone
    {
      ttsDone := true;
    }

    /** Forget any earlier manifest and launch the render thread. */
    method Start()
      requires Valid() && pc == NotStarted
      modifies `totalGroups, `pipelineState, `saved, `pc
      ensures Valid() && pc == AtHead && pipelineState == Running && saved == []
      ensures totalGroups == GroupCount(|cues|, groupSize)
    {
      totalGroups := (|cues| + groupSize - 1) / groupSize;
      pipelineState := Running;
      saved := [];
      pc := AtHead;
    }

    // ---------- the render thread, one step at a time ----------

    /** `while not self._cancel.is_set()`, and the two reads of the pause loop. */
    method HeadStep()
      requires Valid() && (pc == AtHead || pc == AtPause || pc == AtPauseCancel)
      modifies `pc
      ensures Valid()
      ensures pc == match old(pc)
        case AtHead => if cancelFlag then Finished else AtPause
        case AtPause => if pauseFlag then AtPauseCancel else Scanning(0)
        case _ => if cancelFlag then Finished else AtPause
    {
      match pc {
        case AtHead => pc := if cancelFlag then Finished else AtPause;
        case AtPause => pc := if pauseFlag then AtPauseCancel else Scanning(0);
        case AtPauseCancel => pc := if cancelFlag then Finished else AtPause;
      }
    }

    /** Look at group `g`: a group rendered before is skipped, one whose cues are not all ready waits. */
    method ScanStep()
      requires Valid() && pc.Scanning?
      modifies `pc, `currentGroup
      ensures Valid()
      ensures var g := old(pc).g;
        if g == totalGroups then pc == AtExit
        else if g in rendered || !GroupReady(g) then pc == Scanning(g + 1)
        else pc == Rendering(g) && currentGroup == g + 1
    {
      var g := pc.g;
      if g == totalGroups {
        pc := AtExit;
      } else if g in rendered {
        pc := Scanning(g + 1);
      } else if GroupReady(g) {
        currentGroup := g + 1;
        pc := Rendering(g);
      } else {
        pc := Scanning(g + 1);
      }
    }

    /** A failed render is logged and left for the next scan; a successful one is recorded for good. */
    method RenderStep(outcome: RenderOutcome)
      requires Valid() && pc.Rendering?
      modifies `pc, `manifest, `saved, `rendered, `completedGroups
      ensures Valid() && pc == Scanning(old(pc).g + 1)
      ensures outcome == RenderFailed ==> manifest == old(manifest) && rendered == old(rendered)
      ensures outcome.Rendered? ==>
        var g := old(pc).g;
        && g !in old(rendered) && rendered == old(rendered) + {g}
        && GroupReady(g)
        && (forall i: nat | i < |cues| && g * groupSize <= i < (g + 1) * groupSize :: cues[i].idx in ready)
        && manifest == old(manifest) + [(g as int, Group(outcome.file, IdsOf(GroupCues(cues, groupSize, g)),
                                                  RoundedAudio(GroupCues(cues, groupSize, g)), CUE_LOCKED))]
    {
      hide EntriesOf, Keys, IdsOf, RoundedAudio, GroupCues, GroupCount;
      var g := pc.g;
      match outcome {
        case Rendered(file) =>
          var group := GroupCues(cues, groupSize, g);
          AllOfGroupReady(g);
          var entry := Group(file, IdsOf(group), RoundedAudio(group), CUE_LOCKED);
          EntriesGrow(manifest, cues, groupSize, (g, entry));
          manifest := manifest + [(g, entry)];
          saved := manifest;
          rendered := rendered + {g};
          completedGroups := |rendered|;
        case RenderFailed =>
      }
      pc := Scanning(g + 1);
    }

    /** Done only when TTS has finished and every group is rendered. */
    method ExitStep()
      requires Valid() && pc == AtExit
      modifies `pc, `pipelineState
      ensures Valid()
      ensures if ttsDone && |rendered| >= totalGroups then pc == Finished && pipelineState == Done
              else pc == AtHead && pipelineState == old(pipelineState)
    {
      if ttsDone && |rendered| >= totalGroups {
        pipelineState := Done;
        pc := Finished;
      } else {
        pc := AtHead;
      }
    }

    /** In state "done" the manifest file, in numeric key order, is the whole cue list. */
    lemma DoneCoversCues()
      requires Valid() && pipelineState == Done
      ensures FlatIds(KeySort.Sort(saved)) == IdsOf(cues)
      ensures FlatAudio(KeySort.Sort(saved)) == RoundedAudio(cues)
      ensures |saved| == GroupCount(|cues|, groupSize)
    {
      EntriesCoverCues(manifest, cues, groupSize);
    }
  }
}

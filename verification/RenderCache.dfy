/** When cached live-render groups may be reused for an export. */
module RenderCache {
  import opened Options
  import opened Rounding
  import KeySort
  import opened T = Timeline
  import L = LiveRender

  /** A manifest entry as read back: any field may be missing, the key may not be a number. */
  datatype CachedGroup = CachedGroup(
    key: Option<int>, cueIds: Option<seq<int>>, audioSeconds: Option<seq<real>>, timingMode: string)

  predicate WellFormed(g: CachedGroup) {
    && g.timingMode == L.CUE_LOCKED
    && g.cueIds.Some? && g.audioSeconds.Some?
    && |g.cueIds.value| == |g.audioSeconds.value|
  }

  function Keyed(groups: seq<CachedGroup>): (keyed: seq<(int, CachedGroup)>)
    requires forall i | 0 <= i < |groups| :: groups[i].key.Some?
  {
    seq(|groups|, i requires 0 <= i < |groups| => (groups[i].key.value, groups[i]))
  }

  predicate AllWellFormed(sorted: seq<(int, CachedGroup)>) {
    forall i | 0 <= i < |sorted| :: WellFormed(sorted[i].1)
  }

  function CachedIds(sorted: seq<(int, CachedGroup)>): seq<int>
    requires AllWellFormed(sorted)
  {
    if sorted == [] then []
    else
      var last := |sorted| - 1;
      assert WellFormed(sorted[last].1);
      CachedIds(sorted[..last]) + sorted[last].1.cueIds.value
  }

  function CachedSeconds(sorted: seq<(int, CachedGroup)>): (seconds: seq<real>)
    requires AllWellFormed(sorted)
    ensures |seconds| == |CachedIds(sorted)|
  {
    if sorted == [] then []
    else
      var last := |sorted| - 1;
      assert WellFormed(sorted[last].1);
      CachedSeconds(sorted[..last]) + sorted[last].1.audioSeconds.value
  }

  function SegmentIds(segments: seq<Segment>): seq<int> {
    seq(|segments|, i requires 0 <= i < |segments| => segments[i].cueIdx)
  }

  /** The lengths that video and audio were cut to agree cue by cue. */
  ghost predicate WithinTolerance(seconds: seq<real>, segments: seq<Segment>, tolerance: real) {
    |seconds| == |segments| && forall k | 0 <= k < |segments| :: Abs(seconds[k] - segments[k].outDuration) <= tolerance
  }

  /** Same cues in the same order, in cue-locked groups, every length within the tolerance. */
  ghost predicate Matches(groups: seq<CachedGroup>, timeline: Timeline, timingMode: string, tolerance: real) {
    && timingMode == L.CUE_LOCKED
    && groups != []
    && (forall i | 0 <= i < |groups| :: groups[i].key.Some?)
    && var sorted := KeySort.Sort(Keyed(groups));
       && AllWellFormed(sorted)
       && CachedIds(sorted) == SegmentIds(CueSegments(timeline.segments))
       && WithinTolerance(CachedSeconds(sorted), CueSegments(timeline.segments), tolerance)
  }

  method CacheMatchesTimeline(groups: seq<CachedGroup>, timeline: Timeline, timingMode: string, tolerance: real)
    returns (ok: bool)
    ensures ok <==> Matches(groups, timeline, timingMode, tolerance)
  {
    hide KeySort.Sort;
    if timingMode != L.CUE_LOCKED || groups == [] {
      return false;
    }
    if exists i :: 0 <= i < |groups| && groups[i].key.None? {
      return false;
    }
    var sorted := KeySort.Sort(Keyed(groups));
    var cachedIds: seq<int> := [];
    var cachedSeconds: seq<real> := [];
    for k := 0 to |sorted|
      invariant AllWellFormed(sorted[..k])
      invariant cachedIds == CachedIds(sorted[..k]) && cachedSeconds == CachedSeconds(sorted[..k])
    {
      var g := sorted[k].1;
      if g.timingMode != L.CUE_LOCKED {
        return false;
      }
      if g.cueIds.None? || g.audioSeconds.None? || |g.cueIds.value| != |g.audioSeconds.value| {
        return false;
      }
      assert sorted[..k + 1][..k] == sorted[..k];
      cachedIds := cachedIds + g.cueIds.value;
      cachedSeconds := cachedSeconds + g.audioSeconds.value;
    }
    assert sorted[..|sorted|] == sorted;
    var cueSegments := CueSegments(timeline.segments);
    if cachedIds != SegmentIds(cueSegments) || |cachedSeconds| != |cueSegments| {
      return false;
    }
    ok := forall k | 0 <= k < |cueSegments| :: Abs(cachedSeconds[k] - cueSegments[k].outDuration) <= tolerance;
  }

  // ---------- no drift ----------

  /** Where clip `k` starts when the cached clips are played back to back. */
  function CachedStart(seconds: seq<real>, k: nat): real
    requires k <= |seconds|
  {
    if k == 0 then 0.0 else CachedStart(seconds, k - 1) + seconds[k - 1]
  }

  /** `k` tolerances. */
  function Allowance(tolerance: real, k: nat): real {
    if k == 0 then 0.0 else Allowance(tolerance, k - 1) + tolerance
  }

  lemma {:induction false} AllowanceIsProduct(tolerance: real, k: nat)
    ensures Allowance(tolerance, k) == k as real * tolerance
  {
    if k > 0 {
      AllowanceIsProduct(tolerance, k - 1);
      Distribute((k - 1) as real, tolerance);
    }
  }

  lemma Distribute(a: real, b: real)
    ensures a * b + b == (a + 1.0) * b
  {
  }

  /** Where the audio of segment `k` starts; the end of the timeline after the last. */
  function AudioStart(timeline: Timeline, k: nat): real
    requires k <= |timeline.segments|
  {
    if k < |timeline.segments| then timeline.segments[k].outStart else timeline.totalSeconds
  }

  lemma TilesAdvance(timeline: Timeline, k: nat)
    requires Tiles(timeline) && k < |timeline.segments|
    ensures AudioStart(timeline, 0) == 0.0
    ensures AudioStart(timeline, k + 1) == AudioStart(timeline, k) + timeline.segments[k].outDuration
  {
    assert k + 1 < |timeline.segments| ==> timeline.segments[k + 1].outStart == End(timeline.segments[k]);
  }

  lemma {:induction false} DriftGrowsLinearly(seconds: seq<real>, timeline: Timeline, tolerance: real, k: nat)
    requires Tiles(timeline) && WithinTolerance(seconds, timeline.segments, tolerance) && k <= |seconds|
    ensures Abs(CachedStart(seconds, k) - AudioStart(timeline, k)) <= Allowance(tolerance, k)
  {
    if k > 0 {
      DriftGrowsLinearly(seconds, timeline, tolerance, k - 1);
      TilesAdvance(timeline, k - 1);
      assert Abs(seconds[k - 1] - timeline.segments[k - 1].outDuration) <= tolerance;
    }
  }

  /**
   An accepted cache cannot drift: against a cue-locked timeline, the k-th cue of
   the concatenated cached video starts within k tolerances of its audio.
   */
  lemma AcceptedCacheDoesNotDrift(groups: seq<CachedGroup>, cues: seq<Cue>, timeline: Timeline, timingMode: string,
                                  tolerance: real, k: nat)
    requires Matches(groups, timeline, timingMode, tolerance) && IsBackToBack(timeline, cues, CueLocked) && k <= |cues|
    ensures var seconds := CachedSeconds(KeySort.Sort(Keyed(groups)));
      && |seconds| == |cues|
      && Abs(CachedStart(seconds, k) - SumTo(CueLocked, cues, k)) <= k as real * tolerance
  {
    hide Seconds, Tiles, CachedSeconds, CachedIds, AllWellFormed, CachedStart, Allowance, Abs, SumTo, KeySort.Sort;
    AllowanceIsProduct(tolerance, k);
    BackToBackTiles(timeline, cues, CueLocked);
    AllCueSegments(timeline.segments);
    DriftGrowsLinearly(CachedSeconds(KeySort.Sort(Keyed(groups))), timeline, tolerance, k);
  }

  // ---------- the pipeline's own manifest ----------

  function AsCached(e: (int, L.Group)): CachedGroup {
    CachedGroup(Some(e.0), Some(e.1.cueIds), Some(e.1.audioSeconds), e.1.timingMode)
  }

  function ReadBack(entries: seq<(int, L.Group)>): seq<CachedGroup> {
    seq(|entries|, i requires 0 <= i < |entries| => AsCached(entries[i]))
  }

  function KeyedBack(entries: seq<(int, L.Group)>): seq<(int, CachedGroup)> {
    seq(|entries|, i requires 0 <= i < |entries| => (entries[i].0, AsCached(entries[i])))
  }

  lemma {:induction false} InsertCommutes(e: (int, L.Group), entries: seq<(int, L.Group)>)
    ensures KeySort.Insert((e.0, AsCached(e)), KeyedBack(entries)) == KeyedBack(KeySort.Insert(e, entries))
  {
    if entries != [] {
      assert KeyedBack(entries)[1..] == KeyedBack(entries[1..]);
      if entries[0].0 < e.0 {
        InsertCommutes(e, entries[1..]);
        assert KeySort.Insert(e, entries) == [entries[0]] + KeySort.Insert(e, entries[1..]);
      }
    }
  }

  /** Reading the manifest back commutes with sorting it. */
  lemma {:induction false} SortCommutes(entries: seq<(int, L.Group)>)
    ensures KeySort.Sort(KeyedBack(entries)) == KeyedBack(KeySort.Sort(entries))
  {
    if entries != [] {
      SortCommutes(entries[1..]);
      assert KeyedBack(entries)[1..] == KeyedBack(entries[1..]);
      InsertCommutes(entries[0], KeySort.Sort(entries[1..]));
    }
  }

  lemma {:induction false} FlatCommutes(entries: seq<(int, L.Group)>, cues: seq<Cue>, size: nat)
    requires size > 0 && forall i | 0 <= i < |entries| :: L.EntryFor(entries[i], cues, size)
    ensures AllWellFormed(KeyedBack(entries))
    ensures CachedIds(KeyedBack(entries)) == L.FlatIds(entries)
    ensures CachedSeconds(KeyedBack(entries)) == L.FlatAudio(entries)
  {
    if entries != [] {
      var front := entries[..|entries| - 1];
      FlatCommutes(front, cues, size);
      assert KeyedBack(entries)[..|entries| - 1] == KeyedBack(front);
      assert L.EntryFor(entries[|entries| - 1], cues, size);
    }
  }

  /**
   Rounded to six decimals, the length of a cue with audio is within any
   tolerance the rounding fits in; without audio it is off by 50 ms or more.
   */
  lemma RoundedLengthFits(c: Cue, tolerance: real)
    requires tolerance >= 0.0000005
    ensures c.audioSeconds > 0.0 ==> Abs(Round6(c.audioSeconds) - LockedSeconds(c)) <= tolerance
    ensures c.audioSeconds <= 0.0 ==> Abs(Round6(c.audioSeconds) - LockedSeconds(c)) >= 0.05
  {
    if c.audioSeconds > 0.0 {
      Round6IsNear(c.audioSeconds);
    } else {
      Round6KeepsSign(c.audioSeconds);
    }
  }

  ghost predicate AllHaveAudio(cues: seq<Cue>) {
    forall k | 0 <= k < |cues| :: cues[k].audioSeconds > 0.0
  }

  /**
   The manifest of a finished pipeline is accepted against the cue-locked
   timeline of the same cues when there are cues and all of them have audio, and
   for every tolerance below 50 ms (the default is 2 ms) only then.
   */
  lemma FinishedManifestVerdict(entries: seq<(int, L.Group)>, cues: seq<Cue>, size: nat, timeline: Timeline, tolerance: real)
    requires size > 0 && L.EntriesOf(entries, cues, size) && |entries| >= L.GroupCount(|cues|, size)
    requires IsBackToBack(timeline, cues, CueLocked)
    requires tolerance >= 0.0000005
    ensures AllHaveAudio(cues) && cues != [] ==> Matches(ReadBack(entries), timeline, L.CUE_LOCKED, tolerance)
    ensures tolerance < 0.05 && Matches(ReadBack(entries), timeline, L.CUE_LOCKED, tolerance) ==> AllHaveAudio(cues) && cues != []
  {
    hide L.EntriesOf, L.GroupCount, CachedIds, CachedSeconds, WithinTolerance, L.IdsOf, L.RoundedAudio, SegmentIds;
    ReadBackCovers(entries, cues, size);
    AllCueSegments(timeline.segments);
    BackToBackIds(timeline, cues);
    RoundedWithinTolerance(timeline, cues, tolerance);
    GroupsNonEmpty(|cues|, size);
    L.EntriesCoverCues(entries, cues, size);
  }

  /** Sorted and read back, the manifest lists the cues with their rounded lengths. */
  lemma ReadBackCovers(entries: seq<(int, L.Group)>, cues: seq<Cue>, size: nat)
    requires size > 0 && L.EntriesOf(entries, cues, size) && |entries| >= L.GroupCount(|cues|, size)
    ensures var sorted := KeySort.Sort(Keyed(ReadBack(entries)));
      && AllWellFormed(sorted)
      && CachedIds(sorted) == L.IdsOf(cues)
      && CachedSeconds(sorted) == L.RoundedAudio(cues)
  {
    hide L.EntriesOf, L.GroupCount, L.IdsOf, L.RoundedAudio;
    L.EntriesCoverCues(entries, cues, size);
    assert Keyed(ReadBack(entries)) == KeyedBack(entries);
    SortCommutes(entries);
    FlatCommutes(KeySort.Sort(entries), cues, size);
  }

  lemma BackToBackIds(timeline: Timeline, cues: seq<Cue>)
    requires IsBackToBack(timeline, cues, CueLocked)
    ensures SegmentIds(timeline.segments) == L.IdsOf(cues)
  {
    hide Seconds, SumTo;
  }

  lemma RoundedWithinTolerance(timeline: Timeline, cues: seq<Cue>, tolerance: real)
    requires IsBackToBack(timeline, cues, CueLocked) && tolerance >= 0.0000005
    ensures AllHaveAudio(cues) ==> WithinTolerance(L.RoundedAudio(cues), timeline.segments, tolerance)
    ensures tolerance < 0.05 && WithinTolerance(L.RoundedAudio(cues), timeline.segments, tolerance) ==> AllHaveAudio(cues)
  {
    hide SumTo, Round6, LockedSeconds;
    forall k | 0 <= k < |cues|
      ensures cues[k].audioSeconds > 0.0 ==> Abs(L.RoundedAudio(cues)[k] - timeline.segments[k].outDuration) <= tolerance
      ensures cues[k].audioSeconds <= 0.0 ==> Abs(L.RoundedAudio(cues)[k] - timeline.segments[k].outDuration) >= 0.05
    {
      assert timeline.segments[k].outDuration == LockedSeconds(cues[k]);
      RoundedLengthFits(cues[k], tolerance);
    }
  }

  // ---------- the same cues ----------

  /** A manifest written for `cues` is accepted for a timeline of `other` cues only if they are the same cues. */
  lemma AcceptedSameCues(entries: seq<(int, L.Group)>, cues: seq<Cue>, size: nat, other: seq<Cue>, timeline: Timeline,
                         timingMode: string, tolerance: real)
    requires size > 0 && L.EntriesOf(entries, cues, size) && |entries| >= L.GroupCount(|cues|, size)
    requires IsBackToBack(timeline, other, CueLocked)
    requires Matches(ReadBack(entries), timeline, timingMode, tolerance)
    ensures timingMode == L.CUE_LOCKED
    ensures |cues| == |other| && forall k | 0 <= k < |cues| :: cues[k].idx == other[k].idx
  {
    hide L.EntriesOf, L.GroupCount, CachedIds, CachedSeconds, WithinTolerance, L.RoundedAudio;
    ReadBackCovers(entries, cues, size);
    AllCueSegments(timeline.segments);
    BackToBackIds(timeline, other);
    assert L.IdsOf(cues) == L.IdsOf(other);
    forall k | 0 <= k < |cues| ensures cues[k].idx == other[k].idx {
      assert L.IdsOf(cues)[k] == L.IdsOf(other)[k];
    }
  }

  /** How many cues lie in the first `g` groups. */
  function CuesBefore(groups: seq<CachedGroup>, g: nat): nat
    requires g <= |groups|
  {
    if g == 0 then 0
    else CuesBefore(groups, g - 1) + if groups[g - 1].cueIds.Some? then |groups[g - 1].cueIds.value| else 0
  }

  lemma {:induction false} CachedAt(groups: seq<CachedGroup>, g: nat)
    requires (forall i | 0 <= i < |groups| :: groups[i].key.Some?) && AllWellFormed(Keyed(groups)) && g <= |groups|
    ensures var front := Keyed(groups)[..g];
      && |CachedIds(front)| == CuesBefore(groups, g)
      && CachedIds(front) <= CachedIds(Keyed(groups)) && CachedSeconds(front) <= CachedSeconds(Keyed(groups))
    decreases |groups| - g
  {
    var keyed := Keyed(groups);
    CachedCount(groups, g);
    if g == |groups| {
      assert keyed[..g] == keyed;
    } else {
      CachedAt(groups, g + 1);
      assert keyed[..g + 1][..g] == keyed[..g];
    }
  }

  lemma {:induction false} CachedCount(groups: seq<CachedGroup>, g: nat)
    requires (forall i | 0 <= i < |groups| :: groups[i].key.Some?) && AllWellFormed(Keyed(groups)) && g <= |groups|
    ensures |CachedIds(Keyed(groups)[..g])| == CuesBefore(groups, g)
  {
    if g > 0 {
      CachedCount(groups, g - 1);
      assert Keyed(groups)[..g][..g - 1] == Keyed(groups)[..g - 1];
      assert WellFormed(Keyed(groups)[g - 1].1);
    }
  }

  /** Accepted groups in key order hold, position by position, the timeline's own cues, each clip within the tolerance. */
  lemma AcceptedPositions(groups: seq<CachedGroup>, timeline: Timeline, timingMode: string, tolerance: real, g: nat, o: nat)
    requires Matches(groups, timeline, timingMode, tolerance)
    requires forall i, j | 0 <= i < j < |groups| :: groups[i].key.value <= groups[j].key.value
    requires g < |groups| && groups[g].cueIds.Some? && o < |groups[g].cueIds.value|
    ensures groups[g].timingMode == L.CUE_LOCKED && groups[g].audioSeconds.Some? && o < |groups[g].audioSeconds.value|
    ensures var at := CuesBefore(groups, g) + o;
      && at < |CueSegments(timeline.segments)|
      && groups[g].cueIds.value[o] == CueSegments(timeline.segments)[at].cueIdx
      && -tolerance <= groups[g].audioSeconds.value[o] - CueSegments(timeline.segments)[at].outDuration <= tolerance
    ensures CuesBefore(groups, |groups|) == |CueSegments(timeline.segments)|
  {
    hide CueSegments, KeySort.Sort, CachedIds, CachedSeconds, CuesBefore;
    var keyed := Keyed(groups);
    KeySort.SortOfAscending(keyed);
    assert WellFormed(keyed[g].1);
    CachedCount(groups, |groups|);
    assert keyed[..|groups|] == keyed;
    PositionIn(groups, g, o);
    assert SegmentIds(CueSegments(timeline.segments))[CuesBefore(groups, g) + o] == groups[g].cueIds.value[o];
  }

  lemma PositionIn(groups: seq<CachedGroup>, g: nat, o: nat)
    requires (forall i | 0 <= i < |groups| :: groups[i].key.Some?) && AllWellFormed(Keyed(groups)) && g < |groups|
    requires WellFormed(groups[g]) && o < |groups[g].cueIds.value|
    ensures var at, ids, seconds := CuesBefore(groups, g) + o, CachedIds(Keyed(groups)), CachedSeconds(Keyed(groups));
      at < |ids| && ids[at] == groups[g].cueIds.value[o] && seconds[at] == groups[g].audioSeconds.value[o]
  {
    var keyed := Keyed(groups);
    CachedAt(groups, g);
    CachedAt(groups, g + 1);
    assert keyed[..g + 1][..g] == keyed[..g];
    var here := keyed[..g + 1];
    assert here[g] == keyed[g];
    assert CachedIds(here) == CachedIds(keyed[..g]) + groups[g].cueIds.value;
    assert CachedSeconds(here) == CachedSeconds(keyed[..g]) + groups[g].audioSeconds.value;
    assert CachedIds(keyed)[..|CachedIds(here)|] == CachedIds(here);
    assert CachedSeconds(keyed)[..|CachedSeconds(here)|] == CachedSeconds(here);
  }

  lemma GroupsNonEmpty(n: nat, size: nat)
    requires size > 0
    ensures L.GroupCount(n, size) == 0 <==> n == 0
  {
  }
}

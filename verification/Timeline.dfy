/** The output timelines: cue-locked (with and without source pauses), freeze/pad and trim. */
module Timeline {
  import opened Options
  import opened Rounding

  datatype Cue = Cue(idx: int, srcStart: real, srcEnd: real, audioSeconds: real)

  datatype Kind = CueKind | GapKind

  datatype Segment = Segment(
    kind: Kind, cueIdx: int, srcStart: real, srcEnd: real, outStart: real, outDuration: real)

  datatype Timeline = Timeline(segments: seq<Segment>, totalSeconds: real)

  datatype Mode = CueLocked | CueLockedWithGaps | FullRetime | FreezePad | Trim | Unknown

  function Min(a: real, b: real): real { if b < a then b else a }

  /** Source length, never below 50 ms. */
  function SourceSeconds(c: Cue): real {
    Max(0.05, c.srcEnd - c.srcStart)
  }

  function LockedSeconds(c: Cue): real {
    if c.audioSeconds > 0.0 then c.audioSeconds else SourceSeconds(c)
  }

  function AudioOrSource(c: Cue): real {
    if c.audioSeconds != 0.0 then c.audioSeconds else SourceSeconds(c)
  }

  function PaddedSeconds(c: Cue): real {
    Max(SourceSeconds(c), AudioOrSource(c))
  }

  function TrimmedSeconds(c: Cue): real {
    Min(SourceSeconds(c), AudioOrSource(c))
  }

  /** How long a cue lasts in the output. */
  function Seconds(mode: Mode, c: Cue): real {
    match mode
    case FreezePad => PaddedSeconds(c)
    case Trim => TrimmedSeconds(c)
    case _ => LockedSeconds(c)
  }

  // ---------- what a timeline must be ----------

  function End(s: Segment): real {
    s.outStart + s.outDuration
  }

  /** The segments cover the output from 0 to its length without hole or overlap. */
  ghost predicate Tiles(t: Timeline) {
    && (t.segments == [] ==> t.totalSeconds == 0.0)
    && (t.segments != [] ==> t.segments[0].outStart == 0.0 && t.totalSeconds == End(t.segments[|t.segments| - 1]))
    && forall i | 0 <= i < |t.segments| - 1 :: t.segments[i + 1].outStart == End(t.segments[i])
  }

  ghost predicate Forward(t: Timeline) {
    forall i | 0 <= i < |t.segments| :: t.segments[i].outDuration >= 0.0
  }

  /** In a tiling timeline that never runs backwards, segments lie one after the other. */
  lemma {:induction false} TilesAreOrdered(t: Timeline, i: nat, j: nat)
    requires Tiles(t) && Forward(t) && i < j < |t.segments|
    ensures 0.0 <= t.segments[i].outStart <= End(t.segments[i]) <= t.segments[j].outStart
    ensures End(t.segments[j]) <= t.totalSeconds
    decreases j
  {
    StartsForward(t, i);
    if i + 1 < j {
      TilesAreOrdered(t, i, j - 1);
    }
    EndsWithin(t, j);
  }

  lemma {:induction false} StartsForward(t: Timeline, i: nat)
    requires Tiles(t) && Forward(t) && i < |t.segments|
    ensures 0.0 <= t.segments[i].outStart
  {
    if i > 0 {
      StartsForward(t, i - 1);
    }
  }

  lemma {:induction false} EndsWithin(t: Timeline, i: nat)
    requires Tiles(t) && Forward(t) && i < |t.segments|
    ensures End(t.segments[i]) <= t.totalSeconds
    decreases |t.segments| - i
  {
    if i + 1 < |t.segments| {
      EndsWithin(t, i + 1);
    }
  }

  function SumTo(mode: Mode, cues: seq<Cue>, k: nat): real
    requires k <= |cues|
  {
    if k == 0 then 0.0 else SumTo(mode, cues, k - 1) + Seconds(mode, cues[k - 1])
  }

  function CueSegment(c: Cue, start: real, seconds: real): Segment {
    Segment(CueKind, c.idx, c.srcStart, c.srcEnd, start, seconds)
  }

  /** One segment for each of the first `n` cues, in order, each lasting what the mode prescribes. */
  ghost predicate OnePerCue(segments: seq<Segment>, cues: seq<Cue>, n: nat, mode: Mode)
    requires n <= |cues|
  {
    && |segments| == n
    && forall k | 0 <= k < n :: segments[k] == CueSegment(cues[k], SumTo(mode, cues, k), Seconds(mode, cues[k]))
  }

  ghost predicate IsBackToBack(t: Timeline, cues: seq<Cue>, mode: Mode) {
    OnePerCue(t.segments, cues, |cues|, mode) && t.totalSeconds == SumTo(mode, cues, |cues|)
  }

  lemma OnePerCueGrows(segments: seq<Segment>, cues: seq<Cue>, n: nat, mode: Mode)
    requires n < |cues| && OnePerCue(segments, cues, n, mode)
    ensures OnePerCue(segments + [CueSegment(cues[n], SumTo(mode, cues, n), Seconds(mode, cues[n]))], cues, n + 1, mode)
    ensures SumTo(mode, cues, n + 1) == SumTo(mode, cues, n) + Seconds(mode, cues[n])
  {
  }

  lemma SumToStarts(mode: Mode, cues: seq<Cue>)
    ensures SumTo(mode, cues, 0) == 0.0 && OnePerCue([], cues, 0, mode)
  {
  }

  lemma BackToBackTiles(t: Timeline, cues: seq<Cue>, mode: Mode)
    requires IsBackToBack(t, cues, mode)
    ensures Tiles(t)
  {
    hide Seconds;
    forall i | 0 <= i < |t.segments| ensures End(t.segments[i]) == SumTo(mode, cues, i + 1) {}
  }

  /** Cue-locked and padded segments never run backwards; trimmed ones exactly when no audio length is negative. */
  lemma BackToBackForward(t: Timeline, cues: seq<Cue>, mode: Mode)
    requires IsBackToBack(t, cues, mode)
    ensures mode != Trim ==> forall k | 0 <= k < |cues| :: t.segments[k].outDuration > 0.0
    ensures mode == Trim ==> (Forward(t) <==> forall k | 0 <= k < |cues| :: cues[k].audioSeconds >= 0.0)
    ensures mode == FreezePad ==> forall k | 0 <= k < |cues| :: cues[k].audioSeconds <= t.segments[k].outDuration
    ensures mode == Trim ==> forall k | 0 <= k < |cues| :: t.segments[k].outDuration <= SourceSeconds(cues[k])
  {
    hide SumTo;
    forall k | 0 <= k < |cues| ensures t.segments[k].outDuration == Seconds(mode, cues[k]) {}
    if mode == Trim {
      forall k | 0 <= k < |cues|
        ensures t.segments[k].outDuration >= 0.0 <==> cues[k].audioSeconds >= 0.0
      {
        assert t.segments[k].outDuration == TrimmedSeconds(cues[k]);
      }
    }
  }

  // ---------- the builders ----------

  /** A cue's own segment: its source span, and the length its mode prescribes. */
  lemma SegmentMeans(t: Timeline, cues: seq<Cue>, mode: Mode, k: nat)
    requires IsBackToBack(t, cues, mode) && k < |cues|
    ensures |t.segments| == |cues|
    ensures var s, c := t.segments[k], cues[k];
      var source := if c.srcEnd - c.srcStart < 0.05 then 0.05 else c.srcEnd - c.srcStart;
      var audio := if c.audioSeconds != 0.0 then c.audioSeconds else source;
      && s.kind == CueKind && s.cueIdx == c.idx && s.srcStart == c.srcStart && s.srcEnd == c.srcEnd
      && (mode == FreezePad ==> s.outDuration == if source < audio then audio else source)
      && (mode == Trim ==> s.outDuration == if audio < source then audio else source)
      && (mode != FreezePad && mode != Trim ==> s.outDuration == if c.audioSeconds > 0.0 then c.audioSeconds else source)
  {
  }

  method BuildCueLocked(cues: seq<Cue>) returns (tl: Timeline)
    ensures IsBackToBack(tl, cues, CueLocked)
  {
    hide SumTo, OnePerCue;
    SumToStarts(CueLocked, cues);
    var segments: seq<Segment> := [];
    var t := 0.0;
    for k := 0 to |cues|
      invariant t == SumTo(CueLocked, cues, k) && OnePerCue(segments, cues, k, CueLocked)
    {
      var c := cues[k];
      OnePerCueGrows(segments, cues, k, CueLocked);
      var dur := if c.audioSeconds > 0.0 then c.audioSeconds else Max(0.05, c.srcEnd - c.srcStart);
      segments := segments + [CueSegment(c, t, dur)];
      t := t + dur;
    }
    tl := Timeline(segments, t);
  }

  method BuildFreezePad(cues: seq<Cue>) returns (tl: Timeline)
    ensures IsBackToBack(tl, cues, FreezePad)
  {
    hide SumTo, OnePerCue;
    SumToStarts(FreezePad, cues);
    var segments: seq<Segment> := [];
    var t := 0.0;
    for k := 0 to |cues|
      invariant t == SumTo(FreezePad, cues, k) && OnePerCue(segments, cues, k, FreezePad)
    {
      var c := cues[k];
      OnePerCueGrows(segments, cues, k, FreezePad);
      var srcDur := Max(0.05, c.srcEnd - c.srcStart);
      var dur := Max(srcDur, if c.audioSeconds != 0.0 then c.audioSeconds else srcDur);
      segments := segments + [CueSegment(c, t, dur)];
      t := t + dur;
    }
    tl := Timeline(segments, t);
  }

  method BuildTrim(cues: seq<Cue>) returns (tl: Timeline)
    ensures IsBackToBack(tl, cues, Trim)
  {
    hide SumTo, OnePerCue;
    SumToStarts(Trim, cues);
    var segments: seq<Segment> := [];
    var t := 0.0;
    for k := 0 to |cues|
      invariant t == SumTo(Trim, cues, k) && OnePerCue(segments, cues, k, Trim)
    {
      var c := cues[k];
      OnePerCueGrows(segments, cues, k, Trim);
      var srcDur := Max(0.05, c.srcEnd - c.srcStart);
      var dur := Min(srcDur, if c.audioSeconds != 0.0 then c.audioSeconds else srcDur);
      segments := segments + [CueSegment(c, t, dur)];
      t := t + dur;
    }
    tl := Timeline(segments, t);
  }

  // ---------- natural pauses ----------

  /** The pause kept before `c`: a long one is cut to the compressed length. */
  function GapSeconds(prevEnd: real, c: Cue, compressMs: Option<int>, keepMs: Option<int>): real {
    var gap := Max(0.0, c.srcStart - prevEnd);
    if compressMs.Some? && gap * 1000.0 > compressMs.value as real then
      (if keepMs.Some? && keepMs.value != 0 then keepMs.value else compressMs.value) as real / 1000.0
    else gap
  }

  function GapBefore(cues: seq<Cue>, k: nat, compressMs: Option<int>, keepMs: Option<int>): real
    requires k < |cues|
  {
    if k == 0 then 0.0 else Max(0.0, GapSeconds(cues[k - 1].srcEnd, cues[k], compressMs, keepMs))
  }

  /** Output start of cue `k`: everything before it, pauses included. */
  function GappedStart(cues: seq<Cue>, k: nat, compressMs: Option<int>, keepMs: Option<int>): real
    requires k <= |cues|
  {
    if k == 0 then 0.0
    else GappedStart(cues, k - 1, compressMs, keepMs) + GapBefore(cues, k - 1, compressMs, keepMs) + LockedSeconds(cues[k - 1])
  }

  /** The pause before a cue: the source's, unless it is longer than asked for; then the length to keep, or the one asked for. */
  lemma GapMeans(prevEnd: real, c: Cue, compressMs: Option<int>, keepMs: Option<int>)
    ensures var gap := GapSeconds(prevEnd, c, compressMs, keepMs);
      var silence := if c.srcStart < prevEnd then 0.0 else c.srcStart - prevEnd;
      if compressMs.Some? && silence > compressMs.value as real / 1000.0 then
        gap * 1000.0 == (if keepMs.Some? && keepMs.value != 0 then keepMs.value as real else compressMs.value as real)
      else gap == silence
  {
  }

  /** Each cue starts where the one before it ends, after the pause between them. */
  lemma GappedMeans(cues: seq<Cue>, k: nat, compressMs: Option<int>, keepMs: Option<int>)
    requires k < |cues|
    ensures var s := GappedSegment(cues, k, compressMs, keepMs);
      && s.kind == CueKind && s.cueIdx == cues[k].idx && s.srcStart == cues[k].srcStart && s.srcEnd == cues[k].srcEnd
      && (k == 0 ==> s.outStart == 0.0)
      && (k > 0 ==>
            var gap := GapSeconds(cues[k - 1].srcEnd, cues[k], compressMs, keepMs);
            s.outStart == End(GappedSegment(cues, k - 1, compressMs, keepMs)) + if gap < 0.0 then 0.0 else gap)
  {
  }

  function CueSegments(segments: seq<Segment>): seq<Segment> {
    if segments == [] then []
    else
      var last := segments[|segments| - 1];
      var rest := CueSegments(segments[..|segments| - 1]);
      if last.kind == CueKind then rest + [last] else rest
  }

  lemma CueSegmentsGrow(segments: seq<Segment>, s: Segment)
    ensures CueSegments(segments + [s]) == if s.kind == CueKind then CueSegments(segments) + [s] else CueSegments(segments)
  {
    assert (segments + [s])[..|segments|] == segments;
  }

  lemma {:induction false} AllCueSegments(segments: seq<Segment>)
    requires forall s | s in segments :: s.kind == CueKind
    ensures CueSegments(segments) == segments
  {
    if segments != [] {
      AllCueSegments(segments[..|segments| - 1]);
    }
  }

  /** The cue segments alone: one per cue, each starting after its pause. */
  ghost predicate CuesAfterGaps(segments: seq<Segment>, cues: seq<Cue>, n: nat, compressMs: Option<int>, keepMs: Option<int>)
    requires n <= |cues|
  {
    && |segments| == n
    && forall k | 0 <= k < n :: segments[k] == GappedSegment(cues, k, compressMs, keepMs)
  }

  function GappedSegment(cues: seq<Cue>, k: nat, compressMs: Option<int>, keepMs: Option<int>): Segment
    requires k < |cues|
  {
    CueSegment(cues[k], GappedStart(cues, k, compressMs, keepMs) + GapBefore(cues, k, compressMs, keepMs), LockedSeconds(cues[k]))
  }

  ghost predicate ForwardTiling(segments: seq<Segment>, total: real) {
    Tiles(Timeline(segments, total)) && forall i | 0 <= i < |segments| :: segments[i].outDuration > 0.0
  }

  lemma TilingGrows(segments: seq<Segment>, total: real, s: Segment)
    requires ForwardTiling(segments, total) && s.outStart == total && s.outDuration > 0.0
    ensures ForwardTiling(segments + [s], total + s.outDuration)
  {
  }

  lemma GapsStart(cues: seq<Cue>, compressMs: Option<int>, keepMs: Option<int>)
    ensures ForwardTiling([], 0.0) && CueSegments([]) == []
    ensures CuesAfterGaps([], cues, 0, compressMs, keepMs) && GappedStart(cues, 0, compressMs, keepMs) == 0.0
  {
  }

  lemma GapsGrow(segments: seq<Segment>, cues: seq<Cue>, n: nat, compressMs: Option<int>, keepMs: Option<int>)
    requires n < |cues| && CuesAfterGaps(segments, cues, n, compressMs, keepMs)
    ensures var s := GappedSegment(cues, n, compressMs, keepMs);
      && CuesAfterGaps(segments + [s], cues, n + 1, compressMs, keepMs)
      && GappedStart(cues, n + 1, compressMs, keepMs) == End(s)
      && s.outDuration == if cues[n].audioSeconds > 0.0 then cues[n].audioSeconds else Max(0.05, cues[n].srcEnd - cues[n].srcStart)
  {
  }

  method BuildCueLockedWithGaps(cues: seq<Cue>, compressMs: Option<int>, keepMs: Option<int>) returns (tl: Timeline)
    ensures ForwardTiling(tl.segments, tl.totalSeconds)
    ensures CuesAfterGaps(CueSegments(tl.segments), cues, |cues|, compressMs, keepMs)
    ensures tl.totalSeconds == GappedStart(cues, |cues|, compressMs, keepMs)
  {
    hide ForwardTiling, CueSegments, CuesAfterGaps, GappedStart, LockedSeconds;
    var segments: seq<Segment> := [];
    var t := 0.0;
    var prevEnd: Option<real> := None;
    GapsStart(cues, compressMs, keepMs);
    for k := 0 to |cues|
      invariant t == GappedStart(cues, k, compressMs, keepMs)
      invariant ForwardTiling(segments, t)
      invariant CuesAfterGaps(CueSegments(segments), cues, k, compressMs, keepMs)
      invariant prevEnd == if k == 0 then None else Some(cues[k - 1].srcEnd)
    {
      var c := cues[k];
      if prevEnd.Some? {
        var gap := Max(0.0, c.srcStart - prevEnd.value);
        if compressMs.Some? && gap * 1000.0 > compressMs.value as real {
          gap := (if keepMs.Some? && keepMs.value != 0 then keepMs.value else compressMs.value) as real / 1000.0;
        }
        assert gap == GapSeconds(prevEnd.value, c, compressMs, keepMs);
        if gap > 0.0 {
          var pause := Segment(GapKind, c.idx, prevEnd.value, c.srcStart, t, gap);
          CueSegmentsGrow(segments, pause);
          TilingGrows(segments, t, pause);
          segments := segments + [pause];
          t := t + gap;
        }
      }
      assert t == GappedStart(cues, k, compressMs, keepMs) + GapBefore(cues, k, compressMs, keepMs);
      GapsGrow(CueSegments(segments), cues, k, compressMs, keepMs);
      var dur := if c.audioSeconds > 0.0 then c.audioSeconds else Max(0.05, c.srcEnd - c.srcStart);
      CueSegmentsGrow(segments, CueSegment(c, t, dur));
      TilingGrows(segments, t, CueSegment(c, t, dur));
      segments := segments + [CueSegment(c, t, dur)];
      t := t + dur;
      prevEnd := Some(c.srcEnd);
    }
    tl := Timeline(segments, t);
  }

  /** `build_timeline` for the tiling modes: an unknown mode falls back to cue-locked. */
  method BuildTimeline(mode: Mode, cues: seq<Cue>, compressMs: Option<int>, keepMs: Option<int>) returns (tl: Timeline)
    ensures Tiles(tl)
    ensures mode != CueLockedWithGaps ==> IsBackToBack(tl, cues, mode)
    ensures mode == CueLockedWithGaps ==> CuesAfterGaps(CueSegments(tl.segments), cues, |cues|, compressMs, keepMs)
    ensures Forward(tl) <==> mode == Trim ==> forall k | 0 <= k < |cues| :: cues[k].audioSeconds >= 0.0
  {
    hide SumTo, SourceSeconds, LockedSeconds, PaddedSeconds, TrimmedSeconds, CuesAfterGaps;
    match mode {
      case CueLockedWithGaps => tl := BuildCueLockedWithGaps(cues, compressMs, keepMs);
      case FreezePad => tl := BuildFreezePad(cues);
      case Trim => tl := BuildTrim(cues);
      case _ =>
        tl := BuildCueLocked(cues);
        SameSums(mode, cues, |cues|);
    }
    if mode != CueLockedWithGaps {
      BackToBackTiles(tl, cues, mode);
      BackToBackForward(tl, cues, mode);
    }
  }

  lemma {:induction false} SameSums(mode: Mode, cues: seq<Cue>, n: nat)
    requires n <= |cues| && mode != FreezePad && mode != Trim
    ensures forall k | 0 <= k <= n :: SumTo(mode, cues, k) == SumTo(CueLocked, cues, k)
  {
    if n > 0 {
      SameSums(mode, cues, n - 1);
    }
  }
}

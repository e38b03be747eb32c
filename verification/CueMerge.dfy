/** Building transcript cues from recognised words: overlap removal, pause-aware merging, plain time merging. */
module CueMerge {
  import opened Options
  import opened Rounding
  import Text

  datatype RawWord = RawWord(start: Option<real>, end: Option<real>, text: string)

  datatype Segment = Segment(start: real, end: real, text: string, words: seq<RawWord>)

  datatype Word = Word(start: real, end: real, text: string)

  datatype Cue = Cue(id: nat, start: real, end: real, text: string, words: seq<RawWord>)

  // ---------- the timed words ----------

  function TimedIn(words: seq<RawWord>): seq<Word> {
    if words == [] then []
    else
      var w := words[|words| - 1];
      TimedIn(words[..|words| - 1]) + if w.start.Some? && w.end.Some? then [Word(w.start.value, w.end.value, w.text)] else []
  }

  /** The words with both times, in order. */
  function TimedWords(segs: seq<Segment>): seq<Word> {
    if segs == [] then [] else TimedWords(segs[..|segs| - 1]) + TimedIn(segs[|segs| - 1].words)
  }

  /** Each timed word is a word with both its times, and each such word is there. */
  lemma {:induction false} TimedMeans(words: seq<RawWord>)
    ensures forall w :: w in TimedIn(words) <==> RawWord(Some(w.start), Some(w.end), w.text) in words
  {
    if words != [] {
      TimedMeans(words[..|words| - 1]);
      assert words == words[..|words| - 1] + [words[|words| - 1]];
    }
  }

  lemma {:induction false} AllTimed(words: seq<RawWord>, i: nat)
    requires forall j | 0 <= j < |words| :: words[j].start.Some? && words[j].end.Some?
    requires i < |words|
    ensures |TimedIn(words)| == |words|
    ensures TimedIn(words)[i] == Word(words[i].start.value, words[i].end.value, words[i].text)
  {
    if |words| > 1 {
      AllTimed(words[..|words| - 1], if i < |words| - 1 then i else 0);
    } else {
      assert words[..0] == [];
    }
  }

  /** In the order they are listed. */
  lemma {:induction false} TimedJoins(a: seq<RawWord>, b: seq<RawWord>)
    ensures TimedIn(a + b) == TimedIn(a) + TimedIn(b)
  {
    if b == [] {
      assert a + b == a;
    } else {
      var n := |b| - 1;
      assert (a + b)[..|a + b| - 1] == a + b[..n] && (a + b)[|a + b| - 1] == b[n];
      TimedJoins(a, b[..n]);
    }
  }

  /** Between the words of the segments before it and of those after it lie the words of a segment. */
  lemma {:induction false} TimedAt(segs: seq<Segment>, k: nat)
    requires k < |segs|
    ensures TimedWords(segs) == TimedWords(segs[..k]) + TimedIn(segs[k].words) + TimedWords(segs[k + 1..])
  {
    hide TimedIn;
    var n := |segs| - 1;
    if k < n {
      TimedAt(segs[..n], k);
      assert segs[..n][..k] == segs[..k];
      assert segs[k + 1..][..n - k - 1] == segs[..n][k + 1..] && segs[k + 1..][n - k - 1] == segs[n];
    }
  }

  method Flatten(segs: seq<Segment>) returns (words: seq<Word>)
    ensures words == TimedWords(segs)
  {
    words := [];
    for si := 0 to |segs|
      invariant words == TimedWords(segs[..si])
    {
      var raw := segs[si].words;
      for wi := 0 to |raw|
        invariant words == TimedWords(segs[..si]) + TimedIn(raw[..wi])
      {
        var w := raw[wi];
        assert raw[..wi + 1][..wi] == raw[..wi];
        if w.start.None? || w.end.None? {
          continue;
        }
        words := words + [Word(w.start.value, w.end.value, w.text)];
      }
      assert raw[..|raw|] == raw && segs[..si + 1][..si] == segs[..si];
    }
    assert segs[..|segs|] == segs;
  }

  // ---------- overlap removal ----------

  /** `"".join(text.split())` */
  function Squeezed(text: string): string {
    if text == "" then "" else Squeezed(text[..|text| - 1]) + if Text.IsSpace(text[|text| - 1]) then "" else [text[|text| - 1]]
  }

  predicate Overlap(a: Segment, b: Segment) {
    (if a.end < b.end then a.end else b.end) - (if a.start < b.start then b.start else a.start) > 0.0
  }

  /** Squeezing removes the white space and nothing else. */
  lemma {:induction false} SqueezedMeans(text: string, c: char)
    ensures multiset(Squeezed(text))[c] == if Text.IsSpace(c) then 0 else multiset(text)[c]
  {
    if text != "" {
      SqueezedMeans(text[..|text| - 1], c);
      assert text == text[..|text| - 1] + [text[|text| - 1]];
    }
  }

  /** Two segments overlap when some moment lies strictly inside both. */
  lemma OverlapMeans(a: Segment, b: Segment)
    ensures Overlap(a, b) <==> exists t: real :: Inside(a, t) && Inside(b, t)
  {
    var from := if a.start < b.start then b.start else a.start;
    var to := if a.end < b.end then a.end else b.end;
    if Overlap(a, b) {
      var t := (from + to) / 2.0;
      assert Inside(a, t) && Inside(b, t);
    }
  }

  predicate Inside(s: Segment, t: real) {
    s.start < t < s.end
  }

  /** `b` says the same as `a` over an overlapping time span. */
  predicate Repeats(a: Segment, b: Segment) {
    Squeezed(b.text) != "" && Squeezed(b.text) == Squeezed(a.text) && Overlap(a, b)
  }

  /** A repeat has a letter, the same letters as the segment it repeats, and some moment in common with it. */
  lemma RepeatsMeans(a: Segment, b: Segment)
    ensures Repeats(a, b) <==>
      && (exists i :: 0 <= i < |b.text| && !Text.IsSpace(b.text[i]))
      && Squeezed(a.text) == Squeezed(b.text)
      && exists t: real :: Inside(a, t) && Inside(b, t)
  {
    hide Squeezed, Overlap;
    OverlapMeans(a, b);
    SqueezedBlank(b.text);
  }

  lemma {:induction false} SqueezedBlank(text: string)
    ensures Squeezed(text) == "" <==> forall i | 0 <= i < |text| :: Text.IsSpace(text[i])
  {
    if text != "" {
      SqueezedBlank(text[..|text| - 1]);
    }
  }

  function Deduped(segs: seq<Segment>): (kept: seq<Segment>)
    ensures |kept| <= |segs| && (kept == [] <==> segs == [])
  {
    if segs == [] then []
    else
      var front := Deduped(segs[..|segs| - 1]);
      if front != [] && Repeats(front[|front| - 1], segs[|segs| - 1]) then front else front + [segs[|segs| - 1]]
  }

  /** `dedupe_overlapping_segments` */
  method DedupeOverlapping(segs: seq<Segment>) returns (kept: seq<Segment>, dropped: nat)
    ensures kept == Deduped(segs) && |kept| + dropped == |segs|
  {
    hide Squeezed, Overlap;
    kept, dropped := [], 0;
    for i := 0 to |segs|
      invariant kept == Deduped(segs[..i]) && |kept| + dropped == i
    {
      var s := segs[i];
      assert segs[..i + 1][..i] == segs[..i];
      if kept != [] {
        var prev := kept[|kept| - 1];
        if Squeezed(s.text) != "" && Squeezed(s.text) == Squeezed(prev.text) && Overlap(prev, s) {
          dropped := dropped + 1;
          continue;
        }
      }
      kept := kept + [s];
    }
    assert segs[..|segs|] == segs;
  }

  predicate NoRepeats(segs: seq<Segment>) {
    forall i | 0 < i < |segs| :: !Repeats(segs[i - 1], segs[i])
  }

  lemma {:induction false} DedupedHasNoRepeats(segs: seq<Segment>)
    ensures NoRepeats(Deduped(segs))
  {
    hide Repeats;
    if segs != [] {
      DedupedHasNoRepeats(segs[..|segs| - 1]);
    }
  }

  lemma {:induction false} NothingToDrop(segs: seq<Segment>)
    requires NoRepeats(segs)
    ensures Deduped(segs) == segs
  {
    hide Repeats;
    if segs != [] {
      NothingToDrop(segs[..|segs| - 1]);
    }
  }

  /** Deduplicating twice does no more than once, and a list is left alone exactly when no neighbours repeat. */
  lemma DedupeOnce(segs: seq<Segment>)
    ensures Deduped(Deduped(segs)) == Deduped(segs)
    ensures Deduped(segs) == segs <==> NoRepeats(segs)
  {
    hide Repeats, Deduped;
    DedupedHasNoRepeats(segs);
    NothingToDrop(Deduped(segs));
    if NoRepeats(segs) {
      NothingToDrop(segs);
    }
  }

  /** A segment is dropped only for a kept one that says the same at the same time: its text stays in the transcript. */
  lemma DroppedIsCovered(segs: seq<Segment>, i: nat) returns (k: nat)
    requires i < |segs|
    ensures k < |Deduped(segs)|
    ensures Squeezed(Deduped(segs)[k].text) == Squeezed(segs[i].text)
    ensures Deduped(segs)[k] == segs[i] || exists t: real :: Inside(Deduped(segs)[k], t) && Inside(segs[i], t)
  {
    hide Repeats, Squeezed, Deduped, Inside;
    DroppedRepeats(segs, i);
    k :| 0 <= k < |Deduped(segs)| && (Deduped(segs)[k] == segs[i] || Repeats(Deduped(segs)[k], segs[i]));
    RepeatsMeans(Deduped(segs)[k], segs[i]);
  }

  lemma {:induction false} DroppedRepeats(segs: seq<Segment>, i: nat)
    requires i < |segs|
    ensures exists k :: 0 <= k < |Deduped(segs)| && (Deduped(segs)[k] == segs[i] || Repeats(Deduped(segs)[k], segs[i]))
  {
    hide Repeats;
    var n := |segs| - 1;
    var front, all := Deduped(segs[..n]), Deduped(segs);
    if i < n {
      DroppedRepeats(segs[..n], i);
      var k :| 0 <= k < |front| && (front[k] == segs[i] || Repeats(front[k], segs[i]));
      assert all[k] == front[k];
    } else if all == front {
      assert all[|all| - 1] == front[|front| - 1];
    } else {
      assert all[|all| - 1] == segs[i];
    }
  }

  // ---------- where a cue may end ----------

  datatype Limits = Limits(low: real, high: real, pause: real, maxChars: int)

  function Chars(words: seq<Word>): nat {
    if words == [] then 0 else Chars(words[..|words| - 1]) + |words[|words| - 1].text|
  }

  /** A cue that began with word `lo` may end after word `i`, which is not the last word. */
  predicate CutAt(words: seq<Word>, c: Limits, lo: nat, i: nat)
    requires lo <= i && i + 1 < |words|
  {
    var duration := words[i].end - words[lo].start;
    var gap := words[i + 1].start - words[i].end;
    || (duration >= c.low && gap >= c.pause)
    || duration >= c.high
    || (Chars(words[lo..i + 1]) >= c.maxChars && gap >= c.pause * 0.5)
  }

  /** The length of a stretch is that of its text. */
  lemma {:induction false} CharsAreText(words: seq<Word>)
    ensures Chars(words) == |Joined(words)|
  {
    if words != [] {
      CharsAreText(words[..|words| - 1]);
    }
  }

  /**
   A cut: in the window at a pause, at the ceiling in any case, or at half a
   pause once the text is as long as allowed.
   */
  lemma CutMeans(words: seq<Word>, c: Limits, lo: nat, i: nat)
    requires lo <= i && i + 1 < |words|
    ensures CutAt(words, c, lo, i) <==>
      || (words[i].end >= words[lo].start + c.low && words[i + 1].start >= words[i].end + c.pause)
      || words[i].end >= words[lo].start + c.high
      || (|Joined(words[lo..i + 1])| >= c.maxChars && 2.0 * (words[i + 1].start - words[i].end) >= c.pause)
  {
    CharsAreText(words[lo..i + 1]);
  }

  /** No cut between the second word and `end`. */
  ghost predicate Quiet(words: seq<Word>, c: Limits, lo: nat, end: nat) {
    forall i {:trigger CutAt(words, c, lo, i)} | lo < i < end && i + 1 < |words| :: !CutAt(words, c, lo, i)
  }

  /** Words `lo..hi` form a cue that is not the last: it ends at its first cut, from its second word on. */
  ghost predicate Closed(words: seq<Word>, c: Limits, lo: nat, hi: nat) {
    lo + 2 <= hi < |words| && CutAt(words, c, lo, hi - 1) && Quiet(words, c, lo, hi - 1)
  }

  /** `bounds` cuts the words greedily: all cues but the last end at their first cut, the last one has none. */
  ghost predicate Greedy(words: seq<Word>, c: Limits, bounds: seq<nat>) {
    && |bounds| >= 2 && bounds[0] == 0 && bounds[|bounds| - 1] == |words|
    && (forall k {:trigger bounds[k]} | 0 <= k < |bounds| - 2 :: Closed(words, c, bounds[k], bounds[k + 1]))
    && bounds[|bounds| - 2] < |words|
    && Quiet(words, c, bounds[|bounds| - 2], |words|)
  }

  lemma ClosedUnique(words: seq<Word>, c: Limits, lo: nat, hi: nat, other: nat)
    requires Closed(words, c, lo, hi) && Closed(words, c, lo, other)
    ensures hi == other
  {
  }

  lemma {:induction false} GreedyAgree(words: seq<Word>, c: Limits, a: seq<nat>, b: seq<nat>, k: nat)
    requires Greedy(words, c, a) && Greedy(words, c, b) && k < |a| - 1 && k < |b|
    ensures k < |b| - 1 && a[k] == b[k]
  {
    hide CutAt, Quiet, Closed;
    if k > 0 {
      GreedyAgree(words, c, a, b, k - 1);
      ClosedInside(words, c, a[k - 1], a[k]);
      if k == |b| - 1 {
        NotBoth(words, c, a[k - 1], a[k]);
      } else {
        ClosedUnique(words, c, a[k - 1], a[k], b[k]);
      }
    }
  }

  lemma ClosedInside(words: seq<Word>, c: Limits, lo: nat, hi: nat)
    requires Closed(words, c, lo, hi)
    ensures lo + 2 <= hi < |words|
  {
  }

  lemma NotBoth(words: seq<Word>, c: Limits, lo: nat, hi: nat)
    requires Closed(words, c, lo, hi)
    ensures !Quiet(words, c, lo, |words|)
  {
    assert CutAt(words, c, lo, hi - 1);
  }

  /** There is one greedy segmentation only. */
  lemma GreedyUnique(words: seq<Word>, c: Limits, a: seq<nat>, b: seq<nat>)
    requires Greedy(words, c, a) && Greedy(words, c, b)
    ensures a == b
  {
    hide CutAt, Quiet, Closed;
    if |a| < |b| {
      GreedyAgree(words, c, b, a, |a| - 1);
    } else if |b| < |a| {
      GreedyAgree(words, c, a, b, |b| - 1);
    }
    forall k | 0 <= k < |a| ensures a[k] == b[k] {
      if k < |a| - 1 {
        GreedyAgree(words, c, a, b, k);
      }
    }
  }

  /** A cue of three or more words, measured to its second-last word, is shorter than the ceiling. */
  lemma BelowCeiling(words: seq<Word>, c: Limits, bounds: seq<nat>, k: nat)
    requires Greedy(words, c, bounds) && k + 1 < |bounds|
    ensures var lo, hi := bounds[k], bounds[k + 1];
      lo < hi <= |words| && (hi - lo >= 3 ==> words[hi - 2].end - words[lo].start < c.high)
  {
    hide Chars;
    var lo, hi := bounds[k], bounds[k + 1];
    if k < |bounds| - 2 {
      assert Closed(words, c, bounds[k], bounds[k + 1]);
    }
    if hi - lo >= 3 {
      assert !CutAt(words, c, lo, hi - 2);
    }
  }

  // ---------- the pause-aware merge ----------

  datatype Draft = Draft(start: real, end: real, words: seq<Word>)

  function DraftOf(words: seq<Word>, lo: nat, hi: nat): Draft
    requires lo < hi <= |words|
  {
    Draft(words[lo].start, words[hi - 1].end, words[lo..hi])
  }

  ghost predicate DraftAt(words: seq<Word>, lo: nat, hi: nat, d: Draft) {
    lo < hi <= |words| && d == DraftOf(words, lo, hi)
  }

  /** The drafts are the stretches between the bounds. */
  ghost predicate DraftsAre(words: seq<Word>, bounds: seq<nat>, drafts: seq<Draft>) {
    && |bounds| == |drafts| + 1
    && forall k {:trigger drafts[k]} | 0 <= k < |drafts| :: DraftAt(words, bounds[k], bounds[k + 1], drafts[k])
  }

  lemma OneMoreDraft(words: seq<Word>, bounds: seq<nat>, drafts: seq<Draft>, hi: nat, d: Draft)
    requires DraftsAre(words, bounds, drafts) && DraftAt(words, bounds[|drafts|], hi, d)
    ensures DraftsAre(words, bounds + [hi], drafts + [d])
  {
    hide DraftAt;
    var b, more := bounds + [hi], drafts + [d];
    forall k {:trigger more[k]} | 0 <= k < |more| ensures DraftAt(words, b[k], b[k + 1], more[k]) {
      if k < |drafts| {
        assert more[k] == drafts[k];
      }
    }
  }

  /** Where stretches of these lengths begin and end. */
  function Points(counts: seq<nat>): (bounds: seq<nat>)
    ensures |bounds| == |counts| + 1
  {
    if counts == [] then [0]
    else
      var front := Points(counts[..|counts| - 1]);
      front + [front[|front| - 1] + counts[|counts| - 1]]
  }

  /** The sizes of the parts. */
  function Sizes<T>(parts: seq<T>, size: T -> nat): (sizes: seq<nat>)
    ensures |sizes| == |parts| && forall k | 0 <= k < |parts| :: sizes[k] == size(parts[k])
  {
    seq(|parts|, k requires 0 <= k < |parts| => size(parts[k]))
  }

  function DraftSize(d: Draft): nat { |d.words| }

  function Counts(drafts: seq<Draft>): seq<nat> { Sizes(drafts, DraftSize) }

  lemma {:induction false} PointsAre(words: seq<Word>, bounds: seq<nat>, drafts: seq<Draft>, counts: seq<nat>, k: nat)
    requires DraftsAre(words, bounds, drafts) && bounds[0] == 0 && k <= |drafts| == |counts|
    requires forall j | 0 <= j < |counts| :: counts[j] == |drafts[j].words|
    ensures Points(counts[..k]) == bounds[..k + 1]
  {
    if k == 0 {
      assert bounds[..1] == [0];
    } else {
      PointsAre(words, bounds, drafts, counts, k - 1);
      assert counts[..k][..k - 1] == counts[..k - 1];
      assert DraftAt(words, bounds[k - 1], bounds[k], drafts[k - 1]);
    }
  }

  lemma BoundsArePoints(words: seq<Word>, c: Limits, bounds: seq<nat>, drafts: seq<Draft>)
    requires Greedy(words, c, bounds) && DraftsAre(words, bounds, drafts)
    ensures Points(Counts(drafts)) == bounds
  {
    PointsAre(words, bounds, drafts, Counts(drafts), |drafts|);
    assert Counts(drafts)[..|drafts|] == Counts(drafts) && bounds[..|drafts| + 1] == bounds;
  }

  function Joined(words: seq<Word>): string {
    if words == [] then "" else Joined(words[..|words| - 1]) + words[|words| - 1].text
  }

  function Rounded(words: seq<Word>): (r: seq<RawWord>)
    ensures |r| == |words|
    ensures forall i | 0 <= i < |words| :: r[i] == RawWord(Some(Round3(words[i].start)), Some(Round3(words[i].end)), words[i].text)
  {
    seq(|words|, i requires 0 <= i < |words| => RawWord(Some(Round3(words[i].start)), Some(Round3(words[i].end)), words[i].text))
  }

  /** The cue made of a draft; `blank` gives the text of a draft whose words are all blank. */
  function CueOf(d: Draft, id: nat, blank: Draft -> string): Cue {
    var text := Text.Strip(Joined(d.words));
    Cue(id, Round3(d.start), Round3(d.end), if text == "" then blank(d) else text, Rounded(d.words))
  }

  /** A cue starts with its first word and ends with its last, to the millisecond, and says their texts. */
  lemma CueMeans(words: seq<Word>, lo: nat, hi: nat, blank: Draft -> string, id: nat)
    requires lo < hi <= |words|
    ensures var cue := CueOf(DraftOf(words, lo, hi), id, blank);
      && cue.id == id
      && -0.0005 <= cue.start - words[lo].start <= 0.0005
      && -0.0005 <= cue.end - words[hi - 1].end <= 0.0005
      && |cue.words| == hi - lo
      && (Text.Strip(Joined(words[lo..hi])) != "" ==> cue.text == Text.Strip(Joined(words[lo..hi])))
      && forall i | lo <= i < hi ::
        && cue.words[i - lo].text == words[i].text
        && cue.words[i - lo].start.Some? && -0.0005 <= cue.words[i - lo].start.value - words[i].start <= 0.0005
        && cue.words[i - lo].end.Some? && -0.0005 <= cue.words[i - lo].end.value - words[i].end <= 0.0005
  {
    hide Round3, Joined, Text.Strip;
    Round3IsNear(words[lo].start);
    Round3IsNear(words[hi - 1].end);
    var cue := CueOf(DraftOf(words, lo, hi), id, blank);
    forall i | lo <= i < hi
      ensures cue.words[i - lo] == RawWord(Some(Round3(words[i].start)), Some(Round3(words[i].end)), words[i].text)
      ensures -0.0005 <= Round3(words[i].start) - words[i].start <= 0.0005
      ensures -0.0005 <= Round3(words[i].end) - words[i].end <= 0.0005
    {
      assert words[lo..hi][i - lo] == words[i];
      Round3IsNear(words[i].start);
      Round3IsNear(words[i].end);
    }
  }

  /** The loop state before word `i`: closed cues so far, and a running one without a cut. */
  ghost predicate LoopOk(words: seq<Word>, c: Limits, bounds: seq<nat>, drafts: seq<Draft>, cur: Option<Draft>, i: nat) {
    && i <= |words| && DraftsAre(words, bounds, drafts) && bounds[0] == 0
    && (forall k {:trigger bounds[k]} | 0 <= k < |drafts| :: Closed(words, c, bounds[k], bounds[k + 1]))
    && var lo := bounds[|drafts|];
      match cur
      case None => lo == i && (i == 0 || i < |words|)
      case Some(d) => lo < i && d == DraftOf(words, lo, i) && Quiet(words, c, lo, i)
  }

  lemma LoopStarts(words: seq<Word>, c: Limits)
    ensures LoopOk(words, c, [0], [], None, 0)
  {
  }

  lemma StepOpens(words: seq<Word>, c: Limits, bounds: seq<nat>, drafts: seq<Draft>, i: nat)
    requires LoopOk(words, c, bounds, drafts, None, i) && i < |words|
    ensures LoopOk(words, c, bounds, drafts, Some(Draft(words[i].start, words[i].end, [words[i]])), i + 1)
  {
    hide CutAt, Closed;
    assert words[i..i + 1] == [words[i]];
  }

  lemma DraftGrows(words: seq<Word>, c: Limits, bounds: seq<nat>, drafts: seq<Draft>, d: Draft, i: nat)
    requires LoopOk(words, c, bounds, drafts, Some(d), i) && i < |words|
    ensures bounds[|drafts|] < i && d.start == words[bounds[|drafts|]].start
    ensures Draft(d.start, words[i].end, d.words + [words[i]]) == DraftOf(words, bounds[|drafts|], i + 1)
  {
    hide CutAt, Closed, Quiet;
    var lo := bounds[|drafts|];
    assert words[lo..i] + [words[i]] == words[lo..i + 1];
  }

  lemma StepKeeps(words: seq<Word>, c: Limits, bounds: seq<nat>, drafts: seq<Draft>, d: Draft, i: nat)
    requires LoopOk(words, c, bounds, drafts, Some(d), i) && i < |words|
    requires i + 1 < |words| ==> !CutAt(words, c, bounds[|drafts|], i)
    ensures LoopOk(words, c, bounds, drafts, Some(DraftOf(words, bounds[|drafts|], i + 1)), i + 1)
  {
    hide CutAt, Closed;
  }

  lemma StepCuts(words: seq<Word>, c: Limits, bounds: seq<nat>, drafts: seq<Draft>, d: Draft, i: nat)
    requires LoopOk(words, c, bounds, drafts, Some(d), i) && i + 1 < |words| && CutAt(words, c, bounds[|drafts|], i)
    ensures LoopOk(words, c, bounds + [i + 1], drafts + [DraftOf(words, bounds[|drafts|], i + 1)], None, i + 1)
  {
    hide CutAt, Quiet, DraftsAre;
    DraftBounds(words, bounds, drafts);
    var lo := bounds[|drafts|];
    assert Closed(words, c, lo, i + 1);
    OneMoreDraft(words, bounds, drafts, i + 1, DraftOf(words, lo, i + 1));
  }

  lemma DraftBounds(words: seq<Word>, bounds: seq<nat>, drafts: seq<Draft>)
    requires DraftsAre(words, bounds, drafts)
    ensures |bounds| == |drafts| + 1
  {
  }

  lemma LoopEnds(words: seq<Word>, c: Limits, bounds: seq<nat>, drafts: seq<Draft>, cur: Option<Draft>)
    requires LoopOk(words, c, bounds, drafts, cur, |words|) && words != []
    ensures cur.Some? && Greedy(words, c, bounds + [|words|]) && DraftsAre(words, bounds + [|words|], drafts + [cur.value])
  {
    hide CutAt, Closed, Quiet, DraftsAre, DraftOf;
    DraftBounds(words, bounds, drafts);
    OneMoreDraft(words, bounds, drafts, |words|, cur.value);
  }

  /** The loop of `merge_segments_pause_aware` over the timed words. */
  method CutGreedily(words: seq<Word>, c: Limits) returns (drafts: seq<Draft>)
    requires words != []
    ensures Greedy(words, c, Points(Counts(drafts))) && DraftsAre(words, Points(Counts(drafts)), drafts)
  {
    hide LoopOk, Greedy, DraftsAre, Chars, Quiet, Closed, Points;
    var cues: seq<Draft> := [];
    var cur: Option<Draft> := None;
    ghost var bounds: seq<nat> := [0];
    LoopStarts(words, c);
    var i := 0;
    while i < |words|
      invariant i <= |words| && LoopOk(words, c, bounds, cues, cur, i)
    {
      var w := words[i];
      if cur.None? {
        StepOpens(words, c, bounds, cues, i);
        cur := Some(Draft(w.start, w.end, [w]));
        i := i + 1;
        continue;
      }
      ghost var d := cur.value;
      cur := Some(Draft(cur.value.start, w.end, cur.value.words + [w]));
      BoundsShape(words, c, bounds, cues, d, i);
      DraftGrows(words, c, bounds, cues, d, i);
      ghost var lo := bounds[|cues|];
      var duration := cur.value.end - cur.value.start;
      var gap := if i + 1 < |words| then words[i + 1].start - w.end else 999.0;
      var chars := Chars(cur.value.words);
      var cut := false;
      if duration >= c.low && gap >= c.pause {
        cut := true;
      } else if duration >= c.high {
        cut := true;
      } else if chars >= c.maxChars && gap >= c.pause * 0.5 {
        cut := true;
      }
      if cut && i + 1 < |words| {
        StepCuts(words, c, bounds, cues, d, i);
        cues := cues + [cur.value];
        cur := None;
        bounds := bounds + [i + 1];
      } else {
        StepKeeps(words, c, bounds, cues, d, i);
      }
      i := i + 1;
    }
    LoopEnds(words, c, bounds, cues, cur);
    if cur.Some? {
      cues := cues + [cur.value];
      bounds := bounds + [|words|];
    }
    BoundsArePoints(words, c, bounds, cues);
    drafts := cues;
  }

  lemma BoundsShape(words: seq<Word>, c: Limits, bounds: seq<nat>, drafts: seq<Draft>, d: Draft, i: nat)
    requires LoopOk(words, c, bounds, drafts, Some(d), i)
    ensures |bounds| == |drafts| + 1
  {
  }

  function LimitsOf(target: real, flex: real, pause: real, maxChars: int): Limits {
    Limits(target * (1.0 - flex), target * (1.0 + flex), pause, maxChars)
  }

  ghost predicate CueAt(words: seq<Word>, lo: nat, hi: nat, blank: Draft -> string, id: nat, cue: Cue) {
    lo < hi <= |words| && cue == CueOf(DraftOf(words, lo, hi), id, blank)
  }

  function CueSize(cue: Cue): nat { |cue.words| }

  function WordCounts(cues: seq<Cue>): seq<nat> { Sizes(cues, CueSize) }

  /** The window reaches a share `flex` of the target below it and above it. */
  lemma LimitsMean(target: real, flex: real, pause: real, maxChars: int)
    ensures var c := LimitsOf(target, flex, pause, maxChars);
      && c.low == target - target * flex && c.high == target + target * flex
      && c.pause == pause && c.maxChars == maxChars
  {
  }

  /** The cues are the greedy stretches, numbered from zero. */
  ghost predicate PacedCues(words: seq<Word>, c: Limits, blank: Draft -> string, cues: seq<Cue>) {
    var bounds := Points(WordCounts(cues));
    && Greedy(words, c, bounds)
    && forall k {:trigger cues[k]} | 0 <= k < |cues| :: CueAt(words, bounds[k], bounds[k + 1], blank, k, cues[k])
  }

  /**
   `merge_segments_pause_aware`: the greedy cues of the timed words, or the
   plain time merge when no word has its times.
   */
  method MergePauseAware(segs: seq<Segment>, target: real, flex: real, pause: real, maxChars: int, blank: Draft -> string)
    returns (cues: seq<Cue>)
    ensures TimedWords(segs) != [] ==> PacedCues(TimedWords(segs), LimitsOf(target, flex, pause, maxChars), blank, cues)
    ensures TimedWords(segs) == [] ==> cues == TimeMerged(segs, target, target * (1.0 + flex), maxChars)
  {
    hide Greedy, CueOf, TimeMerged, TimedWords, PacedCues;
    if segs == [] {
      NothingToMerge(target, target * (1.0 + flex), maxChars);
      return [];
    }
    var words := Flatten(segs);
    if words == [] {
      cues := MergeSegments(segs, target, target * (1.0 + flex), maxChars);
      return;
    }
    var drafts := CutGreedily(words, LimitsOf(target, flex, pause, maxChars));
    cues := [];
    for k := 0 to |drafts|
      invariant |cues| == k && forall j | 0 <= j < k :: cues[j] == CueOf(drafts[j], j, blank)
    {
      cues := cues + [CueOf(drafts[k], k, blank)];
    }
    CuesArePaced(words, LimitsOf(target, flex, pause, maxChars), blank, drafts, cues);
  }

  lemma SameCounts(drafts: seq<Draft>, cues: seq<Cue>, blank: Draft -> string)
    requires |cues| == |drafts| && forall k | 0 <= k < |cues| :: cues[k] == CueOf(drafts[k], k, blank)
    ensures WordCounts(cues) == Counts(drafts)
  {
  }

  lemma CuesArePaced(words: seq<Word>, c: Limits, blank: Draft -> string, drafts: seq<Draft>, cues: seq<Cue>)
    requires Greedy(words, c, Points(Counts(drafts))) && DraftsAre(words, Points(Counts(drafts)), drafts)
    requires |cues| == |drafts| && forall k | 0 <= k < |cues| :: cues[k] == CueOf(drafts[k], k, blank)
    ensures PacedCues(words, c, blank, cues)
  {
    hide Greedy, CueOf, DraftOf, Points;
    SameCounts(drafts, cues, blank);
    var bounds := Points(Counts(drafts));
    forall k {:trigger cues[k]} | 0 <= k < |cues| ensures CueAt(words, bounds[k], bounds[k + 1], blank, k, cues[k]) {
      assert DraftAt(words, bounds[k], bounds[k + 1], drafts[k]);
    }
  }

  /** All words of all cues, in order. */
  function AllWords(cues: seq<Cue>): seq<RawWord> {
    if cues == [] then [] else AllWords(cues[..|cues| - 1]) + cues[|cues| - 1].words
  }

  lemma WordsAt(words: seq<Word>, lo: nat, hi: nat, blank: Draft -> string, id: nat, cue: Cue)
    requires CueAt(words, lo, hi, blank, id, cue)
    ensures lo < hi <= |words| && cue.id == id && cue.words == Rounded(words[lo..hi])
  {
  }

  lemma {:induction false} WordsUpTo(words: seq<Word>, c: Limits, blank: Draft -> string, cues: seq<Cue>, k: nat)
    requires PacedCues(words, c, blank, cues) && k <= |cues|
    ensures var end := Points(WordCounts(cues))[k]; end <= |words| && AllWords(cues[..k]) == Rounded(words[..end])
  {
    hide Greedy, CueAt, Points;
    var bounds := Points(WordCounts(cues));
    if k == 0 {
      FirstBound(words, c, bounds);
    } else {
      WordsUpTo(words, c, blank, cues, k - 1);
      var lo, hi := bounds[k - 1], bounds[k];
      assert cues[..k][..k - 1] == cues[..k - 1];
      WordsAt(words, lo, hi, blank, k - 1, cues[k - 1]);
      assert words[..hi] == words[..lo] + words[lo..hi];
    }
  }

  lemma FirstBound(words: seq<Word>, c: Limits, bounds: seq<nat>)
    requires Greedy(words, c, bounds)
    ensures bounds[0] == 0 && bounds[|bounds| - 1] == |words|
  {
  }

  /** No word is lost, repeated or moved: the cues' words are the timed words in order, times rounded. */
  lemma NoWordLost(words: seq<Word>, c: Limits, blank: Draft -> string, cues: seq<Cue>)
    requires PacedCues(words, c, blank, cues)
    ensures AllWords(cues) == Rounded(words)
    ensures forall k | 0 <= k < |cues| :: cues[k].id == k && cues[k].words != [] && (k < |cues| - 1 ==> |cues[k].words| >= 2)
  {
    hide Greedy, CueAt, Points;
    var bounds := Points(WordCounts(cues));
    WordsUpTo(words, c, blank, cues, |cues|);
    FirstBound(words, c, bounds);
    assert cues[..|cues|] == cues && words[..|words|] == words;
    forall k | 0 <= k < |cues| ensures cues[k].id == k && cues[k].words != [] && (k < |cues| - 1 ==> |cues[k].words| >= 2) {
      WordsAt(words, bounds[k], bounds[k + 1], blank, k, cues[k]);
      if k < |cues| - 1 {
        TwoWords(words, c, bounds, k);
      }
    }
  }

  lemma {:induction false} SqueezedConcat(a: string, b: string)
    ensures Squeezed(a + b) == Squeezed(a) + Squeezed(b)
  {
    if b == "" {
      assert a + b == a;
    } else {
      SqueezedConcat(a, b[..|b| - 1]);
      assert (a + b)[..|a + b| - 1] == a + b[..|b| - 1];
    }
  }

  lemma {:induction false} SqueezedLStrip(s: string)
    ensures Squeezed(Text.LStrip(s)) == Squeezed(s)
  {
    if s != "" && Text.IsSpace(s[0]) {
      SqueezedLStrip(s[1..]);
      assert s == s[..1] + s[1..] && s[..1][..0] == "";
      SqueezedConcat(s[..1], s[1..]);
    }
  }

  lemma {:induction false} SqueezedStrip(s: string)
    ensures Squeezed(Text.RStrip(s)) == Squeezed(s)
    ensures Squeezed(Text.Strip(s)) == Squeezed(s)
    decreases |s|, 1
  {
    SqueezedRStrip(s);
    SqueezedRStrip(Text.LStrip(s));
    SqueezedLStrip(s);
  }

  lemma {:induction false} SqueezedRStrip(s: string)
    ensures Squeezed(Text.RStrip(s)) == Squeezed(s)
  {
    if s != "" && Text.IsSpace(s[|s| - 1]) {
      SqueezedRStrip(s[..|s| - 1]);
    }
  }

  lemma {:induction false} JoinedConcat(a: seq<Word>, b: seq<Word>)
    ensures Joined(a + b) == Joined(a) + Joined(b)
  {
    if b == [] {
      assert a + b == a;
    } else {
      var front, all, w := b[..|b| - 1], a + b, b[|b| - 1];
      JoinedConcat(a, front);
      assert all[..|all| - 1] == a + front && all[|all| - 1] == w;
      assert Joined(all) == Joined(a + front) + w.text;
      assert Joined(b) == Joined(front) + w.text;
    }
  }

  /** The cues' texts in order, white space aside. */
  function Letters(cues: seq<Cue>): string {
    if cues == [] then "" else Letters(cues[..|cues| - 1]) + Squeezed(cues[|cues| - 1].text)
  }

  /** All the words from `lo` to `hi` are blank. */
  predicate IsBlank(words: seq<Word>, lo: nat, hi: nat)
    requires lo <= hi <= |words|
  {
    Text.Strip(Joined(words[lo..hi])) == ""
  }

  /** What a cue says beyond its own words: nothing, or the fallback text of a cue of blank words. */
  function Extra(words: seq<Word>, lo: nat, hi: nat, blank: Draft -> string): string
    requires lo < hi <= |words|
  {
    if IsBlank(words, lo, hi) then Squeezed(blank(DraftOf(words, lo, hi))) else ""
  }

  /** Every blank cue has a blank fallback text too. */
  ghost predicate NothingExtra(words: seq<Word>, bounds: seq<nat>, blank: Draft -> string) {
    forall k {:trigger bounds[k]} | 0 <= k < |bounds| - 1 ::
      bounds[k] < bounds[k + 1] <= |words| ==> Extra(words, bounds[k], bounds[k + 1], blank) == ""
  }

  lemma BlankSpellsNothing(s: string)
    ensures Text.Strip(s) == "" ==> Squeezed(s) == ""
    ensures Squeezed(s) == "" ==> Squeezed(Text.Strip(s)) == ""
  {
    SqueezedStrip(s);
  }

  lemma TextAt(words: seq<Word>, lo: nat, hi: nat, blank: Draft -> string, id: nat, cue: Cue)
    requires CueAt(words, lo, hi, blank, id, cue)
    ensures Squeezed(cue.text) == Squeezed(Joined(words[lo..hi])) + Extra(words, lo, hi, blank)
  {
    hide Squeezed, Joined, Text.Strip;
    SqueezedStrip(Joined(words[lo..hi]));
    BlankSpellsNothing(Joined(words[lo..hi]));
  }

  lemma SpellingSplits(words: seq<Word>, lo: nat, hi: nat)
    requires lo <= hi <= |words|
    ensures Squeezed(Joined(words[..hi])) == Squeezed(Joined(words[..lo])) + Squeezed(Joined(words[lo..hi]))
  {
    hide Squeezed, Joined;
    assert words[..hi] == words[..lo] + words[lo..hi];
    JoinedConcat(words[..lo], words[lo..hi]);
    SqueezedConcat(Joined(words[..lo]), Joined(words[lo..hi]));
  }

  lemma LettersUnfold(cues: seq<Cue>)
    requires cues != []
    ensures Letters(cues) == Letters(cues[..|cues| - 1]) + Squeezed(cues[|cues| - 1].text)
  {
  }

  lemma NothingSpelled(words: seq<Word>)
    ensures Letters([]) == Squeezed(Joined(words[..0]))
  {
  }

  /** Nothing extra so far: the letters agree; something extra: there are too many of them. */
  lemma {:induction false} LettersUpTo(words: seq<Word>, c: Limits, blank: Draft -> string, cues: seq<Cue>, k: nat)
    requires PacedCues(words, c, blank, cues) && k <= |cues|
    ensures var bounds := Points(WordCounts(cues));
      && bounds[k] <= |words|
      && |Letters(cues[..k])| >= |Squeezed(Joined(words[..bounds[k]]))|
      && (NothingExtra(words, bounds[..k + 1], blank) ==> Letters(cues[..k]) == Squeezed(Joined(words[..bounds[k]])))
      && (!NothingExtra(words, bounds[..k + 1], blank) ==> |Letters(cues[..k])| > |Squeezed(Joined(words[..bounds[k]]))|)
    decreases k
  {
    hide Greedy, CueAt, Points, Squeezed, Joined, Letters, NothingExtra, Extra;
    var bounds := Points(WordCounts(cues));
    if k == 0 {
      FirstBound(words, c, bounds);
      NothingSpelled(words);
      OneBoundExtra(words, bounds[..1], blank);
    } else {
      LettersUpTo(words, c, blank, cues, k - 1);
      var lo, hi := bounds[k - 1], bounds[k];
      assert cues[..k][..k - 1] == cues[..k - 1];
      WordsAt(words, lo, hi, blank, k - 1, cues[k - 1]);
      TextAt(words, lo, hi, blank, k - 1, cues[k - 1]);
      SpellingSplits(words, lo, hi);
      LettersUnfold(cues[..k]);
      ExtraSplits(words, bounds, blank, k);
    }
  }

  lemma OneBoundExtra(words: seq<Word>, bounds: seq<nat>, blank: Draft -> string)
    requires |bounds| == 1
    ensures NothingExtra(words, bounds, blank)
  {
  }

  lemma ExtraSplits(words: seq<Word>, bounds: seq<nat>, blank: Draft -> string, k: nat)
    requires 0 < k < |bounds| && bounds[k - 1] < bounds[k] <= |words|
    ensures NothingExtra(words, bounds[..k + 1], blank) <==>
      NothingExtra(words, bounds[..k], blank) && Extra(words, bounds[k - 1], bounds[k], blank) == ""
  {
    hide Extra;
    var more, less := bounds[..k + 1], bounds[..k];
    if NothingExtra(words, more, blank) {
      assert more[k - 1] == bounds[k - 1];
      forall j {:trigger less[j]} | 0 <= j < |less| - 1
        ensures less[j] < less[j + 1] <= |words| ==> Extra(words, less[j], less[j + 1], blank) == ""
      {
        assert more[j] == less[j] && more[j + 1] == less[j + 1];
      }
    }
    if NothingExtra(words, less, blank) && Extra(words, bounds[k - 1], bounds[k], blank) == "" {
      forall j {:trigger more[j]} | 0 <= j < |more| - 1
        ensures more[j] < more[j + 1] <= |words| ==> Extra(words, more[j], more[j + 1], blank) == ""
      {
        if j < k - 1 {
          assert less[j] == more[j] && less[j + 1] == more[j + 1];
        }
      }
    }
  }

  /**
   White space aside, the cues' texts spell the words in order, nothing lost and
   nothing told twice, exactly when every cue of blank words has a blank
   fallback text.
   */
  lemma TextKeptIff(words: seq<Word>, c: Limits, blank: Draft -> string, cues: seq<Cue>)
    requires PacedCues(words, c, blank, cues)
    ensures Letters(cues) == Squeezed(Joined(words)) <==> NothingExtra(words, Points(WordCounts(cues)), blank)
  {
    hide Greedy, CueAt, Points, NothingExtra, Letters, Squeezed, Joined;
    var bounds := Points(WordCounts(cues));
    LettersUpTo(words, c, blank, cues, |cues|);
    FirstBound(words, c, bounds);
    assert cues[..|cues|] == cues && words[..|words|] == words && bounds[..|cues| + 1] == bounds;
  }

  lemma {:induction false} JoinedOfSpelled(words: seq<Word>)
    requires words != [] && forall w | w in words :: Squeezed(w.text) != ""
    ensures Squeezed(Joined(words)) != ""
  {
    hide Squeezed;
    var n := |words| - 1;
    assert words[n] in words;
    SqueezedConcat(Joined(words[..n]), words[n].text);
  }

  /** So it is enough that no word is blank. */
  lemma NoTextLost(words: seq<Word>, c: Limits, blank: Draft -> string, cues: seq<Cue>)
    requires PacedCues(words, c, blank, cues)
    requires forall w | w in words :: Squeezed(w.text) != ""
    ensures Letters(cues) == Squeezed(Joined(words))
  {
    hide Greedy, CueAt, Points, Letters, Squeezed, Joined, Text.Strip;
    var bounds := Points(WordCounts(cues));
    TextKeptIff(words, c, blank, cues);
    forall k {:trigger bounds[k]} | 0 <= k < |bounds| - 1
      ensures bounds[k] < bounds[k + 1] <= |words| ==> Extra(words, bounds[k], bounds[k + 1], blank) == ""
    {
      if bounds[k] < bounds[k + 1] <= |words| {
        var stretch := words[bounds[k]..bounds[k + 1]];
        assert forall w | w in stretch :: w in words;
        JoinedOfSpelled(stretch);
        BlankSpellsNothing(Joined(stretch));
      }
    }
  }

  lemma TwoWords(words: seq<Word>, c: Limits, bounds: seq<nat>, k: nat)
    requires Greedy(words, c, bounds) && k < |bounds| - 2
    ensures bounds[k] + 2 <= bounds[k + 1]
  {
    assert Closed(words, c, bounds[k], bounds[k + 1]);
  }

  // ---------- the plain time merge ----------

  function FirstOf(s: Segment, id: nat): Cue {
    Cue(id, s.start, s.end, s.text, s.words)
  }

  predicate Joins(cur: Cue, s: Segment, target: real, maxSeconds: real, maxChars: int) {
    cur.end - cur.start < target && s.end - cur.start <= maxSeconds && |cur.text| + 1 + |s.text| <= maxChars
  }

  function JoinedTo(cur: Cue, s: Segment): Cue {
    cur.(end := s.end, text := Text.Strip(cur.text + " " + s.text), words := cur.words + s.words)
  }

  /** The merge of a list: its last segment joins the last cue, or opens a new one. */
  function TimeMerged(segs: seq<Segment>, target: real, maxSeconds: real, maxChars: int): (cues: seq<Cue>)
    ensures (cues == []) == (segs == [])
  {
    if segs == [] then []
    else
      var n := |segs| - 1;
      var front := TimeMerged(segs[..n], target, maxSeconds, maxChars);
      if front == [] then [FirstOf(segs[n], 0)]
      else
        var cur := front[|front| - 1];
        if Joins(cur, segs[n], target, maxSeconds, maxChars) then front[..|front| - 1] + [JoinedTo(cur, segs[n])]
        else front + [FirstOf(segs[n], |front|)]
  }

  /** A segment joins while the cue is under its target and the two together keep both caps. */
  lemma MergeMeans(front: seq<Segment>, s: Segment, target: real, maxSeconds: real, maxChars: int)
    requires front != []
    ensures var cues, more := TimeMerged(front, target, maxSeconds, maxChars), TimeMerged(front + [s], target, maxSeconds, maxChars);
      var last := cues[|cues| - 1];
      if last.end < last.start + target && s.end <= last.start + maxSeconds && |last.text + " " + s.text| <= maxChars then
        more == cues[..|cues| - 1] + [Cue(last.id, last.start, s.end, Text.Strip(last.text + " " + s.text), last.words + s.words)]
      else more == cues + [Cue(|cues|, s.start, s.end, s.text, s.words)]
  {
    hide Text.Strip;
    assert (front + [s])[..|front|] == front;
  }

  lemma NothingToMerge(target: real, maxSeconds: real, maxChars: int)
    ensures TimeMerged([], target, maxSeconds, maxChars) == [] && TimedWords([]) == []
  {
  }

  lemma TimeMergedStep(segs: seq<Segment>, i: nat, target: real, maxSeconds: real, maxChars: int, merged: seq<Cue>, cur: Cue)
    requires 0 < i < |segs| && TimeMerged(segs[..i], target, maxSeconds, maxChars) == merged + [cur]
    ensures TimeMerged(segs[..i + 1], target, maxSeconds, maxChars) ==
      if Joins(cur, segs[i], target, maxSeconds, maxChars) then merged + [JoinedTo(cur, segs[i])]
      else merged + [cur] + [FirstOf(segs[i], |merged| + 1)]
  {
    hide Joins, JoinedTo, FirstOf;
    assert segs[..i + 1][..i] == segs[..i];
    assert (merged + [cur])[..|merged|] == merged;
  }

  /** `merge_segments` */
  method MergeSegments(segs: seq<Segment>, target: real, maxSeconds: real, maxChars: int) returns (merged: seq<Cue>)
    ensures merged == TimeMerged(segs, target, maxSeconds, maxChars)
  {
    hide TimeMerged;
    NothingToMerge(target, maxSeconds, maxChars);
    if segs == [] {
      return [];
    }
    merged := [];
    var cur: Option<Cue> := None;
    for i := 0 to |segs|
      invariant cur.None? <==> i == 0
      invariant i == 0 ==> merged == []
      invariant cur.Some? ==> TimeMerged(segs[..i], target, maxSeconds, maxChars) == merged + [cur.value] && cur.value.id == |merged|
    {
      var s := segs[i];
      if cur.None? {
        FirstMerged(segs, target, maxSeconds, maxChars);
        cur := Some(Cue(0, s.start, s.end, s.text, s.words));
        continue;
      }
      TimeMergedStep(segs, i, target, maxSeconds, maxChars, merged, cur.value);
      var running := cur.value;
      var duration := s.end - running.start;
      var chars := |running.text| + 1 + |s.text|;
      if running.end - running.start < target && duration <= maxSeconds && chars <= maxChars {
        running := running.(end := s.end);
        running := running.(text := Text.Strip(running.text + " " + s.text));
        running := running.(words := running.words + s.words);
        cur := Some(running);
      } else {
        merged := merged + [running];
        cur := Some(Cue(|merged|, s.start, s.end, s.text, s.words));
      }
    }
    assert segs[..|segs|] == segs;
    if cur.Some? {
      var last := cur.value.(id := |merged|);
      merged := merged + [last];
    }
  }

  lemma FirstMerged(segs: seq<Segment>, target: real, maxSeconds: real, maxChars: int)
    requires segs != []
    ensures TimeMerged(segs[..1], target, maxSeconds, maxChars) == [FirstOf(segs[0], 0)]
  {
    assert segs[..1][..0] == [];
  }

  function RawWords(segs: seq<Segment>): seq<RawWord> {
    if segs == [] then [] else RawWords(segs[..|segs| - 1]) + segs[|segs| - 1].words
  }

  /** A cue keeps the caps, or it is a single segment. */
  ghost predicate Capped(cue: Cue, segs: seq<Segment>, maxSeconds: real, maxChars: int) {
    || (cue.end - cue.start <= maxSeconds && |cue.text| <= maxChars)
    || exists s :: s in segs && cue == FirstOf(s, cue.id)
  }

  lemma {:induction false} TimeMergeWords(segs: seq<Segment>, target: real, maxSeconds: real, maxChars: int)
    ensures AllWords(TimeMerged(segs, target, maxSeconds, maxChars)) == RawWords(segs)
  {
    hide Joins;
    if segs != [] {
      var n := |segs| - 1;
      TimeMergeWords(segs[..n], target, maxSeconds, maxChars);
      var front, cues := TimeMerged(segs[..n], target, maxSeconds, maxChars), TimeMerged(segs, target, maxSeconds, maxChars);
      if front != [] && Joins(front[|front| - 1], segs[n], target, maxSeconds, maxChars) {
        assert cues[..|cues| - 1] == front[..|front| - 1];
      } else {
        assert cues[..|cues| - 1] == front;
      }
    }
  }

  ghost predicate NumberedAndCapped(cues: seq<Cue>, segs: seq<Segment>, maxSeconds: real, maxChars: int) {
    forall k | 0 <= k < |cues| :: cues[k].id == k && Capped(cues[k], segs, maxSeconds, maxChars)
  }

  lemma MoreSegments(cues: seq<Cue>, front: seq<Segment>, segs: seq<Segment>, maxSeconds: real, maxChars: int)
    requires NumberedAndCapped(cues, front, maxSeconds, maxChars) && front <= segs
    ensures NumberedAndCapped(cues, segs, maxSeconds, maxChars)
  {
    assert forall s | s in front :: s in segs;
  }

  lemma JoinedIsCapped(cur: Cue, s: Segment, segs: seq<Segment>, target: real, maxSeconds: real, maxChars: int)
    requires Joins(cur, s, target, maxSeconds, maxChars)
    ensures Capped(JoinedTo(cur, s), segs, maxSeconds, maxChars) && JoinedTo(cur, s).id == cur.id
  {
    StripShortens(cur.text + " " + s.text);
  }

  /** The time merge loses no word, numbers its cues from zero and breaks a cap only for a single long segment. */
  lemma {:induction false} TimeMergeKeeps(segs: seq<Segment>, target: real, maxSeconds: real, maxChars: int)
    ensures NumberedAndCapped(TimeMerged(segs, target, maxSeconds, maxChars), segs, maxSeconds, maxChars)
    ensures AllWords(TimeMerged(segs, target, maxSeconds, maxChars)) == RawWords(segs)
  {
    hide Joins, JoinedTo, FirstOf, Capped, AllWords, RawWords;
    TimeMergeWords(segs, target, maxSeconds, maxChars);
    if segs != [] {
      var n := |segs| - 1;
      var s := segs[n];
      TimeMergeKeeps(segs[..n], target, maxSeconds, maxChars);
      var front := TimeMerged(segs[..n], target, maxSeconds, maxChars);
      MoreSegments(front, segs[..n], segs, maxSeconds, maxChars);
      if front != [] && Joins(front[|front| - 1], s, target, maxSeconds, maxChars) {
        JoinedIsCapped(front[|front| - 1], s, segs, target, maxSeconds, maxChars);
      } else {
        SingleIsCapped(s, segs, |front|, maxSeconds, maxChars);
      }
    }
  }

  lemma SingleIsCapped(s: Segment, segs: seq<Segment>, id: nat, maxSeconds: real, maxChars: int)
    requires s in segs
    ensures Capped(FirstOf(s, id), segs, maxSeconds, maxChars) && FirstOf(s, id).id == id
  {
    assert FirstOf(s, id) == FirstOf(s, FirstOf(s, id).id);
  }

  lemma StripShortens(s: string)
    ensures |Text.Strip(s)| <= |s|
  {
    LStripShortens(s);
    RStripShortens(Text.LStrip(s));
  }

  lemma {:induction false} LStripShortens(s: string)
    ensures |Text.LStrip(s)| <= |s|
  {
    if s != "" {
      LStripShortens(s[1..]);
    }
  }

  lemma {:induction false} RStripShortens(s: string)
    ensures |Text.RStrip(s)| <= |s|
  {
    if s != "" {
      RStripShortens(s[..|s| - 1]);
    }
  }
}

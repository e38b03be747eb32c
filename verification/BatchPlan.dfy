/** Translation batches: the plan, stored versions, parsed replies, and the assembled narration. */
module BatchPlan {
  import opened Options
  import KeySort
  import Text

  // ---------- replies of exactly the expected length ----------

  /** One element of the reply's `cues` list; `n` is None when it is absent or not a number. */
  datatype Entry = Item(n: Option<int>, text: string) | NotADict

  /**
   What the reply turns out to be: JSON with a `cues` list, or one of the ways
   to fall back to the cleaned lines: JSON without that list, JSON that could
   not be taken apart, or none at all.
   */
  datatype Reply =
    | Cues(entries: seq<Entry>)
    | NoCueList(rows: seq<string>)
    | BadJson(rows: seq<string>)
    | NoJson(rows: seq<string>)

  datatype Warning = ParseFailed | PlainFallback | PaddedLines(count: nat) | TrimmedLines(count: nat)

  function KeyOf(e: Entry, idx: nat): int {
    if e.Item? && e.n.Some? then e.n.value else idx + 1
  }

  function Pairs(entries: seq<Entry>): seq<(int, string)> {
    if entries == [] then []
    else
      var i := |entries| - 1;
      Pairs(entries[..i]) + if entries[i].Item? then [(KeyOf(entries[i], i), Text.Strip(entries[i].text))] else []
  }

  function Texts(pairs: seq<(int, string)>): (r: seq<string>)
    ensures |r| == |pairs| && forall i | 0 <= i < |r| :: r[i] == pairs[i].1
  {
    seq(|pairs|, i requires 0 <= i < |pairs| => pairs[i].1)
  }

  /** The reply's lines before their number is enforced. */
  function Proposed(reply: Reply): seq<string> {
    match reply
    case Cues(entries) => Texts(KeySort.Sort(Pairs(entries)))
    case NoCueList(rows) => rows
    case BadJson(rows) => rows
    case NoJson(rows) => rows
  }

  /** `parse_cue_response`, given the parsed JSON list or the cleaned fallback lines. */
  method ParseCueResponse(reply: Reply, expected: nat) returns (lines: seq<string>, warnings: seq<Warning>)
    ensures |lines| == expected
    ensures forall i | 0 <= i < expected :: lines[i] == if i < |Proposed(reply)| then Proposed(reply)[i] else ""
    ensures warnings == (if reply.BadJson? then [ParseFailed] else if reply.NoJson? then [PlainFallback] else [])
      + (if |Proposed(reply)| < expected then [PaddedLines(expected - |Proposed(reply)|)]
         else if |Proposed(reply)| > expected then [TrimmedLines(|Proposed(reply)| - expected)] else [])
  {
    warnings := [];
    match reply {
      case Cues(entries) =>
        var pairs: seq<(int, string)> := [];
        for i := 0 to |entries|
          invariant pairs == Pairs(entries[..i])
        {
          assert entries[..i + 1][..i] == entries[..i];
          if entries[i].Item? {
            pairs := pairs + [(KeyOf(entries[i], i), Text.Strip(entries[i].text))];
          }
        }
        assert entries[..|entries|] == entries;
        lines := Texts(KeySort.Sort(pairs));
      case NoCueList(rows) =>
        lines := rows;
      case BadJson(rows) =>
        warnings := warnings + [ParseFailed];
        lines := rows;
      case NoJson(rows) =>
        lines := rows;
        warnings := warnings + [PlainFallback];
    }
    if |lines| < expected {
      warnings := warnings + [PaddedLines(expected - |lines|)];
      lines := lines + seq(expected - |lines|, _ => "");
    } else if |lines| > expected {
      warnings := warnings + [TrimmedLines(|lines| - expected)];
      lines := lines[..expected];
    }
  }

  lemma {:induction false} PairsOfItems(entries: seq<Entry>)
    requires forall i | 0 <= i < |entries| :: entries[i].Item?
    ensures |Pairs(entries)| == |entries|
    ensures forall i | 0 <= i < |entries| :: Pairs(entries)[i] == (KeyOf(entries[i], i), Text.Strip(entries[i].text))
  {
    if entries != [] {
      PairsOfItems(entries[..|entries| - 1]);
    }
  }

  lemma SortedAt(pairs: seq<(int, string)>, i: nat)
    requires KeySort.DistinctKeys(pairs) && i < |pairs|
    requires forall j | 0 <= j < |pairs| :: 1 <= pairs[j].0 < 1 + |pairs|
    ensures KeySort.Sort(pairs)[pairs[i].0 - 1] == pairs[i]
  {
    hide KeySort.Sort;
    var sorted := KeySort.Sort(pairs);
    KeySort.SortIsSorted(pairs);
    KeySort.SameMultisetDistinct(pairs, sorted);
    forall j | 0 <= j < |sorted| ensures 1 <= sorted[j].0 < 1 + |sorted| {
      assert sorted[j] in multiset(pairs);
    }
    assert pairs[i] in multiset(sorted);
    var at :| 0 <= at < |sorted| && sorted[at] == pairs[i];
    KeySort.KeysAreRange(sorted, 1, at);
  }

  /** When every entry has a number and the numbers are 1..n in whatever order, line m is the text numbered m. */
  lemma NumberedInAnyOrder(entries: seq<Entry>, i: nat)
    requires forall j | 0 <= j < |entries| :: entries[j].Item? && entries[j].n.Some? && 1 <= entries[j].n.value <= |entries|
    requires forall j, k | 0 <= j < k < |entries| :: entries[j].n.value != entries[k].n.value
    requires i < |entries|
    ensures |Proposed(Cues(entries))| == |entries|
    ensures Proposed(Cues(entries))[entries[i].n.value - 1] == Text.Strip(entries[i].text)
  {
    hide KeySort.Sort, Text.Strip, Pairs;
    PairsOfItems(entries);
    SortedAt(Pairs(entries), i);
  }

  /** Without numbers the lines keep the order of the list. */
  lemma UnnumberedInOrder(entries: seq<Entry>, i: nat)
    requires forall j | 0 <= j < |entries| :: entries[j].Item? && entries[j].n.None?
    requires i < |entries|
    ensures |Proposed(Cues(entries))| == |entries| && Proposed(Cues(entries))[i] == Text.Strip(entries[i].text)
  {
    PairsOfItems(entries);
    KeySort.SortOfAscending(Pairs(entries));
  }

  // ---------- any mixture of numbered and unnumbered entries ----------

  /** The dictionaries of the list: their number, or position counted from one, and their position. */
  function Tagged(entries: seq<Entry>): (tags: seq<(int, nat)>)
    ensures forall t | t in tags :: t.1 < |entries|
  {
    if entries == [] then []
    else
      var i := |entries| - 1;
      Tagged(entries[..i]) +
        if entries[i].Item? then [(if entries[i].n.Some? then entries[i].n.value else i + 1, i as nat)] else []
  }

  lemma {:induction false} TaggedAre(entries: seq<Entry>, k: nat)
    requires k < |Tagged(entries)|
    ensures var t := Tagged(entries)[k];
      && t.1 < |entries| && entries[t.1].Item?
      && t.0 == (if entries[t.1].n.Some? then entries[t.1].n.value else t.1 + 1)
      && (k > 0 ==> Tagged(entries)[k - 1].1 < t.1)
  {
    var i := |entries| - 1;
    var front := Tagged(entries[..i]);
    if k < |front| {
      TaggedAre(entries[..i], k);
    } else if k > 0 {
      assert front[k - 1] in front;
    }
  }

  lemma {:induction false} AllTagged(entries: seq<Entry>, p: nat)
    requires p < |entries| && entries[p].Item?
    ensures exists k :: 0 <= k < |Tagged(entries)| && Tagged(entries)[k].1 == p
  {
    var i := |entries| - 1;
    var front := Tagged(entries[..i]);
    if p < i {
      AllTagged(entries[..i], p);
      var k :| 0 <= k < |front| && front[k].1 == p;
      assert Tagged(entries)[k] == front[k];
    } else {
      assert Tagged(entries)[|front|].1 == p;
    }
  }

  /** `pairs` hold the texts of the entries that `tags` point at, under the same keys. */
  ghost predicate Texted(entries: seq<Entry>, tags: seq<(int, nat)>, pairs: seq<(int, string)>) {
    |tags| == |pairs| && forall k | 0 <= k < |tags| :: TextOf(entries, tags[k], pairs[k])
  }

  ghost predicate TextOf(entries: seq<Entry>, t: (int, nat), p: (int, string)) {
    t.1 < |entries| && entries[t.1].Item? && p == (t.0, Text.Strip(entries[t.1].text))
  }

  lemma {:induction false} PairsAreTexted(entries: seq<Entry>, n: nat)
    requires n <= |entries|
    ensures Texted(entries, Tagged(entries[..n]), Pairs(entries[..n]))
  {
    hide Text.Strip;
    if n > 0 {
      PairsAreTexted(entries, n - 1);
      assert entries[..n][..n - 1] == entries[..n - 1];
    }
  }

  lemma {:induction false} InsertTexted(entries: seq<Entry>, t: (int, nat), p: (int, string), tags: seq<(int, nat)>, pairs: seq<(int, string)>)
    requires TextOf(entries, t, p) && Texted(entries, tags, pairs)
    ensures Texted(entries, KeySort.Insert<nat>(t, tags), KeySort.Insert(p, pairs))
  {
    hide Text.Strip;
    if tags != [] {
      assert TextOf(entries, tags[0], pairs[0]);
      if tags[0].0 < t.0 {
        InsertTexted(entries, t, p, tags[1..], pairs[1..]);
      }
    }
  }

  lemma {:induction false} SortTexted(entries: seq<Entry>, tags: seq<(int, nat)>, pairs: seq<(int, string)>)
    requires Texted(entries, tags, pairs)
    ensures Texted(entries, KeySort.Sort<nat>(tags), KeySort.Sort(pairs))
  {
    hide TextOf;
    if tags != [] {
      SortTexted(entries, tags[1..], pairs[1..]);
      InsertTexted(entries, tags[0], pairs[0], KeySort.Sort<nat>(tags[1..]), KeySort.Sort(pairs[1..]));
    }
  }

  predicate TagBefore(a: (int, nat), b: (int, nat)) {
    a.0 < b.0 || (a.0 == b.0 && a.1 < b.1)
  }

  ghost predicate TagsRise(tags: seq<(int, nat)>) {
    forall i, j | 0 <= i < j < |tags| :: TagBefore(tags[i], tags[j])
  }

  lemma {:induction false} InsertTag(t: (int, nat), tags: seq<(int, nat)>)
    requires TagsRise(tags) && forall j | 0 <= j < |tags| :: t.1 < tags[j].1
    ensures TagsRise(KeySort.Insert<nat>(t, tags))
    ensures forall x | x in KeySort.Insert<nat>(t, tags) :: x == t || x in tags
  {
    if tags != [] && tags[0].0 < t.0 {
      InsertTag(t, tags[1..]);
      var rest: seq<(int, nat)> := KeySort.Insert<nat>(t, tags[1..]);
      forall j | 0 <= j < |rest| ensures TagBefore(tags[0], rest[j]) {
        assert rest[j] in rest;
      }
    }
  }

  lemma {:induction false} SortTags(tags: seq<(int, nat)>)
    requires forall i, j | 0 <= i < j < |tags| :: tags[i].1 < tags[j].1
    ensures TagsRise(KeySort.Sort<nat>(tags))
    ensures forall x :: x in KeySort.Sort<nat>(tags) <==> x in tags
  {
    if tags != [] {
      var rest: seq<(int, nat)> := KeySort.Sort<nat>(tags[1..]);
      SortTags(tags[1..]);
      forall j | 0 <= j < |rest| ensures tags[0].1 < rest[j].1 {
        assert rest[j] in tags[1..];
      }
      InsertTag(tags[0], rest);
      KeySort.SortIsSorted<nat>(tags);
      SameMembers<(int, nat)>(tags, KeySort.Sort<nat>(tags));
    }
  }

  lemma SameMembers<T>(a: seq<T>, b: seq<T>)
    requires multiset(a) == multiset(b)
    ensures forall x :: x in b <==> x in a
  {
    assert forall x :: x in b <==> x in multiset(b);
  }

  /**
   The lines of any list: each dictionary gives one line, ordered by its own
   number, or by its position counted from one when it has none, and those with
   the same number in the order of the list.
   */
  lemma LinesInOrder(entries: seq<Entry>) returns (order: seq<nat>)
    ensures |order| == |Proposed(Cues(entries))|
    ensures forall k | 0 <= k < |order| ::
      order[k] < |entries| && entries[order[k]].Item? && Proposed(Cues(entries))[k] == Text.Strip(entries[order[k]].text)
    ensures forall p: nat | p < |entries| && entries[p].Item? :: p in order
    ensures forall j, k | 0 <= j < k < |order| ::
      var a := if entries[order[j]].n.Some? then entries[order[j]].n.value else order[j] + 1;
      var b := if entries[order[k]].n.Some? then entries[order[k]].n.value else order[k] + 1;
      a < b || (a == b && order[j] < order[k])
  {
    hide Text.Strip, Pairs, SortedTags, Proposed, TextOf;
    var sorted: seq<(int, nat)> := SortedTags(entries);
    order := seq(|sorted|, k requires 0 <= k < |sorted| => sorted[k].1);
    SortedTagsRise(entries);
    SortedTagsText(entries);
    forall k | 0 <= k < |order|
      ensures order[k] < |entries| && entries[order[k]].Item?
      ensures sorted[k].0 == if entries[order[k]].n.Some? then entries[order[k]].n.value else order[k] + 1
      ensures Proposed(Cues(entries))[k] == Text.Strip(entries[order[k]].text)
    {
      SortedTag(entries, k);
    }
    forall p: nat | p < |entries| && entries[p].Item? ensures p in order {
      var k := SortedHas(entries, p);
      assert order[k] == p;
    }
    forall j, k | 0 <= j < k < |order| ensures TagBefore(sorted[j], sorted[k]) {
    }
  }

  function SortedTags(entries: seq<Entry>): seq<(int, nat)> {
    KeySort.Sort<nat>(Tagged(entries))
  }

  lemma SortedTagsRise(entries: seq<Entry>)
    ensures TagsRise(SortedTags(entries))
    ensures forall x :: x in SortedTags(entries) <==> x in Tagged(entries)
  {
    TagsAscend(entries);
    SortTags(Tagged(entries));
  }

  lemma SortedTagsText(entries: seq<Entry>)
    ensures |SortedTags(entries)| == |Proposed(Cues(entries))|
    ensures forall k | 0 <= k < |SortedTags(entries)| ::
      SortedTags(entries)[k].1 < |entries| && entries[SortedTags(entries)[k].1].Item?
      && Proposed(Cues(entries))[k] == Text.Strip(entries[SortedTags(entries)[k].1].text)
  {
    hide KeySort.Sort, Text.Strip;
    assert entries[..|entries|] == entries;
    PairsAreTexted(entries, |entries|);
    SortTexted(entries, Tagged(entries), Pairs(entries));
    var sorted, pairs := SortedTags(entries), KeySort.Sort(Pairs(entries));
    forall k | 0 <= k < |sorted| ensures TextOf(entries, sorted[k], pairs[k]) {
    }
  }

  lemma SortedTag(entries: seq<Entry>, k: nat)
    requires k < |SortedTags(entries)|
    ensures var t := SortedTags(entries)[k];
      && t.1 < |entries| && entries[t.1].Item?
      && t.0 == if entries[t.1].n.Some? then entries[t.1].n.value else t.1 + 1
  {
    hide Tagged, KeySort.Sort;
    SortedTagsRise(entries);
    var t, tags := SortedTags(entries)[k], Tagged(entries);
    assert t in tags;
    var i :| 0 <= i < |tags| && tags[i] == t;
    TaggedAre(entries, i);
  }

  lemma SortedHas(entries: seq<Entry>, p: nat) returns (k: nat)
    requires p < |entries| && entries[p].Item?
    ensures k < |SortedTags(entries)| && SortedTags(entries)[k].1 == p
  {
    hide Tagged, KeySort.Sort;
    SortedTagsRise(entries);
    AllTagged(entries, p);
    var tags, sorted := Tagged(entries), SortedTags(entries);
    var i :| 0 <= i < |tags| && tags[i].1 == p;
    assert tags[i] in sorted;
    k :| 0 <= k < |sorted| && sorted[k] == tags[i];
  }

  lemma {:induction false} TagsAscend(entries: seq<Entry>)
    ensures forall i, j | 0 <= i < j < |Tagged(entries)| :: Tagged(entries)[i].1 < Tagged(entries)[j].1
  {
    var tags: seq<(int, nat)> := Tagged(entries);
    forall i, j | 0 <= i < j < |tags| ensures tags[i].1 < tags[j].1 {
      TagLess(entries, i, j);
    }
  }

  lemma {:induction false} TagLess(entries: seq<Entry>, i: nat, j: nat)
    requires i < j < |Tagged(entries)|
    ensures Tagged(entries)[i].1 < Tagged(entries)[j].1
    decreases j
  {
    TaggedAre(entries, j);
    if i < j - 1 {
      TagLess(entries, i, j - 1);
    }
  }

  // ---------- the plan ----------

  datatype Batch = Batch(
    batch: int, lo: nat, hi: nat, count: int, status: string, activeVersion: int, provider: string, model: string, error: string)

  /** Batches 1, 2, ... are non-empty, follow each other without gap from 0 and end at `n`. */
  ghost predicate Partition(batches: seq<Batch>, n: nat) {
    if batches == [] then n == 0
    else
      var last := batches[|batches| - 1];
      && last.batch == |batches| && last.lo < last.hi == n && last.count == n - last.lo
      && Partition(batches[..|batches| - 1], last.lo)
  }

  lemma {:induction false} PartitionAt(batches: seq<Batch>, n: nat, k: nat)
    requires Partition(batches, n) && k < |batches|
    ensures batches[k].batch == k + 1 && batches[k].lo < batches[k].hi <= n && batches[k].count == batches[k].hi - batches[k].lo
    ensures batches[k].lo == if k == 0 then 0 else batches[k - 1].hi
  {
    var last := |batches| - 1;
    if k < last {
      PartitionAt(batches[..last], batches[last].lo, k);
    } else if k > 0 {
      PartitionAt(batches[..last], batches[last].lo, k - 1);
    }
  }

  /** In a partition every cue lies in exactly one batch. */
  lemma {:induction false} CueInOneBatch(batches: seq<Batch>, n: nat, cue: nat)
    requires Partition(batches, n) && cue < n
    ensures exists k :: 0 <= k < |batches| && batches[k].lo <= cue < batches[k].hi
  {
    var last := |batches| - 1;
    var front := batches[..last];
    if cue < batches[last].lo {
      CueInOneBatch(front, batches[last].lo, cue);
      var k :| 0 <= k < |front| && front[k].lo <= cue < front[k].hi;
      assert batches[k] == front[k];
    }
  }

  lemma {:induction false} BatchesApart(batches: seq<Batch>, n: nat, j: nat, k: nat)
    requires Partition(batches, n) && j < k < |batches|
    ensures batches[j].hi <= batches[k].lo
    decreases k - j
  {
    PartitionAt(batches, n, k);
    if j < k - 1 {
      BatchesApart(batches, n, j, k - 1);
      PartitionAt(batches, n, k - 1);
    }
  }

  /** Rounding the batch size up leaves no cue over. */
  lemma EnoughRoom(n: nat, parts: int)
    requires parts >= 1
    ensures parts * ((n + parts - 1) / parts) >= n
  {
    var all := n + parts - 1;
    assert all == parts * (all / parts) + all % parts;
  }

  // ---------- stored versions ----------

  function Versions(files: map<(int, int), seq<string>>, batch: int): set<int> {
    set k | k in files && k.0 == batch :: k.1
  }

  /** The stored versions of every batch are 1, 2, ... without a gap. */
  ghost predicate Numbered(files: map<(int, int), seq<string>>) {
    forall b, v :: v in Versions(files, b) <==> 1 <= v <= |Versions(files, b)|
  }

  lemma VersionAdded(files: map<(int, int), seq<string>>, batch: int, lines: seq<string>)
    requires Numbered(files)
    ensures var ver := |Versions(files, batch)| + 1; (batch, ver) !in files && Numbered(files[(batch, ver) := lines])
  {
    hide Versions;
    var ver := |Versions(files, batch)| + 1;
    var more := files[(batch, ver) := lines];
    InVersions(files, batch, ver);
    assert ver !in Versions(files, batch);
    forall b, v ensures v in Versions(more, b) <==> 1 <= v <= |Versions(more, b)| {
      VersionsAfter(files, batch, ver, lines, b);
    }
  }

  lemma InVersions(files: map<(int, int), seq<string>>, batch: int, ver: int)
    ensures ver in Versions(files, batch) <==> (batch, ver) in files
  {
    if (batch, ver) in files {
      assert (batch, ver).1 in Versions(files, batch);
    }
  }

  lemma VersionsAfter(files: map<(int, int), seq<string>>, batch: int, ver: int, lines: seq<string>, b: int)
    ensures Versions(files[(batch, ver) := lines], b) == if b == batch then Versions(files, b) + {ver} else Versions(files, b)
  {
    hide Versions;
    var more := files[(batch, ver) := lines];
    forall v ensures v in Versions(more, b) <==> v in Versions(files, b) || (b == batch && v == ver) {
      InVersions(more, b, v);
      InVersions(files, b, v);
    }
  }

  // ---------- assembling ----------

  /** The lines of a batch's active version, when it has one. */
  function ActiveLines(b: Batch, files: map<(int, int), seq<string>>): Option<seq<string>> {
    if b.activeVersion != 0 && (b.batch, b.activeVersion) in files then Some(files[(b.batch, b.activeVersion)]) else None
  }

  function Gathered(batches: seq<Batch>, files: map<(int, int), seq<string>>): seq<string> {
    if batches == [] then []
    else
      var last := batches[|batches| - 1];
      Gathered(batches[..|batches| - 1], files) + if ActiveLines(last, files).Some? then ActiveLines(last, files).value else []
  }

  /** Every active version holds one line per cue of its batch. */
  ghost predicate RightLengths(batches: seq<Batch>, files: map<(int, int), seq<string>>) {
    forall k | 0 <= k < |batches| ::
      ActiveLines(batches[k], files).Some? ==> |ActiveLines(batches[k], files).value| == batches[k].count
  }

  ghost predicate AllActive(batches: seq<Batch>, files: map<(int, int), seq<string>>) {
    forall k | 0 <= k < |batches| :: ActiveLines(batches[k], files).Some?
  }

  /** The narration has a line for every cue exactly when every batch has its active version. */
  lemma {:induction false} OneLinePerCue(batches: seq<Batch>, n: nat, files: map<(int, int), seq<string>>)
    requires Partition(batches, n) && RightLengths(batches, files)
    ensures |Gathered(batches, files)| <= n
    ensures |Gathered(batches, files)| == n <==> AllActive(batches, files)
  {
    hide ActiveLines;
    if batches != [] {
      var last := |batches| - 1;
      var front := batches[..last];
      assert RightLengths(front, files) by {
        assert forall k | 0 <= k < |front| :: front[k] == batches[k];
      }
      OneLinePerCue(front, batches[last].lo, files);
      AllActiveSplits(batches, files);
    }
  }

  lemma AllActiveSplits(batches: seq<Batch>, files: map<(int, int), seq<string>>)
    requires batches != []
    ensures AllActive(batches, files) <==>
      AllActive(batches[..|batches| - 1], files) && ActiveLines(batches[|batches| - 1], files).Some?
  {
    hide ActiveLines;
    var front := batches[..|batches| - 1];
    if AllActive(front, files) && ActiveLines(batches[|batches| - 1], files).Some? {
      forall k | 0 <= k < |batches| ensures ActiveLines(batches[k], files).Some? {
        if k < |front| {
          assert front[k] == batches[k];
        }
      }
    }
  }

  /** And then cue `lo + offset` of a batch gets the batch's line at that offset. */
  lemma {:induction false} LineOfCue(batches: seq<Batch>, n: nat, files: map<(int, int), seq<string>>, k: nat, offset: nat)
    requires Partition(batches, n) && RightLengths(batches, files) && AllActive(batches, files)
    requires k < |batches| && offset < batches[k].count
    ensures |Gathered(batches, files)| == n && batches[k].lo + offset < n
    ensures Gathered(batches, files)[batches[k].lo + offset] == ActiveLines(batches[k], files).value[offset]
  {
    hide ActiveLines;
    OneLinePerCue(batches, n, files);
    var last := |batches| - 1;
    var front := batches[..last];
    assert RightLengths(front, files) && AllActive(front, files) by {
      assert forall j | 0 <= j < |front| :: front[j] == batches[j];
    }
    OneLinePerCue(front, batches[last].lo, files);
    if k < last {
      LineOfCue(front, batches[last].lo, files, k, offset);
    }
  }

  /** Cues of the first `k` batches that have no active version. */
  function Missing(batches: seq<Batch>, files: map<(int, int), seq<string>>, k: nat): nat
    requires k <= |batches|
  {
    if k == 0 then 0
    else
      var b := batches[k - 1];
      Missing(batches, files, k - 1) + if ActiveLines(b, files).None? && b.count > 0 then b.count else 0
  }

  lemma {:induction false} MissingOfFront(batches: seq<Batch>, files: map<(int, int), seq<string>>, m: nat, k: nat)
    requires k <= m <= |batches|
    ensures Missing(batches[..m], files, k) == Missing(batches, files, k)
  {
    hide ActiveLines;
    if k > 0 {
      MissingOfFront(batches, files, m, k - 1);
    }
  }

  lemma {:induction false} GatheredLength(batches: seq<Batch>, n: nat, files: map<(int, int), seq<string>>)
    requires Partition(batches, n) && RightLengths(batches, files)
    ensures |Gathered(batches, files)| + Missing(batches, files, |batches|) == n
  {
    hide ActiveLines;
    if batches != [] {
      var last := |batches| - 1;
      var front := batches[..last];
      assert RightLengths(front, files) by {
        assert forall k | 0 <= k < |front| :: front[k] == batches[k];
      }
      GatheredLength(front, batches[last].lo, files);
      MissingOfFront(batches, files, last, last);
    }
  }

  /** Where the lines of an active batch land, whatever is missing: moved up by the cues missing before it. */
  lemma {:induction false} LineLands(batches: seq<Batch>, n: nat, files: map<(int, int), seq<string>>, k: nat, offset: nat)
    requires Partition(batches, n) && RightLengths(batches, files)
    requires k < |batches| && ActiveLines(batches[k], files).Some? && offset < batches[k].count
    ensures var at := batches[k].lo + offset - Missing(batches, files, k);
      0 <= at < |Gathered(batches, files)| && Gathered(batches, files)[at] == ActiveLines(batches[k], files).value[offset]
  {
    hide ActiveLines;
    var last := |batches| - 1;
    var front := batches[..last];
    assert RightLengths(front, files) by {
      assert forall j | 0 <= j < |front| :: front[j] == batches[j];
    }
    GatheredLength(front, batches[last].lo, files);
    MissingOfFront(batches, files, last, k);
    if k < last {
      LineLands(front, batches[last].lo, files, k, offset);
    }
  }

  /** What a batch contributes is the stored version its own entry names. */
  lemma ActiveIsNamed(b: Batch, files: map<(int, int), seq<string>>)
    ensures ActiveLines(b, files).Some? <==> b.activeVersion != 0 && (b.batch, b.activeVersion) in files
    ensures ActiveLines(b, files).Some? ==> ActiveLines(b, files).value == files[(b.batch, b.activeVersion)]
  {
  }

  /** An active batch's lines are in place exactly when no earlier batch is missing. */
  lemma {:induction false} InPlaceIff(batches: seq<Batch>, n: nat, files: map<(int, int), seq<string>>, k: nat)
    requires Partition(batches, n) && k <= |batches|
    ensures Missing(batches, files, k) == 0 <==> forall j | 0 <= j < k :: ActiveLines(batches[j], files).Some?
  {
    hide ActiveLines, Partition;
    if k > 0 {
      InPlaceIff(batches, n, files, k - 1);
      PartitionAt(batches, n, k - 1);
    }
  }

  function Keyed(batches: seq<Batch>): (r: seq<(int, Batch)>)
    ensures |r| == |batches| && forall k | 0 <= k < |r| :: r[k] == (batches[k].batch, batches[k])
  {
    seq(|batches|, k requires 0 <= k < |batches| => (batches[k].batch, batches[k]))
  }

  function Values(pairs: seq<(int, Batch)>): (r: seq<Batch>)
    ensures |r| == |pairs| && forall k | 0 <= k < |r| :: r[k] == pairs[k].1
  {
    seq(|pairs|, k requires 0 <= k < |pairs| => pairs[k].1)
  }

  /** `sorted(plan["batches"], key=batch)` */
  function InOrder(batches: seq<Batch>): seq<Batch> {
    Values(KeySort.Sort(Keyed(batches)))
  }

  lemma PartitionInOrder(batches: seq<Batch>, n: nat)
    requires Partition(batches, n)
    ensures InOrder(batches) == batches
  {
    hide Partition;
    forall k | 0 <= k < |batches| ensures batches[k].batch == k + 1 {
      PartitionAt(batches, n, k);
    }
    KeySort.SortOfAscending(Keyed(batches));
  }

  // ---------- the manager ----------

  /** What `mark` may set. */
  datatype Fields = Fields(
    status: Option<string>, activeVersion: Option<int>, provider: Option<string>, model: Option<string>, error: Option<string>)

  function Or<T>(new_: Option<T>, was: T): T {
    if new_.Some? then new_.value else was
  }

  function Updated(b: Batch, f: Fields): Batch {
    b.(status := Or(f.status, b.status), activeVersion := Or(f.activeVersion, b.activeVersion),
       provider := Or(f.provider, b.provider), model := Or(f.model, b.model), error := Or(f.error, b.error))
  }

  function AllUpdated(batches: seq<Batch>, batchNo: int, f: Fields): (r: seq<Batch>)
    ensures |r| == |batches|
    ensures forall k | 0 <= k < |r| :: r[k] == if batches[k].batch == batchNo then Updated(batches[k], f) else batches[k]
  {
    seq(|batches|, k requires 0 <= k < |batches| => if batches[k].batch == batchNo then Updated(batches[k], f) else batches[k])
  }

  /** Marking sets the given fields of the named batch and nothing else. */
  lemma MarkMeans(batches: seq<Batch>, batchNo: int, f: Fields, k: nat)
    requires k < |batches|
    ensures var was, now := batches[k], AllUpdated(batches, batchNo, f)[k];
      if was.batch != batchNo then now == was
      else
        && (now.batch, now.lo, now.hi, now.count) == (was.batch, was.lo, was.hi, was.count)
        && (f.status.Some? ==> now.status == f.status.value) && (f.status.None? ==> now.status == was.status)
        && (f.activeVersion.Some? ==> now.activeVersion == f.activeVersion.value)
        && (f.activeVersion.None? ==> now.activeVersion == was.activeVersion)
        && (f.provider.Some? ==> now.provider == f.provider.value) && (f.provider.None? ==> now.provider == was.provider)
        && (f.model.Some? ==> now.model == f.model.value) && (f.model.None? ==> now.model == was.model)
        && (f.error.Some? ==> now.error == f.error.value) && (f.error.None? ==> now.error == was.error)
  {
  }

  /** Marking never moves a boundary. */
  lemma {:induction false} MarkKeepsPartition(batches: seq<Batch>, n: nat, batchNo: int, f: Fields)
    requires Partition(batches, n)
    ensures Partition(AllUpdated(batches, batchNo, f), n)
  {
    if batches != [] {
      var last := |batches| - 1;
      MarkKeepsPartition(batches[..last], batches[last].lo, batchNo, f);
      assert AllUpdated(batches, batchNo, f)[..last] == AllUpdated(batches[..last], batchNo, f);
    }
  }

  /** Storing one more version and making it active completes its batch and leaves the others' lines alone. */
  lemma VersionActivated(batches: seq<Batch>, files: map<(int, int), seq<string>>, k: nat, n: nat, lines: seq<string>, f: Fields)
    requires Partition(batches, n) && Numbered(files) && RightLengths(batches, files)
    requires k < |batches| && |lines| == batches[k].count
    requires f.activeVersion == Some(|Versions(files, k + 1)| + 1)
    ensures var more := files[(k + 1, |Versions(files, k + 1)| + 1) := lines];
      var marked := AllUpdated(batches, k + 1, f);
      && Partition(marked, n) && Numbered(more) && RightLengths(marked, more)
      && ActiveLines(marked[k], more) == Some(lines)
      && forall j | 0 <= j < |batches| && j != k :: ActiveLines(marked[j], more) == ActiveLines(batches[j], files)
  {
    hide Numbered, Versions, Partition, RightLengths;
    VersionAdded(files, k + 1, lines);
    MarkKeepsPartition(batches, n, k + 1, f);
    var more, marked := files[(k + 1, |Versions(files, k + 1)| + 1) := lines], AllUpdated(batches, k + 1, f);
    PartitionAt(batches, n, k);
    forall j | 0 <= j < |batches| && j != k ensures ActiveLines(marked[j], more) == ActiveLines(batches[j], files) {
      PartitionAt(batches, n, j);
    }
    LengthsStayRight(batches, files, marked, more, k, lines);
  }

  lemma LengthsStayRight(batches: seq<Batch>, files: map<(int, int), seq<string>>, marked: seq<Batch>, more: map<(int, int), seq<string>>, k: nat, lines: seq<string>)
    requires RightLengths(batches, files) && |marked| == |batches| && k < |batches|
    requires forall j | 0 <= j < |batches| && j != k :: ActiveLines(marked[j], more) == ActiveLines(batches[j], files)
    requires forall j | 0 <= j < |batches| :: marked[j].count == batches[j].count
    requires ActiveLines(marked[k], more) == Some(lines) && |lines| == batches[k].count
    ensures RightLengths(marked, more)
  {
    hide ActiveLines;
    forall j | 0 <= j < |marked|
      ensures ActiveLines(marked[j], more).Some? ==> |ActiveLines(marked[j], more).value| == marked[j].count
    {
      if j != k {
        assert ActiveLines(marked[j], more) == ActiveLines(batches[j], files);
      }
    }
  }

  function Product(b: nat, per: nat): nat {
    b * per
  }

  lemma Edges(b: nat, per: nat)
    ensures Product(b + 1, per) == Product(b, per) + per && Product(0, per) == 0
  {
  }

  lemma ReachesEnd(n: nat, parts: nat, per: nat)
    requires parts >= 1 && per == if (n + parts - 1) / parts < 1 then 1 else (n + parts - 1) / parts
    ensures Product(parts, per) >= n
  {
    EnoughRoom(n, parts);
    if (n + parts - 1) / parts < 1 {
      assert n == 0;
    }
  }

  /** The cues per batch, rounded up. */
  function PerBatch(n: nat, parts: int): nat
    requires parts >= 1
  {
    var per := (n + parts - 1) / parts;
    if per < 1 then 1 else per
  }

  /** It is the least number of cues at which the batches suffice. */
  lemma PerBatchIsLeast(n: nat, parts: int)
    requires parts >= 1
    ensures parts * PerBatch(n, parts) >= n && PerBatch(n, parts) >= 1
    ensures PerBatch(n, parts) > 1 ==> parts * (PerBatch(n, parts) - 1) < n
  {
    EnoughRoom(n, parts);
    var all := n + parts - 1;
    assert all == parts * (all / parts) + all % parts;
    if PerBatch(n, parts) > 1 {
      assert parts * (all / parts - 1) == parts * (all / parts) - parts;
    } else if all / parts < 1 {
      assert n == 0;
    }
  }

  /** Every batch is full, except perhaps the one that reaches the end. */
  ghost predicate Full(batches: seq<Batch>, n: nat, per: nat) {
    forall k | 0 <= k < |batches| :: batches[k].count <= per && (batches[k].hi < n ==> batches[k].count == per)
  }

  /** The loop of `create_plan`. */
  method Split(n: nat, parts: nat) returns (batches: seq<Batch>)
    requires parts >= 1
    ensures |batches| <= parts && Partition(batches, n) && Full(batches, n, PerBatch(n, parts))
    ensures forall k | 0 <= k < |batches| :: batches[k].activeVersion == 0 && batches[k].status == "Pending"
  {
    hide Product, Partition;
    batches := [];
    var per := (n + parts - 1) / parts;
    if per < 1 {
      per := 1;
    }
    ReachesEnd(n, parts, per);
    Edges(0, per);
    NoBatches();
    ghost var done := 0;
    var b := 0;
    while b < parts
      invariant 0 <= b <= parts && |batches| == b && done == (if Product(b, per) < n then Product(b, per) else n)
      invariant Partition(batches, done) && Full(batches, n, per)
      invariant forall k | 0 <= k < b :: batches[k].activeVersion == 0 && batches[k].status == "Pending"
    {
      var lo, hi := Product(b, per), if Product(b + 1, per) < n then Product(b + 1, per) else n;
      Edges(b, per);
      if lo >= n {
        break;
      }
      var batch := Batch(b + 1, lo, hi, hi - lo, "Pending", 0, "", "", "");
      OneMoreBatch(batches, lo, hi, batch);
      batches := batches + [batch];
      done := hi;
      b := b + 1;
    }
  }

  lemma NoBatches()
    ensures Partition([], 0)
  {
  }

  class BatchManager {
    var plan: Option<seq<Batch>>
    var files: map<(int, int), seq<string>>   // (batch, version) -> lines

    ghost predicate Valid()
      reads this
    {
      Numbered(files)
    }

    constructor ()
      ensures Valid() && plan == None && files == map[]
    {
      plan, files := None, map[];
    }

    /** `create_plan`; zero batches is a division by zero, which leaves the stored plan alone. */
    method CreatePlan(n: nat, mainBatches: int) returns (ok: bool)
      modifies this
      ensures files == old(files) && ok == (mainBatches != 0)
      ensures !ok ==> plan == old(plan)
      ensures ok ==> plan.Some? && |plan.value| <= (if mainBatches < 0 then 0 else mainBatches)
      ensures mainBatches >= 1 ==> Partition(plan.value, n) && Full(plan.value, n, PerBatch(n, mainBatches))
      ensures ok ==> forall k | 0 <= k < |plan.value| :: plan.value[k].activeVersion == 0 && plan.value[k].status == "Pending"
    {
      if mainBatches == 0 {
        return false;
      }
      var batches: seq<Batch> := [];
      if mainBatches > 0 {
        batches := Split(n, mainBatches);
      }
      plan := Some(batches);
      return true;
    }

    /** `save_batch_version`: the next number; no stored version is overwritten. */
    method SaveBatchVersion(batchNo: int, lines: seq<string>) returns (ver: int)
      requires Valid()
      modifies this
      ensures Valid() && plan == old(plan)
      ensures ver == |Versions(old(files), batchNo)| + 1 && (batchNo, ver) !in old(files)
      ensures files == old(files)[(batchNo, ver) := lines]
    {
      VersionAdded(files, batchNo, lines);
      ver := |Versions(files, batchNo)| + 1;
      files := files[(batchNo, ver) := lines];
    }

    method Mark(batchNo: int, f: Fields)
      modifies this
      ensures files == old(files)
      ensures plan == if old(plan).None? then None else Some(AllUpdated(old(plan).value, batchNo, f))
    {
      if plan.None? {
        return;
      }
      var batches := plan.value;
      for k := 0 to |batches|
        invariant |batches| == |old(plan).value| && plan == old(plan) && files == old(files)
        invariant forall j | 0 <= j < k :: batches[j] == AllUpdated(old(plan).value, batchNo, f)[j]
        invariant forall j | k <= j < |batches| :: batches[j] == old(plan).value[j]
      {
        if batches[k].batch == batchNo {
          batches := batches[k := Updated(batches[k], f)];
        }
      }
      assert batches == AllUpdated(old(plan).value, batchNo, f);
      plan := Some(batches);
    }

    /** `assemble_adaptation`: one line per cue exactly when every batch has its active version. */
    method AssembleAdaptation() returns (lines: seq<string>)
      ensures plan.None? ==> lines == []
      ensures plan.Some? ==> lines == Gathered(InOrder(plan.value), files)
      ensures forall n: nat | plan.Some? && Partition(plan.value, n) && RightLengths(plan.value, files) ::
        |lines| == n <==> AllActive(plan.value, files)
    {
      hide InOrder, Partition, RightLengths, AllActive;
      lines := [];
      if plan.None? {
        return;
      }
      var batches := InOrder(plan.value);
      for k := 0 to |batches|
        invariant lines == Gathered(batches[..k], files)
      {
        assert batches[..k + 1][..k] == batches[..k];
        var ver := batches[k].activeVersion;
        if ver == 0 {
          continue;
        }
        if (batches[k].batch, ver) in files {
          lines := lines + files[(batches[k].batch, ver)];
        }
      }
      assert batches[..|batches|] == batches;
      forall n: nat | Partition(plan.value, n) && RightLengths(plan.value, files)
        ensures |lines| == n <==> AllActive(plan.value, files)
      {
        PartitionInOrder(plan.value, n);
        OneLinePerCue(plan.value, n, files);
      }
    }
  }

  lemma OneMoreBatch(batches: seq<Batch>, lo: nat, hi: nat, b: Batch)
    requires Partition(batches, lo) && lo < hi && b.batch == |batches| + 1 && b.lo == lo && b.hi == hi && b.count == hi - lo
    ensures Partition(batches + [b], hi)
  {
    assert (batches + [b])[..|batches|] == batches;
  }
}

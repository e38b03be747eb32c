/** SRT captions: printing, parsing and retiming from a timeline. */
module Srt {
  import opened Options
  import opened Text
  import opened Rounding
  import T = Timeline

  datatype SubCue = SubCue(idx: int, start: real, end: real, text: string)

  datatype Result = Ok(cues: seq<SubCue>) | ValueError

  /** A time in whole milliseconds, as it is printed. */
  function Millis(t: real): (ms: nat)
  {
    if t < 0.0 then 0
    else
      RoundIsMonotone(0.0, t * 1000.0);
      RoundOfInt(0);
      RoundHalfEven(t * 1000.0)
  }

  function Fmt(t: real): string {
    FmtMillis(Millis(t))
  }

  function FmtMillis(ms: nat): string {
    Padded(ms / 3600000, 2) + ":" + Padded(ms % 3600000 / 60000, 2) + ":" + Padded(ms % 60000 / 1000, 2)
      + "," + Padded(ms % 1000, 3)
  }

  function DotToComma(s: string): string {
    if s == "" then "" else [if s[0] == '.' then ',' else s[0]] + DotToComma(s[1..])
  }

  /** None where the source raises ValueError. */
  function ParseTs(s: string): Option<real> {
    var halves := SplitOn(DotToComma(Strip(s)), ",");
    if |halves| != 2 then None
    else
      var hms := SplitOn(halves[0], ":");
      if |hms| != 3 then None
      else
        match (ParseInt(hms[0]), ParseInt(hms[1]), ParseInt(hms[2]), ParseInt(halves[1]))
        case (Some(h), Some(m), Some(sec), Some(ms)) =>
          Some((h * 3600 + m * 60 + sec) as real + ms as real / 1000.0)
        case _ => None
  }

  // ---------- write ----------

  function TimesRow(c: SubCue): string {
    Fmt(c.start) + " --> " + Fmt(c.end)
  }

  function RowsOf(c: SubCue, i: nat): seq<string> {
    [Decimal(i), TimesRow(c), Strip(c.text), ""]
  }

  /** The rows of the cues, numbered from `i`. */
  function AllRows(cues: seq<SubCue>, i: nat): seq<string> {
    if cues == [] then [] else RowsOf(cues[0], i) + AllRows(cues[1..], i + 1)
  }

  method WriteSrt(cues: seq<SubCue>) returns (file: string)
    ensures file == Join(AllRows(cues, 1))
  {
    hide Padded, Millis, FmtMillis, Join, Strip, Decimal;
    var lines: seq<string> := [];
    for k := 0 to |cues|
      invariant lines + AllRows(cues[k..], k + 1) == AllRows(cues, 1)
    {
      var c := cues[k];
      ghost var before := lines;
      assert cues[k..][0] == c && cues[k..][1..] == cues[k + 1..];
      lines := lines + [Decimal(k + 1)];
      lines := lines + [Fmt(c.start) + " --> " + Fmt(c.end)];
      lines := lines + [Strip(c.text)];
      lines := lines + [""];
      assert lines + AllRows(cues[k + 1..], k + 2) == before + (RowsOf(c, k + 1) + AllRows(cues[k + 1..], k + 2));
    }
    assert cues[|cues|..] == [] && lines + [] == lines;
    file := Join(lines);
  }

  // ---------- read ----------

  function NonBlank(rows: seq<string>): (kept: seq<string>)
    ensures forall r | r in kept :: r in rows && !Blank(r)
  {
    if rows == [] then []
    else if Blank(rows[0]) then NonBlank(rows[1..])
    else [rows[0]] + NonBlank(rows[1..])
  }

  datatype BlockResult = Skip | Cue(cue: SubCue) | BadBlock

  /** One block; `count` cues were read before it. */
  function ParseBlock(block: string, count: nat): BlockResult {
    var rows := NonBlank(Lines(block));
    if |rows| < 2 then Skip
    else
      var idx := match ParseInt(rows[0]) case Some(n) => n case None => count + 1;
      var sides := SplitOn(rows[1], "-->");
      if |sides| == 1 then Skip          // no arrow in the row
      else if |sides| > 2 then BadBlock  // unpacking fails
      else
        match (ParseTs(sides[0]), ParseTs(sides[1]))
        case (Some(a), Some(b)) => Cue(SubCue(idx, a, b, Join(rows[2..])))
        case _ => BadBlock
  }

  /** What becomes of a block, by its non-blank rows: the number row, the times row, and the text. */
  lemma BlockMeans(block: string, count: nat)
    ensures var rows := NonBlank(Lines(block));
      var r := ParseBlock(block, count);
      && (|rows| < 2 ==> r == Skip)
      && (|rows| >= 2 && |SplitOn(rows[1], "-->")| == 1 ==> r == Skip)
      && (|rows| >= 2 && |SplitOn(rows[1], "-->")| > 2 ==> r == BadBlock)
      && (r.Cue? ==>
            && |rows| >= 2 && |SplitOn(rows[1], "-->")| == 2
            && Some(r.cue.start) == ParseTs(SplitOn(rows[1], "-->")[0])
            && Some(r.cue.end) == ParseTs(SplitOn(rows[1], "-->")[1])
            && (ParseInt(rows[0]).Some? ==> r.cue.idx == ParseInt(rows[0]).value)
            && (ParseInt(rows[0]).None? ==> r.cue.idx == count + 1)
            && r.cue.text == Join(rows[2..]))
      && (|rows| >= 2 && |SplitOn(rows[1], "-->")| == 2 && r.BadBlock? ==>
            ParseTs(SplitOn(rows[1], "-->")[0]).None? || ParseTs(SplitOn(rows[1], "-->")[1]).None?)
      && (|rows| >= 2 && |SplitOn(rows[1], "-->")| == 2 ==> !r.Skip?)
  {
    hide Lines, SplitOn, ParseInt, ParseTs, Join;
  }

  function ParseBlocks(blocks: seq<string>, out: seq<SubCue>): Result {
    if blocks == [] then Ok(out)
    else
      match ParseBlock(blocks[0], |out|)
      case Skip => ParseBlocks(blocks[1..], out)
      case Cue(c) => ParseBlocks(blocks[1..], out + [c])
      case BadBlock => ValueError
  }

  function ReadOf(file: string): Result {
    ParseBlocks(SplitOn(Strip(file), "\n\n"), [])
  }

  method ReadSrt(file: string) returns (r: Result)
    ensures r == ReadOf(file)
  {
    var blocks := SplitOn(Strip(file), "\n\n");
    var out: seq<SubCue> := [];
    for k := 0 to |blocks|
      invariant ParseBlocks(blocks[k..], out) == ReadOf(file)
    {
      var rows := NonBlank(Lines(blocks[k]));
      if |rows| < 2 {
        continue;
      }
      var number := ParseInt(rows[0]);
      var idx := if number.Some? then number.value else |out| + 1;
      var sides := SplitOn(rows[1], "-->");
      if |sides| == 1 {
        continue;
      }
      if |sides| > 2 {
        return ValueError;
      }
      var a, b := ParseTs(sides[0]), ParseTs(sides[1]);
      if a.None? || b.None? {
        return ValueError;
      }
      out := out + [SubCue(idx, a.value, b.value, Join(rows[2..]))];
    }
    r := Ok(out);
  }

  // ---------- time stamps round trip ----------

  lemma {:induction false} NoDots(s: string)
    requires '.' !in s
    ensures DotToComma(s) == s
  {
    if s != "" {
      assert s[0] in s && forall c | c in s[1..] :: c in s;
      NoDots(s[1..]);
    }
  }

  lemma FmtShape(ms: nat)
    ensures var s := FmtMillis(ms); s != "" && IsDigit(s[0]) && IsDigit(s[|s| - 1])
    ensures forall c | c in FmtMillis(ms) :: IsDigit(c) || c == ':' || c == ','
  {
    hide Padded;
    var a, b, c, d := Padded(ms / 3600000, 2), Padded(ms % 3600000 / 60000, 2), Padded(ms % 60000 / 1000, 2), Padded(ms % 1000, 3);
    assert FmtMillis(ms)[0] == a[0] && a[0] in a;
    assert FmtMillis(ms)[|FmtMillis(ms)| - 1] == d[|d| - 1] && d[|d| - 1] in d;
  }

  /** Hours in two digits or more, minutes and seconds in two, milliseconds in three. */
  lemma StampWidths(ms: nat) returns (hours: string, minutes: string, seconds: string, rest: string)
    ensures FmtMillis(ms) == hours + ":" + minutes + ":" + seconds + "," + rest
    ensures |hours| >= 2 && |minutes| == 2 && |seconds| == 2 && |rest| == 3
    ensures forall c | c in hours + minutes + seconds + rest :: IsDigit(c)
    ensures |hours| == 2 <==> ms < 360000000
    ensures (Value(hours) * 3600 + Value(minutes) * 60 + Value(seconds)) * 1000 + Value(rest) == ms
    ensures Value(minutes) < 60 && Value(seconds) < 60 && Value(rest) < 1000
  {
    hide Padded, Value;
    hours, minutes := Padded(ms / 3600000, 2), Padded(ms % 3600000 / 60000, 2);
    seconds, rest := Padded(ms % 60000 / 1000, 2), Padded(ms % 1000, 3);
    Widths();
    PaddedMeans(ms / 3600000, 2);
    PaddedMeans(ms % 3600000 / 60000, 2);
    PaddedMeans(ms % 60000 / 1000, 2);
    PaddedMeans(ms % 1000, 3);
    PaddedValue(ms / 3600000, 2);
    PaddedValue(ms % 3600000 / 60000, 2);
    PaddedValue(ms % 60000 / 1000, 2);
    PaddedValue(ms % 1000, 3);
    MillisSplit(ms);
  }

  lemma Widths()
    ensures Power10(2) == 100 && Power10(3) == 1000
  {
    assert Power10(1) == 10 && Power10(2) == 100;
  }

  lemma PaddedValue(n: nat, width: nat)
    ensures Value(Padded(n, width)) == n
  {
    ValueOfZeroFill(Decimal(n), width);
    ValueOfDecimal(n);
  }

  lemma SplitStamp(a: string, b: string, c: string, d: string)
    requires forall x | x in a + b + c + d :: IsDigit(x)
    ensures SplitOn(a + ":" + b + ":" + c + "," + d, ",") == [a + ":" + b + ":" + c, d]
    ensures SplitOn(a + ":" + b + ":" + c, ":") == [a, b, c]
  {
    hide SplitOn;
    assert forall x | x in a :: x in a + b + c + d;
    assert forall x | x in b :: x in a + b + c + d;
    assert forall x | x in c :: x in a + b + c + d;
    assert forall x | x in d :: x in a + b + c + d;
    var hms := a + ":" + b + ":" + c;
    SplitAtChar(hms, ",", d);
    SplitAtChar(d, ",", "");
    assert hms + "," + d == a + ":" + b + ":" + c + "," + d;
    SplitAtChar(a, ":", b + ":" + c);
    SplitAtChar(b, ":", c);
    SplitAtChar(c, ":", "");
    assert a + ":" + (b + ":" + c) == hms;
    assert [a] + ([b] + [c]) == [a, b, c];
  }

  lemma MillisSplit(ms: nat)
    ensures ms == (ms / 3600000 * 3600 + ms % 3600000 / 60000 * 60 + ms % 60000 / 1000) * 1000 + ms % 1000
  {
    assert ms % 3600000 % 60000 == ms % 60000;
  }

  lemma SecondsAndRest(seconds: nat, rest: nat)
    ensures seconds as real + rest as real / 1000.0 == (seconds * 1000 + rest) as real / 1000.0
  {
    assert (seconds * 1000) as real == seconds as real * 1000.0;
  }

  lemma MillisAddUp(ms: nat)
    ensures (ms / 3600000 * 3600 + ms % 3600000 / 60000 * 60 + ms % 60000 / 1000) as real
              + (ms % 1000) as real / 1000.0 == ms as real / 1000.0
  {
    MillisSplit(ms);
    SecondsAndRest(ms / 3600000 * 3600 + ms % 3600000 / 60000 * 60 + ms % 60000 / 1000, ms % 1000);
  }

  lemma EdgesStripped(s: string)
    requires s != "" && !IsSpace(s[0]) && !IsSpace(s[|s| - 1])
    ensures IsStripped(s)
  {
  }

  /** A printed time stamp, with spaces around it, parses to the printed milliseconds. */
  lemma StampRoundTrip(pre: string, ms: nat, post: string)
    requires forall c | c in pre + post :: IsSpace(c)
    ensures ParseTs(pre + FmtMillis(ms) + post) == Some(ms as real / 1000.0)
  {
    hide Padded, SplitOn, ParseInt, Strip, DotToComma, IsStripped;
    var a, b, c, d := Padded(ms / 3600000, 2), Padded(ms % 3600000 / 60000, 2), Padded(ms % 60000 / 1000, 2), Padded(ms % 1000, 3);
    var s := FmtMillis(ms);
    FmtShape(ms);
    EdgesStripped(s);
    StripPadded(pre, s, post);
    NoDots(s);
    SplitStamp(a, b, c, d);
    ParseOfPadded(ms / 3600000, 2);
    ParseOfPadded(ms % 3600000 / 60000, 2);
    ParseOfPadded(ms % 60000 / 1000, 2);
    ParseOfPadded(ms % 1000, 3);
    MillisAddUp(ms);
  }

  lemma {:induction false} DotsConcat(a: string, b: string)
    ensures DotToComma(a + b) == DotToComma(a) + DotToComma(b)
  {
    if a == "" {
      assert a + b == b;
    } else {
      assert (a + b)[1..] == a[1..] + b;
      DotsConcat(a[1..], b);
    }
  }

  lemma {:induction false} DotsLStrip(s: string)
    ensures LStrip(DotToComma(s)) == DotToComma(LStrip(s))
  {
    if s != "" && IsSpace(s[0]) {
      assert DotToComma(s)[1..] == DotToComma(s[1..]);
      DotsLStrip(s[1..]);
    }
  }

  lemma {:induction false} DotsRStrip(s: string)
    ensures RStrip(DotToComma(s)) == DotToComma(RStrip(s))
  {
    if s != "" {
      var n := |s| - 1;
      assert s == s[..n] + [s[n]];
      DotsConcat(s[..n], [s[n]]);
      assert DotToComma([s[n]]) == [if s[n] == '.' then ',' else s[n]];
      assert DotToComma(s)[..|DotToComma(s)| - 1] == DotToComma(s[..n]);
      if IsSpace(s[n]) {
        DotsRStrip(s[..n]);
      }
    }
  }

  /** A stamp may be written with a dot where its comma stands. */
  lemma DotIsComma(pre: string, post: string)
    ensures ParseTs(pre + "." + post) == ParseTs(pre + "," + post)
  {
    hide SplitOn, ParseInt;
    var dot, comma := pre + "." + post, pre + "," + post;
    DotsConcat(pre + ".", post);
    DotsConcat(pre, ".");
    DotsConcat(pre + ",", post);
    DotsConcat(pre, ",");
    assert DotToComma(dot) == DotToComma(comma);
    DotsLStrip(dot);
    DotsRStrip(LStrip(dot));
    DotsLStrip(comma);
    DotsRStrip(LStrip(comma));
  }

  // ---------- file round trip ----------

  /** No line inside the text is blank. */
  ghost predicate Clean(text: string) {
    forall r | r in Lines(text) :: !Blank(r)
  }

  function ToMillis(t: real): real {
    Millis(t) as real / 1000.0
  }

  /** What reading back cue number `i` should give: its number, rounded times, stripped text. */
  function Expected(c: SubCue, i: nat): SubCue {
    SubCue(i, ToMillis(c.start), ToMillis(c.end), Strip(c.text))
  }

  /** Read back: the number in the file, the stripped text, and each time moved to a whole millisecond at most half of one away. */
  lemma ExpectedMeans(c: SubCue, i: nat)
    ensures var e := Expected(c, i);
      && e.idx == i && e.text == Strip(c.text)
      && (c.start < 0.0 ==> e.start == 0.0) && (c.start >= 0.0 ==> -0.0005 <= e.start - c.start <= 0.0005)
      && (c.end < 0.0 ==> e.end == 0.0) && (c.end >= 0.0 ==> -0.0005 <= e.end - c.end <= 0.0005)
      && e.start * 1000.0 == (e.start * 1000.0).Floor as real && e.end * 1000.0 == (e.end * 1000.0).Floor as real
  {
    RoundIsNear(c.start * 1000.0);
    RoundIsNear(c.end * 1000.0);
    assert Expected(c, i).start == Millis(c.start) as real / 1000.0;
    assert Expected(c, i).end == Millis(c.end) as real / 1000.0;
  }

  function ExpectedAll(cues: seq<SubCue>, i: nat): seq<SubCue> {
    if cues == [] then [] else [Expected(cues[0], i)] + ExpectedAll(cues[1..], i + 1)
  }

  function Head(c: SubCue, i: nat): string {
    Decimal(i) + "\n" + TimesRow(c)
  }

  /** A cue's block as the reader sees it. */
  function Core(c: SubCue, i: nat): string {
    if Strip(c.text) == "" then Head(c, i) else Head(c, i) + "\n" + Strip(c.text)
  }

  function Separator(c: SubCue): string {
    if Strip(c.text) == "" then "\n\n\n" else "\n\n"
  }

  /** The stripped file. */
  function Body(cues: seq<SubCue>, i: nat): string
    requires cues != []
  {
    if |cues| == 1 then Core(cues[0], i) else Core(cues[0], i) + Separator(cues[0]) + Body(cues[1..], i + 1)
  }

  lemma TimesRowShape(c: SubCue)
    ensures '\n' !in TimesRow(c) && TimesRow(c) != ""
    ensures !IsSpace(TimesRow(c)[0]) && !IsSpace(TimesRow(c)[|TimesRow(c)| - 1])
  {
    hide FmtMillis;
    FmtShape(Millis(c.start));
    FmtShape(Millis(c.end));
    var a, b := Fmt(c.start), Fmt(c.end);
    assert TimesRow(c) == a + " --> " + b;
    assert TimesRow(c)[0] == a[0];
    assert TimesRow(c)[|TimesRow(c)| - 1] == b[|b| - 1];
  }

  lemma HeadShape(c: SubCue, i: nat)
    ensures Head(c, i) != "" && IsDigit(Head(c, i)[0]) && !IsSpace(Head(c, i)[|Head(c, i)| - 1])
  {
    hide TimesRow;
    TimesRowShape(c);
    var h, t := Decimal(i), TimesRow(c);
    assert Head(c, i)[0] == h[0] && h[0] in h;
    assert Head(c, i)[|Head(c, i)| - 1] == t[|t| - 1];
  }

  lemma CoreShape(c: SubCue, i: nat)
    ensures Core(c, i) != "" && IsDigit(Core(c, i)[0]) && !IsSpace(Core(c, i)[|Core(c, i)| - 1])
  {
    hide Head;
    HeadShape(c, i);
    StripIsStripped(c.text);
    var text := Strip(c.text);
    if text != "" {
      assert Core(c, i)[0] == Head(c, i)[0];
      assert Core(c, i)[|Core(c, i)| - 1] == text[|text| - 1];
    }
  }

  lemma {:induction false} BodyShape(cues: seq<SubCue>, i: nat)
    requires cues != []
    ensures var b := Body(cues, i); b != "" && IsDigit(b[0]) && !IsSpace(b[|b| - 1])
  {
    hide Core, Separator;
    CoreShape(cues[0], i);
    if |cues| > 1 {
      BodyShape(cues[1..], i + 1);
      var b, rest := Body(cues, i), Body(cues[1..], i + 1);
      assert b == Core(cues[0], i) + Separator(cues[0]) + rest;
      assert b[0] == Core(cues[0], i)[0] && b[|b| - 1] == rest[|rest| - 1];
    }
  }

  lemma JoinFour(a: string, b: string, c: string, rest: seq<string>)
    ensures Join([a, b, c, ""] + rest) == a + "\n" + b + "\n" + c + "\n" + if rest == [] then "" else "\n" + Join(rest)
  {
    var r1, r2, r3 := [b, c, ""] + rest, [c, ""] + rest, [""] + rest;
    assert ([a, b, c, ""] + rest)[1..] == r1 && r1[1..] == r2 && r2[1..] == r3 && r3[1..] == rest;
    assert Join(r3) == if rest == [] then "" else "" + "\n" + Join(rest);
    assert Join(r2) == c + "\n" + Join(r3);
    assert Join(r1) == b + "\n" + Join(r2);
  }

  lemma LastRows(h: string, t: string, text: string)
    ensures h + "\n" + t + "\n" + text + "\n" + "" ==
      (if text == "" then h + "\n" + t else h + "\n" + t + "\n" + text) + if text == "" then "\n\n" else "\n"
  {
  }

  lemma MoreRows(h: string, t: string, text: string, body: string, tail: string)
    ensures h + "\n" + t + "\n" + text + "\n" + ("\n" + (body + tail)) ==
      (if text == "" then (h + "\n" + t) + "\n\n\n" + body else (h + "\n" + t + "\n" + text) + "\n\n" + body) + tail
  {
  }

  /** The written file is the body followed by newlines only. */
  lemma {:induction false} FileIsBody(cues: seq<SubCue>, i: nat) returns (tail: string)
    requires cues != []
    ensures Join(AllRows(cues, i)) == Body(cues, i) + tail
    ensures forall c | c in tail :: c == '\n'
  {
    hide Decimal, TimesRow, Strip, Join;
    var c := cues[0];
    var h, t, text := Decimal(i), TimesRow(c), Strip(c.text);
    JoinFour(h, t, text, AllRows(cues[1..], i + 1));
    if |cues| == 1 {
      assert cues[1..] == [];
      tail := if text == "" then "\n\n" else "\n";
      LastRows(h, t, text);
    } else {
      tail := FileIsBody(cues[1..], i + 1);
      assert AllRows(cues[1..], i + 1) != [];
      MoreRows(h, t, text, Body(cues[1..], i + 1), tail);
    }
  }

  lemma StripFile(cues: seq<SubCue>, i: nat)
    requires cues != []
    ensures Strip(Join(AllRows(cues, i))) == Body(cues, i)
  {
    hide Body, Strip, Join, AllRows;
    var tail := FileIsBody(cues, i);
    BodyShape(cues, i);
    var b := Body(cues, i);
    assert "" + tail == tail;
    StripPadded("", b, tail);
    assert "" + b + tail == b + tail;
  }

  // ---------- no blank line, no early split ----------

  ghost predicate NoDouble(s: string) {
    forall k | 0 <= k < |s| - 1 :: !(s[k] == '\n' && s[k + 1] == '\n')
  }

  lemma NoDoubleConcat(a: string, b: string)
    requires NoDouble(a) && NoDouble(b)
    requires a != "" && b != "" ==> !(a[|a| - 1] == '\n' && b[0] == '\n')
    ensures NoDouble(a + b)
  {
    forall k | 0 <= k < |a + b| - 1 ensures !((a + b)[k] == '\n' && (a + b)[k + 1] == '\n') {
      if k + 1 < |a| {
        assert (a + b)[k] == a[k] && (a + b)[k + 1] == a[k + 1];
      } else if k >= |a| {
        assert (a + b)[k] == b[k - |a|] && (a + b)[k + 1] == b[k - |a| + 1];
      }
    }
  }

  /** A text whose lines, the first aside, are not empty has no two newlines in a row. */
  lemma {:induction false} LinesNoDouble(s: string)
    requires forall j | 1 <= j < |Lines(s)| :: Lines(s)[j] != ""
    ensures NoDouble(s)
  {
    if s != "" {
      var rest := s[1..];
      assert s == [s[0]] + rest;
      var lines := Lines(rest);
      if s[0] == '\n' {
        assert Lines(s) == [""] + lines;
        forall j | 0 <= j < |lines| ensures lines[j] != "" {
          assert Lines(s)[j + 1] == lines[j];
        }
        FirstLine(rest);
      } else {
        forall j | 1 <= j < |lines| ensures lines[j] != "" {
          assert Lines(s)[j] == lines[j];
        }
      }
      LinesNoDouble(rest);
      NoDoubleConcat([s[0]], rest);
    }
  }

  lemma FirstLine(s: string)
    ensures s != "" ==> Lines(s) != [] && (Lines(s)[0] == "" <==> s[0] == '\n')
  {
  }

  lemma CleanNoDouble(text: string)
    requires Clean(text)
    ensures NoDouble(text)
  {
    forall j | 0 <= j < |Lines(text)| ensures Lines(text)[j] != "" {
      assert Lines(text)[j] in Lines(text);
    }
    LinesNoDouble(text);
  }

  lemma CoreNoDouble(pre: string, c: SubCue, i: nat)
    requires (pre == "" || pre == "\n") && Clean(Strip(c.text))
    ensures NoDouble(pre + Core(c, i))
  {
    hide TimesRow, Clean, Strip;
    TimesRowShape(c);
    HeadShape(c, i);
    var h, t, text := Decimal(i), TimesRow(c), Strip(c.text);
    assert NoDouble(h) by { assert forall k | 0 <= k < |h| :: h[k] in h; }
    assert NoDouble(t) by { assert forall k | 0 <= k < |t| :: t[k] in t; }
    NoDoubleConcat(h, "\n");
    NoDoubleConcat(h + "\n", t);
    CleanNoDouble(text);
    StripIsStripped(c.text);
    var core := Head(c, i);
    if text != "" {
      NoDoubleConcat(core, "\n");
      assert (core + "\n")[|core|] == '\n';
      NoDoubleConcat(core + "\n", text);
    }
    CoreShape(c, i);
    NoDoubleConcat(pre, Core(c, i));
    if pre == "" {
      assert pre + Core(c, i) == Core(c, i);
    }
  }

  /** Blocks without two newlines in a row, not ending in one, are cut out whole. */
  lemma SplitBlock(b: string, rest: string)
    requires NoDouble(b) && b != "" && b[|b| - 1] != '\n'
    ensures SplitOn(b + "\n\n" + rest, "\n\n") == [b] + SplitOn(rest, "\n\n")
    ensures SplitOn(b, "\n\n") == [b]
  {
    hide SplitOn;
    var sep := "\n\n";
    forall k | 0 <= k < |b| ensures !(sep <= (b + sep)[k..]) && !(sep <= b[k..]) {
      if k + 1 < |b| {
        assert !(b[k] == '\n' && b[k + 1] == '\n');
        assert (b + sep)[k..][0] == b[k] && (b + sep)[k..][1] == b[k + 1];
        assert b[k..][0] == b[k] && b[k..][1] == b[k + 1];
      } else {
        assert (b + sep)[k..][0] == b[k];
      }
    }
    SplitAt(b, sep, rest);
    SplitNone(b, sep);
  }

  // ---------- reading the blocks ----------

  lemma {:induction false} AllKept(rows: seq<string>)
    requires forall r | r in rows :: !Blank(r)
    ensures NonBlank(rows) == rows
  {
    if rows != [] {
      assert forall r | r in rows[1..] :: r in rows;
      AllKept(rows[1..]);
    }
  }

  lemma CoreLines(pre: string, c: SubCue, i: nat)
    requires pre == "" || pre == "\n"
    ensures Lines(pre + Core(c, i)) == (if pre == "" then [] else [""]) + ([Decimal(i), TimesRow(c)] + Lines(Strip(c.text)))
  {
    hide TimesRow, Strip, Lines;
    TimesRowShape(c);
    var h, t, text := Decimal(i), TimesRow(c), Strip(c.text);
    var below := if text == "" then t else t + "\n" + text;
    assert Core(c, i) == h + "\n" + below;
    LinesAt(h, below);
    if text == "" {
      LinesOne(t);
      EmptyLines();
    } else {
      LinesAt(t, text);
    }
    if pre == "" {
      assert pre + Core(c, i) == Core(c, i);
    } else {
      LinesAt("", Core(c, i));
      assert "" + "\n" + Core(c, i) == pre + Core(c, i);
    }
  }

  lemma EmptyLines()
    ensures Lines("") == []
  {
  }

  lemma CoreRows(pre: string, c: SubCue, i: nat)
    requires (pre == "" || pre == "\n") && Clean(Strip(c.text))
    ensures NonBlank(Lines(pre + Core(c, i))) == [Decimal(i), TimesRow(c)] + Lines(Strip(c.text))
  {
    hide TimesRow, Strip, Lines;
    CoreLines(pre, c, i);
    TimesRowShape(c);
    var rows := [Decimal(i), TimesRow(c)] + Lines(Strip(c.text));
    assert Decimal(i)[0] in Decimal(i);
    NonBlankIfEdge(Decimal(i));
    NonBlankIfEdge(TimesRow(c));
    forall r | r in rows ensures !Blank(r) {
      assert r == rows[0] || r == rows[1] || r in Lines(Strip(c.text));
    }
    AllKept(rows);
    if pre == "" {
      assert [] + rows == rows;
    } else {
      BlankEmpty();
      assert ([""] + rows)[1..] == rows;
    }
  }

  lemma BlankEmpty()
    ensures Blank("")
  {
  }

  lemma SplitTimes(c: SubCue)
    ensures SplitOn(TimesRow(c), "-->") == [Fmt(c.start) + " ", " " + Fmt(c.end)]
  {
    hide SplitOn, FmtMillis;
    FmtShape(Millis(c.start));
    FmtShape(Millis(c.end));
    var a, b := Fmt(c.start) + " ", " " + Fmt(c.end);
    SplitAtChar(a, "-->", b);
    SplitAtChar(b, "-->", "");
    assert a + "-->" + b == TimesRow(c);
    assert [a] + [b] == [a, b];
  }

  /** A written block is read back as the expected cue. */
  lemma ParseCore(pre: string, c: SubCue, i: nat, count: nat)
    requires (pre == "" || pre == "\n") && Clean(Strip(c.text))
    ensures ParseBlock(pre + Core(c, i), count) == Cue(Expected(c, i))
  {
    hide TimesRow, Strip, Lines, SplitOn, NonBlank, ParseTs, ParseInt, FmtMillis, Core, Clean, Join, Millis;
    CoreRows(pre, c, i);
    var text := Strip(c.text);
    var rows := [Decimal(i), TimesRow(c)] + Lines(text);
    assert rows[2..] == Lines(text);
    ParseOfPadded(i, 1);
    SplitTimes(c);
    StampRoundTrip("", Millis(c.start), " ");
    StampRoundTrip(" ", Millis(c.end), "");
    assert "" + FmtMillis(Millis(c.start)) + " " == Fmt(c.start) + " ";
    assert " " + FmtMillis(Millis(c.end)) + "" == " " + Fmt(c.end);
    StripIsStripped(c.text);
    JoinOfLines(text);
  }

  lemma ParseLast(pre: string, c: SubCue, i: nat, out: seq<SubCue>)
    requires (pre == "" || pre == "\n") && Clean(Strip(c.text))
    ensures ParseBlocks(SplitOn(pre + Core(c, i), "\n\n"), out) == Ok(out + [Expected(c, i)])
  {
    hide Core, SplitOn, Strip, ParseBlock, Expected, Clean;
    var b := pre + Core(c, i);
    CoreNoDouble(pre, c, i);
    CoreShape(c, i);
    ParseCore(pre, c, i, |out|);
    SplitBlock(b, "");
    assert [b][1..] == [];
  }

  lemma ParseFirst(pre: string, c: SubCue, i: nat, rest: string, out: seq<SubCue>)
    requires (pre == "" || pre == "\n") && Clean(Strip(c.text))
    ensures var next := if Strip(c.text) == "" then "\n" else "";
      ParseBlocks(SplitOn(pre + (Core(c, i) + Separator(c) + rest), "\n\n"), out)
        == ParseBlocks(SplitOn(next + rest, "\n\n"), out + [Expected(c, i)])
  {
    hide Core, SplitOn, Strip, ParseBlock, Expected, Clean;
    var next := if Strip(c.text) == "" then "\n" else "";
    var b := pre + Core(c, i);
    CoreNoDouble(pre, c, i);
    CoreShape(c, i);
    ParseCore(pre, c, i, |out|);
    assert pre + (Core(c, i) + Separator(c) + rest) == b + "\n\n" + (next + rest);
    SplitBlock(b, next + rest);
    var blocks := SplitOn(next + rest, "\n\n");
    assert ([b] + blocks)[1..] == blocks;
  }

  lemma {:induction false} ParseBody(pre: string, cues: seq<SubCue>, i: nat, out: seq<SubCue>)
    requires cues != [] && (pre == "" || pre == "\n")
    requires forall c | c in cues :: Clean(Strip(c.text))
    ensures ParseBlocks(SplitOn(pre + Body(cues, i), "\n\n"), out) == Ok(out + ExpectedAll(cues, i))
    decreases |cues|
  {
    hide Core, SplitOn, Strip, ParseBlocks, Expected, Clean, Separator, Decimal, TimesRow;
    var c := cues[0];
    if |cues| == 1 {
      ParseLast(pre, c, i, out);
      assert cues[1..] == [];
      assert [Expected(c, i)] + [] == [Expected(c, i)];
    } else {
      ParseFirst(pre, c, i, Body(cues[1..], i + 1), out);
      assert forall x | x in cues[1..] :: x in cues;
      assert Body(cues, i) == Core(c, i) + Separator(c) + Body(cues[1..], i + 1);
      ParseBody(if Strip(c.text) == "" then "\n" else "", cues[1..], i + 1, out + [Expected(c, i)]);
      assert out + [Expected(c, i)] + ExpectedAll(cues[1..], i + 1) == out + ExpectedAll(cues, i);
    }
  }

  // ---------- what reading can give at all ----------

  lemma {:induction false} ReadTextsAreClean(blocks: seq<string>, out: seq<SubCue>)
    requires forall c | c in out :: Clean(c.text)
    ensures ParseBlocks(blocks, out).Ok? ==> forall c | c in ParseBlocks(blocks, out).cues :: Clean(c.text)
    decreases |blocks|
  {
    hide Clean, ParseBlock;
    if blocks != [] {
      BlockTextIsClean(blocks[0], |out|);
      match ParseBlock(blocks[0], |out|) {
        case Skip => ReadTextsAreClean(blocks[1..], out);
        case Cue(c) => ReadTextsAreClean(blocks[1..], out + [c]);
        case BadBlock =>
      }
    }
  }

  lemma BlockTextIsClean(block: string, count: nat)
    ensures ParseBlock(block, count).Cue? ==> Clean(ParseBlock(block, count).cue.text)
  {
    hide Lines, SplitOn, ParseTs, ParseInt, Strip, Join;
    LinesHaveNoBreak(block);
    BlankEmpty();
    var rows := NonBlank(Lines(block));
    if |rows| >= 2 {
      forall r | r in rows[2..] ensures '\n' !in r && r != "" && !Blank(r) {
        assert r in rows;
      }
      LinesOfJoin(rows[2..]);
    }
  }

  lemma {:induction false} ExpectedTexts(cues: seq<SubCue>, i: nat, c: SubCue)
    requires c in cues
    ensures exists e :: e in ExpectedAll(cues, i) && e.text == Strip(c.text)
  {
    hide Strip, ToMillis;
    if c == cues[0] {
      assert Expected(c, i) in ExpectedAll(cues, i);
    } else {
      ExpectedTexts(cues[1..], i + 1, c);
    }
  }

  /**
   Writing and reading back gives the cues renumbered 1..n, with stripped texts
   and times rounded to the millisecond, exactly when no stripped text has a
   blank line inside.
   */
  lemma RoundTrip(cues: seq<SubCue>)
    ensures ReadOf(Join(AllRows(cues, 1))) == Ok(ExpectedAll(cues, 1)) <==> forall c | c in cues :: Clean(Strip(c.text))
  {
    hide Body, SplitOn, ParseBlocks, ExpectedAll, Clean, Strip;
    var file := Join(AllRows(cues, 1));
    if cues == [] {
      EmptyFile();
    } else {
      StripFile(cues, 1);
      if forall c | c in cues :: Clean(Strip(c.text)) {
        ParseBody("", cues, 1, []);
        assert "" + Body(cues, 1) == Body(cues, 1) && [] + ExpectedAll(cues, 1) == ExpectedAll(cues, 1);
      } else {
        var c :| c in cues && !Clean(Strip(c.text));
        ExpectedTexts(cues, 1, c);
        ReadTextsAreClean(SplitOn(Strip(file), "\n\n"), []);
      }
    }
  }

  lemma EmptyFile()
    ensures ReadOf(Join(AllRows([], 1))) == Ok(ExpectedAll([], 1))
  {
    assert SplitOn("", "\n\n") == [""];
    assert ParseBlock("", 0) == Skip;
    assert [""][1..] == [];
  }

  // ---------- captions from a timeline ----------

  function TextOf(texts: map<int, string>, idx: int): string {
    if idx in texts then texts[idx] else ""
  }

  predicate HasCaption(texts: map<int, string>, s: T.Segment) {
    s.kind == T.CueKind && TextOf(texts, s.cueIdx) != ""
  }

  function CaptionOf(texts: map<int, string>, s: T.Segment): SubCue {
    SubCue(s.cueIdx, s.outStart, s.outStart + s.outDuration, TextOf(texts, s.cueIdx))
  }

  /** One caption per cue segment that has a text, in segment order. */
  function Captions(texts: map<int, string>, segments: seq<T.Segment>): seq<SubCue> {
    if segments == [] then []
    else
      var n := |segments| - 1;
      var front := Captions(texts, segments[..n]);
      if HasCaption(texts, segments[n]) then front + [CaptionOf(texts, segments[n])] else front
  }

  method RetimeFromTimeline(texts: map<int, string>, timeline: T.Timeline) returns (out: seq<SubCue>)
    ensures out == Captions(texts, timeline.segments)
  {
    var segments := timeline.segments;
    out := [];
    for k := 0 to |segments|
      invariant out == Captions(texts, segments[..k])
    {
      assert segments[..k + 1][..k] == segments[..k];
      var seg := segments[k];
      if seg.kind != T.CueKind {
        continue;
      }
      var txt := if seg.cueIdx in texts then texts[seg.cueIdx] else "";
      if txt == "" {
        continue;
      }
      out := out + [SubCue(seg.cueIdx, seg.outStart, seg.outStart + seg.outDuration, txt)];
    }
    assert segments[..|segments|] == segments;
  }

  /** A caption lasts exactly as long as its segment, and says the text of its cue; gaps and empty texts get none. */
  lemma CaptionMeans(texts: map<int, string>, s: T.Segment)
    ensures HasCaption(texts, s) <==> s.kind == T.CueKind && s.cueIdx in texts && texts[s.cueIdx] != ""
    ensures HasCaption(texts, s) ==>
      CaptionOf(texts, s) == SubCue(s.cueIdx, s.outStart, s.outStart + s.outDuration, texts[s.cueIdx])
  {
  }

  /** Every caption is a segment of the timeline, and none that should be captioned is missed. */
  lemma {:induction false} CaptionsAreSegments(texts: map<int, string>, segments: seq<T.Segment>)
    ensures forall c | c in Captions(texts, segments) ::
              exists s :: s in segments && HasCaption(texts, s) && c == CaptionOf(texts, s)
    ensures forall s | s in segments && HasCaption(texts, s) :: CaptionOf(texts, s) in Captions(texts, segments)
  {
    if segments != [] {
      var n := |segments| - 1;
      CaptionsAreSegments(texts, segments[..n]);
      assert forall s :: s in segments <==> s in segments[..n] || s == segments[n];
    }
  }

  /** Before and after rounding, captions run forwards and never overlap. */
  ghost predicate InOrder(captions: seq<SubCue>) {
    && (forall i | 0 <= i < |captions| :: 0.0 <= captions[i].start <= captions[i].end)
    && forall i, j | 0 <= i < j < |captions| :: captions[i].end <= captions[j].start
  }

  lemma {:induction false} CaptionsInOrder(texts: map<int, string>, timeline: T.Timeline, n: nat)
    requires T.Tiles(timeline) && T.Forward(timeline) && n <= |timeline.segments|
    ensures var captions := Captions(texts, timeline.segments[..n]);
      && InOrder(captions)
      && (n == 0 ==> captions == [])
      && (n > 0 ==> forall c | c in captions :: c.end <= T.End(timeline.segments[n - 1]))
  {
    if n > 0 {
      CaptionsInOrder(texts, timeline, n - 1);
      assert timeline.segments[..n][..n - 1] == timeline.segments[..n - 1];
      var s := timeline.segments[n - 1];
      T.StartsForward(timeline, n - 1);
      assert s.outDuration >= 0.0;
      var front := Captions(texts, timeline.segments[..n - 1]);
      if n > 1 {
        T.TilesAreOrdered(timeline, n - 2, n - 1);
      }
      assert forall i | 0 <= i < |front| :: front[i] in front;
    }
  }

  lemma MillisMonotone(a: real, b: real)
    requires a <= b
    ensures Millis(a) <= Millis(b)
  {
    if a >= 0.0 {
      RoundIsMonotone(a * 1000.0, b * 1000.0);
    }
  }

  lemma {:induction false} ExpectedAt(cues: seq<SubCue>, i: nat, k: nat)
    requires k < |cues|
    ensures |ExpectedAll(cues, i)| == |cues| && ExpectedAll(cues, i)[k] == Expected(cues[k], i + k)
  {
    hide Expected;
    if |cues| > 1 {
      ExpectedAt(cues[1..], i + 1, if k == 0 then 0 else k - 1);
    }
  }

  lemma RoundingKeepsOrder(cues: seq<SubCue>)
    requires InOrder(cues)
    ensures InOrder(ExpectedAll(cues, 1)) && |ExpectedAll(cues, 1)| == |cues|
  {
    hide Strip, Millis;
    var read := ExpectedAll(cues, 1);
    if cues != [] {
      ExpectedAt(cues, 1, 0);
    }
    forall k | 0 <= k < |cues| ensures read[k] == Expected(cues[k], 1 + k) && read[k].start <= read[k].end {
      ExpectedAt(cues, 1, k);
      MillisMonotone(cues[k].start, cues[k].end);
    }
    forall i, j | 0 <= i < j < |cues| ensures read[i].end <= read[j].start {
      MillisMonotone(cues[i].end, cues[j].start);
    }
  }

  /**
   Captions of a tiling timeline, written and read back, come back numbered,
   rounded and still ordered without overlap, provided the texts have no blank
   line inside.
   */
  lemma RetimedFileReadsInOrder(texts: map<int, string>, timeline: T.Timeline)
    requires T.Tiles(timeline) && T.Forward(timeline)
    requires forall c | c in Captions(texts, timeline.segments) :: Clean(Strip(c.text))
    ensures var captions := Captions(texts, timeline.segments);
      && ReadOf(Join(AllRows(captions, 1))) == Ok(ExpectedAll(captions, 1))
      && |ExpectedAll(captions, 1)| == |captions|
      && InOrder(ExpectedAll(captions, 1))
  {
    hide ReadOf, AllRows, ExpectedAll, Clean, Strip, Captions, InOrder;
    var captions := Captions(texts, timeline.segments);
    RoundTrip(captions);
    CaptionsInOrder(texts, timeline, |timeline.segments|);
    assert timeline.segments[..|timeline.segments|] == timeline.segments;
    RoundingKeepsOrder(captions);
  }
}

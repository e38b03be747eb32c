/** The string operations of Python that the SRT code uses, over an alphabet whose only line break is newline. */
module Text {
  import opened Options

  predicate IsSpace(c: char) {
    c == ' ' || c == '\t' || c == '\n'
  }

  predicate IsDigit(c: char) {
    '0' <= c <= '9'
  }

  // ---------- strip ----------

  function LStrip(s: string): string {
    if s != "" && IsSpace(s[0]) then LStrip(s[1..]) else s
  }

  function RStrip(s: string): string {
    if s != "" && IsSpace(s[|s| - 1]) then RStrip(s[..|s| - 1]) else s
  }

  function Strip(s: string): string {
    RStrip(LStrip(s))
  }

  predicate IsStripped(s: string) {
    s != "" ==> !IsSpace(s[0]) && !IsSpace(s[|s| - 1])
  }

  predicate Blank(s: string) {
    Strip(s) == ""
  }

  lemma {:induction false} LStripEdge(s: string)
    ensures LStrip(s) != "" ==> !IsSpace(LStrip(s)[0])
    ensures s != "" && LStrip(s) != "" ==> LStrip(s)[|LStrip(s)| - 1] == s[|s| - 1]
  {
    if s != "" && IsSpace(s[0]) {
      LStripEdge(s[1..]);
    }
  }

  lemma {:induction false} RStripEdge(s: string)
    ensures RStrip(s) != "" ==> !IsSpace(RStrip(s)[|RStrip(s)| - 1])
    ensures RStrip(s) != "" ==> RStrip(s)[0] == s[0]
  {
    if s != "" && IsSpace(s[|s| - 1]) {
      RStripEdge(s[..|s| - 1]);
    }
  }

  lemma StripIsStripped(s: string)
    ensures IsStripped(Strip(s))
  {
    LStripEdge(s);
    RStripEdge(LStrip(s));
  }

  lemma {:induction false} LStripPrefix(pre: string, s: string)
    requires forall c | c in pre :: IsSpace(c)
    ensures LStrip(pre + s) == LStrip(s)
  {
    if pre == "" {
      assert pre + s == s;
    } else {
      assert (pre + s)[1..] == pre[1..] + s;
      LStripPrefix(pre[1..], s);
    }
  }

  lemma {:induction false} RStripSuffix(s: string, post: string)
    requires forall c | c in post :: IsSpace(c)
    ensures RStrip(s + post) == RStrip(s)
  {
    if post == "" {
      assert s + post == s;
    } else {
      assert (s + post)[..|s + post| - 1] == s + post[..|post| - 1];
      RStripSuffix(s, post[..|post| - 1]);
    }
  }

  /** Spaces around a text that has none at its edges are all that `strip` removes. */
  lemma StripPadded(pre: string, s: string, post: string)
    requires IsStripped(s) && s != ""
    requires forall c | c in pre + post :: IsSpace(c)
    ensures Strip(pre + s + post) == s
  {
    assert forall c | c in pre :: c in pre + post;
    assert forall c | c in post :: c in pre + post;
    assert pre + s + post == pre + (s + post);
    LStripPrefix(pre, s + post);
    assert LStrip(s + post) == s + post;
    RStripSuffix(s, post);
  }

  /** What `strip` keeps: everything but the spaces, tabs and newlines at the two ends. */
  lemma StripMeans(s: string) returns (lo: nat, hi: nat)
    ensures lo <= hi <= |s| && Strip(s) == s[lo..hi]
    ensures forall i | 0 <= i < lo || hi <= i < |s| :: s[i] in {' ', '\t', '\n'}
    ensures lo < hi ==> s[lo] !in {' ', '\t', '\n'} && s[hi - 1] !in {' ', '\t', '\n'}
  {
    lo := LStripMeans(s);
    var kept := RStripMeans(LStrip(s));
    hi := lo + kept;
    assert LStrip(s)[..kept] == s[lo..hi];
    forall i | hi <= i < |s| ensures s[i] in {' ', '\t', '\n'} {
      assert s[i] == LStrip(s)[i - lo];
    }
    if lo < hi {
      assert s[lo] == LStrip(s)[0] && s[hi - 1] == LStrip(s)[kept - 1];
    }
  }

  lemma {:induction false} LStripMeans(s: string) returns (lo: nat)
    ensures lo <= |s| && LStrip(s) == s[lo..]
    ensures forall i | 0 <= i < lo :: s[i] in {' ', '\t', '\n'}
    ensures lo < |s| ==> s[lo] !in {' ', '\t', '\n'}
  {
    lo := 0;
    if s != "" && IsSpace(s[0]) {
      lo := LStripMeans(s[1..]);
      lo := lo + 1;
      assert forall i | 1 <= i < lo :: s[i] == s[1..][i - 1];
    }
  }

  lemma {:induction false} RStripMeans(s: string) returns (hi: nat)
    ensures hi <= |s| && RStrip(s) == s[..hi]
    ensures forall i | hi <= i < |s| :: s[i] in {' ', '\t', '\n'}
    ensures hi > 0 ==> s[hi - 1] !in {' ', '\t', '\n'}
  {
    hi := |s|;
    if s != "" && IsSpace(s[|s| - 1]) {
      hi := RStripMeans(s[..|s| - 1]);
      assert forall i | hi <= i < |s| - 1 :: s[i] == s[..|s| - 1][i];
    }
  }

  lemma NonBlankIfEdge(s: string)
    requires s != "" && !IsSpace(s[0])
    ensures !Blank(s)
  {
    RStripKeepsFirst(s);
  }

  lemma {:induction false} RStripKeepsFirst(s: string)
    requires s != "" && !IsSpace(s[0])
    ensures RStrip(s) != ""
  {
    if IsSpace(s[|s| - 1]) {
      RStripKeepsFirst(s[..|s| - 1]);
    }
  }

  // ---------- split, lines, join ----------

  function SplitOn(s: string, sep: string): (parts: seq<string>)
    requires sep != ""
    ensures parts != []
    decreases |s|
  {
    if |s| < |sep| then [s]
    else if sep <= s then [""] + SplitOn(s[|sep|..], sep)
    else
      var rest := SplitOn(s[1..], sep);
      [[s[0]] + rest[0]] + rest[1..]
  }

  /** No occurrence of `sep` starts inside `b` when `b` is followed by `sep`. */
  ghost predicate Separable(b: string, sep: string) {
    forall k | 0 <= k < |b| :: !(sep <= (b + sep)[k..])
  }

  lemma {:induction false} SplitAt(b: string, sep: string, rest: string)
    requires sep != "" && Separable(b, sep)
    ensures SplitOn(b + sep + rest, sep) == [b] + SplitOn(rest, sep)
    decreases |b|
  {
    var s := b + sep + rest;
    if b == "" {
      assert s == sep + rest;
      assert sep <= s && s[|sep|..] == rest;
    } else {
      assert !(sep <= s) by {
        assert !(sep <= (b + sep)[0..]) && (b + sep)[0..] == b + sep;
        assert s[..|sep|] == (b + sep)[..|sep|];
      }
      var c := b[1..];
      forall k | 0 <= k < |c| ensures !(sep <= (c + sep)[k..]) {
        assert !(sep <= (b + sep)[k + 1..]);
        assert (c + sep)[k..] == (b + sep)[k + 1..];
      }
      SplitAt(c, sep, rest);
      assert s[1..] == c + sep + rest;
      assert [b[0]] + c == b;
    }
  }

  lemma {:induction false} SplitNone(b: string, sep: string)
    requires sep != "" && forall k | 0 <= k < |b| :: !(sep <= b[k..])
    ensures SplitOn(b, sep) == [b]
    decreases |b|
  {
    if |b| >= |sep| {
      assert !(sep <= b[0..]) && b[0..] == b;
      forall k | 0 <= k < |b[1..]| ensures !(sep <= b[1..][k..]) {
        assert !(sep <= b[k + 1..]);
        assert b[1..][k..] == b[k + 1..];
      }
      SplitNone(b[1..], sep);
      assert [b[0]] + b[1..] == b;
    }
  }

  /** A separator whose first character does not occur in `b` cannot occur there. */
  lemma SplitAtChar(b: string, sep: string, rest: string)
    requires sep != "" && sep[0] !in b
    ensures SplitOn(b + sep + rest, sep) == [b] + SplitOn(rest, sep)
    ensures SplitOn(b, sep) == [b]
  {
    forall k | 0 <= k < |b| ensures !(sep <= (b + sep)[k..]) && !(sep <= b[k..]) {
      assert (b + sep)[k..][0] == b[k] && b[k] in b;
      assert b[k..][0] == b[k];
    }
    SplitAt(b, sep, rest);
    SplitNone(b, sep);
  }

  /** `splitlines` */
  function Lines(s: string): seq<string> {
    if s == "" then []
    else if s[0] == '\n' then [""] + Lines(s[1..])
    else
      var rest := Lines(s[1..]);
      if rest == [] then [[s[0]]] else [[s[0]] + rest[0]] + rest[1..]
  }

  /** `"\n".join(rows)` */
  function Join(rows: seq<string>): string {
    if rows == [] then ""
    else if |rows| == 1 then rows[0]
    else rows[0] + "\n" + Join(rows[1..])
  }

  lemma {:induction false} LinesAt(row: string, rest: string)
    requires '\n' !in row
    ensures Lines(row + "\n" + rest) == [row] + Lines(rest)
  {
    var s := row + "\n" + rest;
    if row == "" {
      assert s[0] == '\n' && s[1..] == rest;
    } else {
      assert s[1..] == row[1..] + "\n" + rest;
      LinesAt(row[1..], rest);
      assert [row[0]] + row[1..] == row;
    }
  }

  lemma {:induction false} LinesOne(row: string)
    requires '\n' !in row && row != ""
    ensures Lines(row) == [row]
  {
    assert [row[0]] + row[1..] == row && row[0] in row;
    if |row| > 1 {
      LinesOne(row[1..]);
    } else {
      assert row[1..] == "" && row == [row[0]] && Lines(row[1..]) == [];
    }
  }

  lemma {:induction false} LinesOfJoin(rows: seq<string>)
    requires forall r | r in rows :: '\n' !in r && r != ""
    ensures Lines(Join(rows)) == rows
  {
    if |rows| == 1 {
      LinesOne(rows[0]);
    } else if |rows| > 1 {
      LinesAt(rows[0], Join(rows[1..]));
      assert forall r | r in rows[1..] :: r in rows;
      LinesOfJoin(rows[1..]);
    }
  }

  lemma {:induction false} LinesHaveNoBreak(s: string)
    ensures forall r | r in Lines(s) :: '\n' !in r
  {
    if s != "" {
      LinesHaveNoBreak(s[1..]);
    }
  }

  lemma JoinExtendsFirst(c: char, rows: seq<string>)
    requires rows != []
    ensures Join([[c] + rows[0]] + rows[1..]) == [c] + Join(rows)
  {
    var longer := [[c] + rows[0]] + rows[1..];
    assert longer[1..] == rows[1..];
    if |rows| > 1 {
      ConsFirst(c, rows[0], "\n", Join(rows[1..]));
    }
  }

  lemma ConsFirst(c: char, a: string, sep: string, b: string)
    ensures ([c] + a) + sep + b == [c] + (a + sep + b)
  {
  }

  lemma JoinAfterEmpty(rows: seq<string>)
    requires rows != []
    ensures Join([""] + rows) == "\n" + Join(rows)
  {
    assert ([""] + rows)[1..] == rows;
  }

  /** Joining the lines of a text that does not end in a newline gives it back. */
  lemma {:induction false} JoinOfLines(s: string)
    requires s != "" ==> s[|s| - 1] != '\n'
    ensures Join(Lines(s)) == s
  {
    if s != "" {
      var rest := s[1..];
      JoinOfLines(rest);
      assert s == [s[0]] + rest;
      if Lines(rest) != [] {
        if s[0] == '\n' {
          JoinAfterEmpty(Lines(rest));
        } else {
          JoinExtendsFirst(s[0], Lines(rest));
        }
      } else {
        assert rest == "";
      }
    }
  }

  // ---------- decimal numbers ----------

  function DigitChar(d: nat): char
    requires d < 10
  {
    "0123456789"[d]
  }

  function DigitValue(c: char): nat
    requires IsDigit(c)
  {
    (c - '0') as nat
  }

  function Decimal(n: nat): (s: string)
    ensures s != "" && forall c | c in s :: IsDigit(c)
  {
    if n < 10 then [DigitChar(n)] else Decimal(n / 10) + [DigitChar(n % 10)]
  }

  /** `f"{n:0{width}d}"` */
  function Padded(n: nat, width: nat): (s: string)
    ensures s != "" && forall c | c in s :: IsDigit(c)
  {
    ZeroFill(Decimal(n), width)
  }

  function ZeroFill(s: string, width: nat): (r: string)
    requires s != "" && forall c | c in s :: IsDigit(c)
    ensures r != "" && forall c | c in r :: IsDigit(c)
    decreases width - |s|
  {
    if |s| >= width then s else ZeroFill("0" + s, width)
  }

  function Value(s: string): nat
    requires forall c | c in s :: IsDigit(c)
  {
    if s == "" then 0 else 10 * Value(s[..|s| - 1]) + DigitValue(s[|s| - 1])
  }

  /** Decimal digits, most significant first. */
  lemma DecimalMeans(n: nat)
    ensures n < 10 ==> |Decimal(n)| == 1 && Decimal(n)[0] as int == '0' as int + n
    ensures n >= 10 ==>
      && Decimal(n)[..|Decimal(n)| - 1] == Decimal(n / 10)
      && Decimal(n)[|Decimal(n)| - 1] as int == '0' as int + n % 10
  {
  }

  function Power10(k: nat): nat {
    if k == 0 then 1 else 10 * Power10(k - 1)
  }

  lemma {:induction false} DecimalLength(n: nat, width: nat)
    requires width >= 1
    ensures |Decimal(n)| <= width <==> n < Power10(width)
  {
    if width == 1 {
      assert n >= 10 ==> Decimal(n) == Decimal(n / 10) + [DigitChar(n % 10)] && |Decimal(n / 10)| >= 1;
    } else if n >= 10 {
      DecimalLength(n / 10, width - 1);
      assert n < 10 * Power10(width - 1) <==> n / 10 < Power10(width - 1);
    } else {
      PowerPositive(width - 1);
    }
  }

  lemma {:induction false} PowerPositive(k: nat)
    ensures Power10(k) >= 1
  {
    if k > 0 {
      PowerPositive(k - 1);
    }
  }

  lemma {:induction false} ZeroFillMeans(s: string, width: nat)
    requires s != "" && forall c | c in s :: IsDigit(c)
    ensures var r := ZeroFill(s, width);
      && |r| == (if |s| < width then width else |s|)
      && r[|r| - |s|..] == s && forall i | 0 <= i < |r| - |s| :: r[i] == '0'
    decreases width - |s|
  {
    if |s| < width {
      var more := "0" + s;
      ZeroFillMeans(more, width);
      ZeroedMore(ZeroFill(more, width), s);
    }
  }

  lemma ZeroedMore(r: string, s: string)
    requires |r| > |s| && r[|r| - |s| - 1..] == "0" + s
    ensures r[|r| - |s|..] == s && r[|r| - |s| - 1] == '0'
  {
    var tail := r[|r| - |s| - 1..];
    assert tail[1..] == s && tail[0] == '0';
    assert r[|r| - |s|..] == tail[1..];
  }

  /** A padded number has at least the width, exactly when it fits in it, and its digits at the end after zeros. */
  lemma PaddedMeans(n: nat, width: nat)
    requires width >= 1
    ensures var r, s := Padded(n, width), Decimal(n);
      && |r| >= width && (|r| == width <==> n < Power10(width))
      && |s| <= |r| && r[|r| - |s|..] == s && forall i | 0 <= i < |r| - |s| :: r[i] == '0'
  {
    ZeroFillMeans(Decimal(n), width);
    DecimalLength(n, width);
  }

  lemma {:induction false} ValueOfDecimal(n: nat)
    ensures Value(Decimal(n)) == n
  {
    if n >= 10 {
      ValueOfDecimal(n / 10);
      assert Decimal(n)[..|Decimal(n)| - 1] == Decimal(n / 10);
    }
  }

  lemma {:induction false} LeadingZero(s: string)
    requires forall c | c in s :: IsDigit(c)
    ensures Value("0" + s) == Value(s)
  {
    if s != "" {
      LeadingZero(s[..|s| - 1]);
      assert ("0" + s)[..|s|] == "0" + s[..|s| - 1];
    }
  }

  lemma {:induction false} ValueOfZeroFill(s: string, width: nat)
    requires s != "" && forall c | c in s :: IsDigit(c)
    ensures Value(ZeroFill(s, width)) == Value(s)
    decreases width - |s|
  {
    if |s| < width {
      ValueOfZeroFill("0" + s, width);
      LeadingZero(s);
    }
  }

  /** `int(s)`: surrounding spaces, an optional sign, then digits. */
  function ParseInt(s: string): Option<int> {
    var t := Strip(s);
    var negative := t != "" && t[0] == '-';
    var digits := if t != "" && (t[0] == '-' || t[0] == '+') then t[1..] else t;
    if digits != "" && forall c | c in digits :: IsDigit(c) then
      var value: int := Value(digits);
      Some(if negative then -value else value)
    else None
  }

  lemma ParseOfDigits(s: string)
    requires s != "" && forall c | c in s :: IsDigit(c)
    ensures ParseInt(s) == Some(Value(s))
    ensures IsStripped(s)
  {
    assert IsDigit(s[0]) && IsDigit(s[|s| - 1]);
    StripPadded("", s, "");
    assert "" + s + "" == s;
  }

  /** Spaces, a sign or none, digits and spaces parse to the signed number. */
  lemma ParseSigned(pre: string, sign: string, digits: string, post: string)
    requires forall c | c in pre + post :: IsSpace(c)
    requires sign in {"", "+", "-"} && digits != "" && forall c | c in digits :: IsDigit(c)
    ensures ParseInt(pre + sign + digits + post) == Some(if sign == "-" then -(Value(digits) as int) else Value(digits) as int)
  {
    hide Strip, Value;
    var t := sign + digits;
    assert digits[0] in digits && digits[|digits| - 1] in digits;
    assert t[|t| - 1] == digits[|digits| - 1];
    assert IsStripped(t);
    StripPadded(pre, t, post);
    assert pre + t + post == pre + sign + digits + post;
    assert sign == "" ==> t == digits;
    assert sign != "" ==> t[1..] == digits && t[0] == sign[0];
  }

  lemma SplitIn(s: string, lo: nat, hi: nat, sign: string, digits: string)
    requires lo <= hi <= |s| && s[lo..hi] == sign + digits
    requires forall i | 0 <= i < lo || hi <= i < |s| :: IsSpace(s[i])
    ensures s == s[..lo] + sign + digits + s[hi..] && forall c | c in s[..lo] + s[hi..] :: IsSpace(c)
  {
    assert s == s[..lo] + s[lo..hi] + s[hi..];
    assert s[..lo] + (sign + digits) == s[..lo] + sign + digits;
    assert forall i | 0 <= i < |s[..lo]| :: IsSpace(s[..lo][i]);
    assert forall i | 0 <= i < |s[hi..]| :: IsSpace(s[hi..][i]);
  }

  /** Nothing else parses. */
  lemma ParsedIsSigned(s: string) returns (pre: string, sign: string, digits: string, post: string)
    requires ParseInt(s).Some?
    ensures s == pre + sign + digits + post && forall c | c in pre + post :: IsSpace(c)
    ensures sign in {"", "+", "-"} && digits != "" && forall c | c in digits :: IsDigit(c)
  {
    hide Strip, Value;
    var lo, hi := StripMeans(s);
    var t := Strip(s);
    pre, post := s[..lo], s[hi..];
    sign := if t[0] == '-' || t[0] == '+' then [t[0]] else "";
    digits := t[|sign|..];
    SplitIn(s, lo, hi, sign, digits);
  }

  /** Printing with any width and parsing gives the number back. */
  lemma ParseOfPadded(n: nat, width: nat)
    ensures ParseInt(Padded(n, width)) == Some(n)
    ensures ParseInt(Decimal(n)) == Some(n)
  {
    ParseOfDigits(Padded(n, width));
    ParseOfDigits(Decimal(n));
    ValueOfZeroFill(Decimal(n), width);
    ValueOfDecimal(n);
  }
}

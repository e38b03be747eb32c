/**
 Sliding-window rate limits: what it means that a window never holds more than
 the limit, and the two limiters that keep it so while they prune their lists.
 */
module SlidingWindow {

  /** The provider limiter counts times after `now - width`; the HTTP limiter also counts the boundary. */
  datatype Window = Window(width: real, closed: bool)

  predicate Live(w: Window, ts: real, now: real) {
    if w.closed then now - ts <= w.width else ts > now - w.width
  }

  /** The times that still count at `now`. */
  function Prune(w: Window, times: seq<real>, now: real): (kept: seq<real>)
    ensures |kept| <= |times|
    ensures forall t | t in kept :: t in times && Live(w, t, now)
  {
    if times == [] then []
    else
      var n := |times| - 1;
      var front := Prune(w, times[..n], now);
      if Live(w, times[n], now) then front + [times[n]] else front
  }

  lemma PruneAppend(w: Window, times: seq<real>, t: real, now: real)
    ensures Prune(w, times + [t], now) == if Live(w, t, now) then Prune(w, times, now) + [t] else Prune(w, times, now)
  {
    assert (times + [t])[..|times|] == times;
  }

  /** An open window counts the requests after its start. */
  lemma {:induction false} OpenCounts(width: real, times: seq<real>, now: real)
    ensures |Prune(Window(width, false), times, now)| == |set i: nat | i < |times| && times[i] > now - width|
  {
    if times != [] {
      var n := |times| - 1;
      OpenCounts(width, times[..n], now);
      var front := set i: nat | i < n && times[..n][i] > now - width;
      var all := set i: nat | i < |times| && times[i] > now - width;
      assert all == if times[n] > now - width then front + {n} else front;
    }
  }

  /** A closed window also counts one made exactly at its start. */
  lemma {:induction false} ClosedCounts(width: real, times: seq<real>, now: real)
    ensures |Prune(Window(width, true), times, now)| == |set i: nat | i < |times| && times[i] >= now - width|
  {
    if times != [] {
      var n := |times| - 1;
      ClosedCounts(width, times[..n], now);
      var front := set i: nat | i < n && times[..n][i] >= now - width;
      var all := set i: nat | i < |times| && times[i] >= now - width;
      assert all == if times[n] >= now - width then front + {n} else front;
    }
  }

  /** What has stopped counting never counts again. */
  lemma {:induction false} PruneTwice(w: Window, times: seq<real>, now: real, later: real)
    requires now <= later
    ensures Prune(w, Prune(w, times, now), later) == Prune(w, times, later)
  {
    if times != [] {
      var n := |times| - 1;
      PruneTwice(w, times[..n], now, later);
      if Live(w, times[n], now) {
        PruneAppend(w, Prune(w, times[..n], now), times[n], later);
      }
    }
  }

  // ---------- the promise ----------

  datatype Span = FromIncluded(a: real) | FromExcluded(a: real) | BothEnds(a: real)

  /** `t` lies in the span of the given width that starts at `a`. */
  predicate Within(span: Span, width: real, t: real) {
    match span
    case FromIncluded(a) => a <= t < a + width
    case FromExcluded(a) => a < t <= a + width
    case BothEnds(a) => a <= t <= a + width
  }

  function CountIn(span: Span, width: real, times: seq<real>): nat {
    if times == [] then 0
    else CountIn(span, width, times[..|times| - 1]) + if Within(span, width, times[|times| - 1]) then 1 else 0
  }

  /** A span reaches from its start to its end and includes the ends its name tells. */
  lemma WithinMeans(span: Span, width: real, t: real)
    ensures Within(span, width, t) <==>
      && span.a <= t <= span.a + width
      && (span.FromExcluded? ==> t != span.a) && (span.FromIncluded? ==> t != span.a + width)
  {
  }

  /** The places of the times that lie in a span. */
  function Inside(span: Span, width: real, times: seq<real>): set<nat> {
    set i: nat | i < |times| && Within(span, width, times[i])
  }

  lemma InsideSplits(span: Span, width: real, times: seq<real>)
    requires times != []
    ensures var n := |times| - 1;
      |Inside(span, width, times)| == |Inside(span, width, times[..n])| + if Within(span, width, times[n]) then 1 else 0
  {
    hide Within;
    var n := |times| - 1;
    var front := Inside(span, width, times[..n]);
    forall i: nat | i < n ensures times[..n][i] == times[i] {
    }
    assert n !in front;
    assert Inside(span, width, times) == if Within(span, width, times[n]) then front + {n} else front;
  }

  lemma {:induction false} SpanCounts(span: Span, width: real, times: seq<real>)
    ensures CountIn(span, width, times) == |Inside(span, width, times)|
  {
    hide Within, Inside;
    if times == [] {
      NothingInside(span, width);
    } else {
      SpanCounts(span, width, times[..|times| - 1]);
      InsideSplits(span, width, times);
    }
  }

  lemma NothingInside(span: Span, width: real)
    ensures Inside(span, width, []) == {}
  {
  }

  /** Every grant was made when fewer than the limit still counted, at a time not before the earlier ones. */
  ghost predicate GrantedWithin(w: Window, limit: int, history: seq<real>) {
    forall j | 0 <= j < |history| ::
      && |Prune(w, history[..j], history[j])| < limit
      && forall i | 0 <= i < j :: history[i] <= history[j]
  }

  /** Inside a span that ends at or after `now`, everything up to `now` still counts at `now`. */
  lemma {:induction false} SpanIsLive(w: Window, span: Span, times: seq<real>, now: real)
    requires span.BothEnds? ==> w.closed
    requires Within(span, w.width, now) && forall t | t in times :: t <= now
    ensures CountIn(span, w.width, times) <= |Prune(w, times, now)|
  {
    if times != [] {
      var n := |times| - 1;
      assert times[n] in times && forall t | t in times[..n] :: t in times;
      SpanIsLive(w, span, times[..n], now);
    }
  }

  /**
   No half-open span of the window's width ever holds more grants than the
   limit; for a limiter that counts the boundary, no closed span does.
   */
  lemma {:induction false} NoSpanOverLimit(w: Window, limit: int, history: seq<real>, span: Span)
    requires GrantedWithin(w, limit, history) && (span.BothEnds? ==> w.closed)
    ensures CountIn(span, w.width, history) <= if limit < 0 then 0 else limit
  {
    hide Prune, GrantedWithin, Within;
    if history != [] {
      var n := |history| - 1;
      var front, last := history[..n], history[n];
      GrantedFront(w, limit, history);
      NoSpanOverLimit(w, limit, front, span);
      if Within(span, w.width, last) {
        SpanIsLive(w, span, front, last);
      }
    }
  }

  lemma GrantedFront(w: Window, limit: int, history: seq<real>)
    requires GrantedWithin(w, limit, history) && history != []
    ensures var front := history[..|history| - 1];
      && GrantedWithin(w, limit, front)
      && |Prune(w, front, history[|history| - 1])| < limit
      && forall t | t in front :: t <= history[|history| - 1]
  {
    hide Prune;
    var n := |history| - 1;
    var front := history[..n];
    forall j | 0 <= j < n
      ensures |Prune(w, front[..j], front[j])| < limit && forall i | 0 <= i < j :: front[i] <= front[j]
    {
      assert front[..j] == history[..j];
    }
  }

  /** From `since` on, the pruned list and the full history make the same decisions. */
  ghost predicate Agrees(w: Window, pruned: seq<real>, history: seq<real>, since: real) {
    forall now | since <= now :: Prune(w, pruned, now) == Prune(w, history, now)
  }

  lemma AgreesAfterPrune(w: Window, pruned: seq<real>, history: seq<real>, since: real, now: real)
    requires Agrees(w, pruned, history, since) && since <= now
    ensures Agrees(w, Prune(w, pruned, now), history, now)
    ensures |Prune(w, pruned, now)| == |Prune(w, history, now)|
  {
    forall later | now <= later ensures Prune(w, Prune(w, pruned, now), later) == Prune(w, history, later) {
      PruneTwice(w, pruned, now, later);
    }
  }

  lemma AgreesAfterGrant(w: Window, pruned: seq<real>, history: seq<real>, now: real)
    requires Agrees(w, pruned, history, now)
    ensures Agrees(w, pruned + [now], history + [now], now)
  {
    forall later | now <= later ensures Prune(w, pruned + [now], later) == Prune(w, history + [now], later) {
      PruneAppend(w, pruned, now, later);
      PruneAppend(w, history, now, later);
    }
  }

  lemma GrantKeeps(w: Window, limit: int, history: seq<real>, now: real)
    requires GrantedWithin(w, limit, history) && |Prune(w, history, now)| < limit
    requires forall t | t in history :: t <= now
    ensures GrantedWithin(w, limit, history + [now])
  {
    var h := history + [now];
    forall j | 0 <= j < |h| ensures |Prune(w, h[..j], h[j])| < limit && forall i | 0 <= i < j :: h[i] <= h[j] {
      if j < |history| {
        assert h[..j] == history[..j];
      } else {
        assert h[..j] == history;
        assert forall i | 0 <= i < j :: h[i] in history;
      }
    }
  }
}

/**
 What pause and cancel requests may do to a run while its executor gives up
 control: `requests` says what the other coroutines ask for at each await.
 */
module WorkflowControl {

  datatype RunStatus = Queued | Running | Paused | Completed | Failed | Cancelled

  datatype Request = Quiet | AskPause | AskCancel
  type Requests = nat -> Request

  predicate InFlight(status: RunStatus, cancelEvent: bool) {
    status == Running || status == Paused || (status == Cancelled && cancelEvent)
  }

  ghost predicate Silent(requests: Requests, from: nat, to: nat) {
    forall t | from <= t < to :: requests(t) == Quiet
  }

  ghost predicate CancelAsked(requests: Requests, from: nat, to: nat) {
    exists t :: from <= t < to && requests(t) == AskCancel
  }

  ghost predicate PauseAsked(requests: Requests, from: nat, to: nat) {
    exists t :: from <= t < to && requests(t) == AskPause
  }

  /** Every pause request fell in the back-off of a retry. */
  ghost predicate OnlyBackOffPauses(requests: Requests, from: nat, to: nat, naps: set<nat>) {
    forall t | from <= t < to && requests(t) == AskPause :: t in naps
  }

  /** What requests may change; `naps` are the awaits that were the sleep of a retry back-off. */
  datatype Control = Control(awaits: nat, cancelEvent: bool, status: RunStatus, held: bool, naps: set<nat>)

  /** Every back-off is over. */
  ghost predicate PastOnly(naps: set<nat>, awaits: nat) {
    forall t | t in naps :: t < awaits
  }

  lemma PastGrows(naps: set<nat>, awaits: nat)
    requires PastOnly(naps, awaits)
    ensures PastOnly(naps, awaits + 1) && PastOnly(naps + {awaits}, awaits + 1)
  {
  }

  /** Only cancel requests set the cancel event, and nothing clears it. */
  ghost predicate CancelObeyed(requests: Requests, a: Control, b: Control) {
    && a.awaits <= b.awaits
    && (a.cancelEvent ==> b.cancelEvent)
    && (b.cancelEvent ==> a.cancelEvent || CancelAsked(requests, a.awaits, b.awaits))
  }

  /** The back-offs from `a` to `b` are new ones. */
  ghost predicate NapsKept(a: Control, b: Control) {
    && a.naps <= b.naps
    && forall t | t in b.naps && t !in a.naps :: a.awaits <= t < b.awaits
  }

  /**
   Unless a cancel came, a running run is PAUSED after exactly those pause
   requests that did not fall in a back-off; its pause event is cleared after
   any of them.
   */
  ghost predicate PausesObeyed(requests: Requests, a: Control, b: Control) {
    && (a.status == Running ==>
      && b.status == (if OnlyBackOffPauses(requests, a.awaits, b.awaits, b.naps) then Running else Paused)
      && (b.held <==> a.held || PauseAsked(requests, a.awaits, b.awaits)))
    && (a.status == Paused ==> b.status == Paused && b.held == a.held)
  }

  /** All together; without requests the run's status and its pause event stay. */
  ghost predicate Obeyed(requests: Requests, a: Control, b: Control) {
    && CancelObeyed(requests, a, b)
    && NapsKept(a, b)
    && (InFlight(a.status, a.cancelEvent) ==> InFlight(b.status, b.cancelEvent))
    && (Silent(requests, a.awaits, b.awaits) ==> b.status == a.status && b.held == a.held)
    && (!b.cancelEvent ==> PausesObeyed(requests, a, b))
  }

  lemma ObeyedSelf(requests: Requests, a: Control)
    ensures Obeyed(requests, a, a)
  {
  }

  lemma CancelObeyedChain(requests: Requests, a: Control, b: Control, c: Control)
    requires CancelObeyed(requests, a, b) && CancelObeyed(requests, b, c)
    ensures CancelObeyed(requests, a, c)
  {
    if CancelAsked(requests, a.awaits, b.awaits) {
      var t :| a.awaits <= t < b.awaits && requests(t) == AskCancel;
      assert a.awaits <= t < c.awaits;
    } else if CancelAsked(requests, b.awaits, c.awaits) {
      var t :| b.awaits <= t < c.awaits && requests(t) == AskCancel;
      assert a.awaits <= t < c.awaits;
    }
  }

  lemma PauseAskedSplits(requests: Requests, from: nat, mid: nat, to: nat)
    requires from <= mid <= to
    ensures PauseAsked(requests, from, to) <==> PauseAsked(requests, from, mid) || PauseAsked(requests, mid, to)
  {
    if PauseAsked(requests, from, to) {
      var t :| from <= t < to && requests(t) == AskPause;
      assert t < mid || mid <= t;
    }
    if PauseAsked(requests, from, mid) {
      var t :| from <= t < mid && requests(t) == AskPause;
      assert from <= t < to;
    }
    if PauseAsked(requests, mid, to) {
      var t :| mid <= t < to && requests(t) == AskPause;
      assert from <= t < to;
    }
  }

  lemma OnlyBackOffSplits(requests: Requests, a: Control, b: Control, c: Control)
    requires a.awaits <= b.awaits <= c.awaits && NapsKept(a, b) && NapsKept(b, c)
    ensures OnlyBackOffPauses(requests, a.awaits, c.awaits, c.naps) <==>
      OnlyBackOffPauses(requests, a.awaits, b.awaits, b.naps) && OnlyBackOffPauses(requests, b.awaits, c.awaits, c.naps)
  {
  }

  lemma SomePauseOutside(requests: Requests, from: nat, to: nat, naps: set<nat>)
    requires !OnlyBackOffPauses(requests, from, to, naps)
    ensures PauseAsked(requests, from, to)
  {
    var t :| from <= t < to && requests(t) == AskPause && t !in naps;
  }

  lemma PausesObeyedChain(requests: Requests, a: Control, b: Control, c: Control)
    requires a.awaits <= b.awaits <= c.awaits && NapsKept(a, b) && NapsKept(b, c)
    requires PausesObeyed(requests, a, b) && PausesObeyed(requests, b, c)
    ensures PausesObeyed(requests, a, c)
  {
    hide PauseAsked, OnlyBackOffPauses, NapsKept;
    PauseAskedSplits(requests, a.awaits, b.awaits, c.awaits);
    OnlyBackOffSplits(requests, a, b, c);
    if !OnlyBackOffPauses(requests, a.awaits, b.awaits, b.naps) {
      SomePauseOutside(requests, a.awaits, b.awaits, b.naps);
    }
  }

  lemma NapsKeptChain(a: Control, b: Control, c: Control)
    requires a.awaits <= b.awaits <= c.awaits && NapsKept(a, b) && NapsKept(b, c)
    ensures NapsKept(a, c)
  {
  }

  lemma ObeyedChain(requests: Requests, a: Control, b: Control, c: Control)
    requires Obeyed(requests, a, b) && Obeyed(requests, b, c)
    ensures Obeyed(requests, a, c)
  {
    hide PausesObeyed, NapsKept;
    CancelObeyedChain(requests, a, b, c);
    NapsKeptChain(a, b, c);
    if !c.cancelEvent {
      PausesObeyedChain(requests, a, b, c);
    }
  }

  /** One await at which the request was carried out. */
  predicate OneAwait(requests: Requests, a: Control, b: Control) {
    && b.awaits == a.awaits + 1 && b.naps == a.naps
    && match requests(a.awaits)
       case Quiet => b.status == a.status && b.held == a.held && b.cancelEvent == a.cancelEvent
       case AskPause =>
         && b.cancelEvent == a.cancelEvent
         && if a.status == Running then b.status == Paused && b.held else b.status == a.status && b.held == a.held
       case AskCancel => b.status == Cancelled && b.held == a.held && b.cancelEvent
  }

  lemma OneAwaitObeyed(requests: Requests, a: Control, b: Control)
    requires OneAwait(requests, a, b) && PastOnly(a.naps, a.awaits)
    ensures Obeyed(requests, a, b)
  {
    assert requests(a.awaits) == AskCancel ==> CancelAsked(requests, a.awaits, b.awaits);
    assert requests(a.awaits) == AskPause ==> PauseAsked(requests, a.awaits, b.awaits);
  }

  /** A back-off: the record read before the sleep is saved again, over the status the request had set. */
  lemma NapObeyed(requests: Requests, a: Control, b: Control)
    requires OneAwait(requests, a, b)
    ensures Obeyed(requests, a, b.(status := a.status, naps := a.naps + {a.awaits}))
  {
    assert requests(a.awaits) == AskCancel ==> CancelAsked(requests, a.awaits, b.awaits);
    assert requests(a.awaits) == AskPause ==> PauseAsked(requests, a.awaits, b.awaits);
  }

  lemma SilentKeeps(requests: Requests, a: Control, b: Control, from: nat, to: nat)
    requires Obeyed(requests, a, b) && Silent(requests, from, to) && from <= a.awaits && b.awaits <= to
    ensures b.status == a.status && b.held == a.held
  {
  }

  lemma SilentPart(requests: Requests, from: nat, low: nat, high: nat, to: nat)
    requires Silent(requests, from, to) && from <= low <= high <= to
    ensures Silent(requests, low, high)
  {
  }

  lemma SilentAt(requests: Requests, from: nat, to: nat)
    requires Silent(requests, from, to) && from < to
    ensures requests(from) == Quiet
  {
  }

  lemma LaterPauses(requests: Requests, from: nat, to: nat, naps: set<nat>)
    requires from < to && requests(from) != AskPause
    ensures PauseAsked(requests, from, to) <==> PauseAsked(requests, from + 1, to)
    ensures OnlyBackOffPauses(requests, from, to, naps) <==> OnlyBackOffPauses(requests, from + 1, to, naps)
  {
    PauseAskedSplits(requests, from, from + 1, to);
  }

  lemma SilentNoCancel(requests: Requests, a: Control, b: Control)
    requires CancelObeyed(requests, a, b) && Silent(requests, a.awaits, b.awaits) && !a.cancelEvent
    ensures !b.cancelEvent
  {
  }

  lemma ObeyedMeans(requests: Requests, a: Control, b: Control)
    requires Obeyed(requests, a, b)
    ensures CancelObeyed(requests, a, b) && NapsKept(a, b)
    ensures InFlight(a.status, a.cancelEvent) ==> InFlight(b.status, b.cancelEvent)
    ensures !b.cancelEvent ==> PausesObeyed(requests, a, b)
  {
  }

  lemma CancelMonotone(requests: Requests, a: Control, b: Control)
    requires CancelObeyed(requests, a, b)
    ensures a.awaits <= b.awaits && (a.cancelEvent ==> b.cancelEvent)
  {
  }

  lemma StatusIsFree(requests: Requests, a: Control, b: Control, c: Control)
    requires CancelObeyed(requests, a, b) && c.awaits == b.awaits && c.cancelEvent == b.cancelEvent
    ensures CancelObeyed(requests, a, c)
  {
  }

  /** A session that began with one await before its executor ran alone. */
  lemma SessionFromStart(requests: Requests, start: Control, alone: Control, end: Control)
    requires CancelObeyed(requests, start, alone) && CancelObeyed(requests, alone, end) && alone.awaits == start.awaits + 1
    ensures CancelObeyed(requests, start, end)
    ensures Silent(requests, start.awaits, end.awaits) ==>
      requests(start.awaits) == Quiet && Silent(requests, alone.awaits, end.awaits)
    ensures requests(start.awaits) != AskPause ==>
      && (PauseAsked(requests, start.awaits, end.awaits) <==> PauseAsked(requests, alone.awaits, end.awaits))
      && (OnlyBackOffPauses(requests, start.awaits, end.awaits, end.naps)
          <==> OnlyBackOffPauses(requests, alone.awaits, end.awaits, end.naps))
  {
    hide CancelObeyed, Silent, PauseAsked, OnlyBackOffPauses;
    CancelObeyedChain(requests, start, alone, end);
    CancelMonotone(requests, alone, end);
    if requests(start.awaits) != AskPause {
      LaterPauses(requests, start.awaits, end.awaits, end.naps);
    }
    if Silent(requests, start.awaits, end.awaits) {
      SilentPart(requests, start.awaits, alone.awaits, end.awaits, end.awaits);
      SilentAt(requests, start.awaits, end.awaits);
    }
  }
}

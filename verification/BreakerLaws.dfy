/** What a circuit breaker does over a whole run, told from the reported outcomes and clock readings. */
module BreakerLaws {
  import opened Common
  import opened CircuitBreaker

  // ----- what the run itself says -----

  /** No success is reported after position i. */
  ghost predicate NoSuccessAfter(events: seq<Event>, i: nat) {
    forall j :: i < j < |events| ==> !events[j].Succeeded?
  }

  /** Failures reported since the last success. */
  function FailuresInARow(events: seq<Event>): nat {
    if events == [] then 0
    else
      match events[|events| - 1]
      case Failed(_, _, _) => 1 + FailuresInARow(events[..|events| - 1])
      case Succeeded(_) => 0
      case _ => FailuresInARow(events[..|events| - 1])
  }

  /** Failures reported at or after a time. */
  function FailedSince(events: seq<Event>, from: int): nat {
    if events == [] then 0
    else
      var e := events[|events| - 1];
      FailedSince(events[..|events| - 1], from) + if e.Failed? && e.pushAt >= from then 1 else 0
  }

  /** Failures and successes reported at or after a time. */
  function ToldSince(events: seq<Event>, from: int): nat {
    if events == [] then 0
    else
      var e := events[|events| - 1];
      ToldSince(events[..|events| - 1], from)
      + if (e.Failed? && e.pushAt >= from) || (e.Succeeded? && e.now >= from) then 1 else 0
  }

  /** More than half of at least six. */
  predicate MostFail(events: seq<Event>, from: int) {
    ToldSince(events, from) >= 6 && 2 * FailedSince(events, from) > ToldSince(events, from)
  }

  /** The last event is a fifth failure in a row, or the one that makes most of the last minute's six or more fail. */
  predicate TripsNow(events: seq<Event>) {
    && events != [] && events[|events| - 1].Failed?
    && (FailuresInARow(events) >= 5 || MostFail(events, events[|events| - 1].rateAt - 60_000))
  }

  predicate Trips(events: seq<Event>, i: nat) { i < |events| && TripsNow(events[..i + 1]) }

  // ----- success closes, only failures refuse -----

  /** Told a success, a breaker is closed at once, and the next request is admitted whenever it comes. */
  lemma SuccessCloses(events: seq<Event>, i: nat, now: int)
    requires i < |events| && events[i].Succeeded?
    ensures Run(events[..i + 1]).state == Closed && Allow(Run(events[..i + 1]), now).1
  {
    assert events[..i + 1][..i] == events[..i];
  }

  lemma {:induction false} NotClosedHasFailure(events: seq<Event>) returns (i: nat)
    requires Run(events).state != Closed
    ensures i < |events| && events[i].Failed? && NoSuccessAfter(events, i)
  {
    var n := |events| - 1;
    if events[n].Failed? {
      i := n;
    } else {
      i := NotClosedHasFailure(events[..n]);
      assert forall j :: i < j < n ==> events[j] == events[..n][j];
    }
  }

  /** A refused request has an earlier failure with no success between the two. */
  lemma RefusedHasFailure(events: seq<Event>, now: int) returns (i: nat)
    requires !Allow(Run(events), now).1
    ensures i < |events| && events[i].Failed? && NoSuccessAfter(events, i)
  {
    i := NotClosedHasFailure(events);
  }

  // ----- exactly when a breaker is closed -----

  lemma {:induction false} FailuresCounted(events: seq<Event>)
    ensures TrailingFailures(History(events)) == FailuresInARow(events)
  {
    if events != [] {
      var n := |events| - 1;
      FailuresCounted(events[..n]);
      var before, last := History(events[..n]), Outcome(events[n]);
      if last == [] {
        assert History(events) == before;
      } else {
        assert History(events)[..|before|] == before && History(events)[|before|] == last[0];
      }
    }
  }

  function Failures(samples: seq<Sample>): seq<Sample> { Filter(samples, (s: Sample) => !s.success) }

  lemma WindowAppend(a: seq<Sample>, b: seq<Sample>, from: int)
    ensures Since(a + b, from) == Since(a, from) + Since(b, from)
    ensures Failures(Since(a + b, from)) == Failures(Since(a, from)) + Failures(Since(b, from))
  {
    FilterAppend(a, b, (s: Sample) => s.atMs >= from);
    FilterAppend(Since(a, from), Since(b, from), (s: Sample) => !s.success);
  }

  lemma WindowOfOne(e: Event, from: int)
    ensures |Since(Outcome(e), from)|
      == if (e.Failed? && e.pushAt >= from) || (e.Succeeded? && e.now >= from) then 1 else 0
    ensures |Failures(Since(Outcome(e), from))| == if e.Failed? && e.pushAt >= from then 1 else 0
  {
    if Outcome(e) != [] {
      assert Outcome(e)[1..] == [];
      assert Since(Outcome(e), from) == (if Outcome(e)[0].atMs >= from then [Outcome(e)[0]] else []) + Since([], from);
      if Since(Outcome(e), from) != [] {
        assert Since(Outcome(e), from)[1..] == [];
      }
    }
  }

  /** The window of the reported outcomes counts what the run reports since then. */
  lemma {:induction false} WindowCounted(events: seq<Event>, from: int)
    ensures |Since(History(events), from)| == ToldSince(events, from)
    ensures |Failures(Since(History(events), from))| == FailedSince(events, from)
  {
    if events != [] {
      var n := |events| - 1;
      WindowCounted(events[..n], from);
      WindowAppend(History(events[..n]), Outcome(events[n]), from);
      WindowOfOne(events[n], from);
    }
  }

  lemma RateIsMajority(window: seq<Sample>)
    ensures RateExceeded(window) <==> |window| >= 6 && 2 * |Failures(window)| > |window|
  {
    if window != [] { AboveHalf(|Failures(window)|, |window|); }
  }

  lemma AboveHalf(f: nat, n: nat)
    requires n > 0
    ensures f as real / n as real > 0.5 <==> 2 * f > n
  {
    var ratio := f as real / n as real;
    assert ratio * n as real == f as real;
    if ratio > 0.5 { Scaled(0.5, ratio, n as real); } else { Scaled(ratio, 0.5, n as real); }
  }

  lemma Scaled(x: real, y: real, c: real)
    requires x <= y && c > 0.0
    ensures x * c <= y * c && (x < y ==> x * c < y * c)
  {
  }

  lemma Unpack(events: seq<Event>)
    requires events != [] && Monotone(events)
    ensures var n := |events| - 1;
      && Monotone(events[..n]) && LastTime(events[..n]) <= FirstTime(events[n])
      && (events[n].Failed? ==> events[n].pushAt <= events[n].rateAt <= events[n].openAt)
  {
  }

  lemma HistoryAppend(events: seq<Event>, e: Event)
    ensures History(events + [e]) == History(events) + Outcome(e)
  {
    assert (events + [e])[..|events|] == events;
  }

  lemma RateOfHistory(events: seq<Event>, from: int)
    ensures RateExceeded(Since(History(events), from)) <==> MostFail(events, from)
  {
    RateIsMajority(Since(History(events), from));
    WindowCounted(events, from);
  }

  lemma RateAsTold(events: seq<Event>, e: Event)
    requires Monotone(events) && e.Failed? && LastTime(events) <= e.pushAt <= e.rateAt
    ensures var kept := PushSample(Run(events), false, e.pushAt).samples;
      RateExceeded(Since(kept, e.rateAt - 60_000)) <==> MostFail(events + [e], e.rateAt - 60_000)
  {
    KeptWindow(events, e);
    RateOfHistory(events + [e], e.rateAt - 60_000);
  }

  lemma KeptWindow(events: seq<Event>, e: Event)
    requires Monotone(events) && e.Failed? && LastTime(events) <= e.pushAt <= e.rateAt
    ensures Since(PushSample(Run(events), false, e.pushAt).samples, e.rateAt - 60_000)
         == Since(History(events + [e]), e.rateAt - 60_000)
  {
    HistoryAppend(events, e);
    KeptWindowOf(events, e.pushAt, e.rateAt, History(events + [e]), e.rateAt - 60_000);
  }

  lemma KeptWindowOf(events: seq<Event>, pushAt: int, rateAt: int, told: seq<Sample>, from: int)
    requires Monotone(events) && LastTime(events) <= pushAt <= rateAt && from == rateAt - WINDOW_MS
    requires told == History(events) + [Sample(pushAt, false)]
    ensures Since(PushSample(Run(events), false, pushAt).samples, from) == Since(told, from)
  {
    VerdictOnWholeHistory(events, pushAt, rateAt);
  }

  lemma RowAsTold(events: seq<Event>, e: Event)
    requires e.Failed?
    ensures FailuresInARow(events + [e]) == Run(events).consecutiveFailures + 1
  {
    assert (events + [e])[..|events|] == events;
    FailureRun(events);
    FailuresCounted(events);
  }

  /** What a failure does: it opens the breaker, at its last clock reading, or leaves it as it was. */
  predicate OpenedOrKept(before: Breaker, after: Breaker, e: Event, opens: bool)
    requires e.Failed?
  {
    if opens then after.state == Open && after.openedAtMs == e.openAt
    else after.state == before.state && after.openedAtMs == before.openedAtMs
  }

  /** A failure opens the breaker exactly when it trips it or finds it half-open. */
  lemma FailureOpens(events: seq<Event>)
    requires events != [] && Monotone(events) && events[|events| - 1].Failed?
    ensures var before := Run(events[..|events| - 1]);
      OpenedOrKept(before, Run(events), events[|events| - 1], TripsNow(events) || before.state == HalfOpen)
  {
    Unpack(events);
    FailureOpensOn(events[..|events| - 1], events[|events| - 1]);
    TakeAll(events);
  }

  lemma FailureOpensOn(events: seq<Event>, e: Event)
    requires Monotone(events) && e.Failed? && LastTime(events) <= e.pushAt <= e.rateAt
    ensures OpenedOrKept(Run(events), Run(events + [e]), e, TripsNow(events + [e]) || Run(events).state == HalfOpen)
  {
    TripsAsTold(events, e);
    FailureOpensIf(Run(events), e, TripsNow(events + [e]));
    RunAppend(events, e);
  }

  lemma RunAppend(events: seq<Event>, e: Event)
    ensures Run(events + [e]) == Step(Run(events), e)
  {
    assert (events + [e])[..|events|] == events;
  }

  lemma TripsAsTold(events: seq<Event>, e: Event)
    requires Monotone(events) && e.Failed? && LastTime(events) <= e.pushAt <= e.rateAt
    ensures var b := Run(events);
      TripsNow(events + [e]) <==>
        b.consecutiveFailures + 1 >= 5 || RateExceeded(Since(PushSample(b, false, e.pushAt).samples, e.rateAt - 60_000))
  {
    RowAsTold(events, e);
    RateAsTold(events, e);
  }

  lemma FailureOpensIf(b: Breaker, e: Event, trips: bool)
    requires e.Failed?
    requires trips <==>
      b.consecutiveFailures + 1 >= 5 || RateExceeded(Since(PushSample(b, false, e.pushAt).samples, e.rateAt - 60_000))
    ensures OpenedOrKept(b, Step(b, e), e, trips || b.state == HalfOpen)
  {
  }

  predicate Down(events: seq<Event>) {
    if events == [] then false
    else if events[|events| - 1].Succeeded? then false
    else TripsNow(events) || Down(events[..|events| - 1])
  }

  lemma {:induction false} DownIff(events: seq<Event>)
    ensures Down(events) <==> exists i: nat :: Trips(events, i) && NoSuccessAfter(events, i)
  {
    if events != [] {
      var n := |events| - 1;
      DownIff(events[..n]);
      TakeAll(events);
      assert Trips(events, n) <==> TripsNow(events);
      forall i: nat | i < n
        ensures Trips(events, i) <==> Trips(events[..n], i)
        ensures NoSuccessAfter(events, i) <==> NoSuccessAfter(events[..n], i) && !events[n].Succeeded?
      {
        assert events[..n][..i + 1] == events[..i + 1];
      }
    }
  }

  lemma {:induction false} NotClosedIsDown(events: seq<Event>)
    requires Monotone(events)
    ensures Run(events).state != Closed <==> Down(events)
  {
    if events != [] {
      Unpack(events);
      NotClosedIsDown(events[..|events| - 1]);
      if events[|events| - 1].Failed? { FailureOpens(events); }
    }
  }

  /**
   With a clock that does not run back, a breaker is closed exactly when every failure that
   trips it was followed by a success: five failures in a row, or more than half of at least
   six outcomes in the last minute.
   */
  lemma ClosedExactlyWhen(events: seq<Event>)
    requires Monotone(events)
    ensures Run(events).state == Closed <==>
      forall i: nat :: Trips(events, i) ==> exists j :: i < j < |events| && events[j].Succeeded?
  {
    NotClosedIsDown(events);
    DownIff(events);
    forall i: nat ensures NoSuccessAfter(events, i) <==> !exists j :: i < j < |events| && events[j].Succeeded? { }
  }

  // ----- how long it stays open -----

  /** A failure that opens the breaker: one that trips it, or any while it is half-open. */
  predicate Opens(events: seq<Event>, i: nat) {
    i < |events| && events[i].Failed? && (Trips(events, i) || Run(events[..i]).state == HalfOpen)
  }

  ghost predicate LastOpening(events: seq<Event>, i: nat) {
    Opens(events, i) && forall j: nat :: i < j < |events| ==> !Opens(events, j) && !events[j].Succeeded?
  }

  lemma OpeningPrefix(events: seq<Event>, i: nat)
    requires i < |events| - 1
    ensures Opens(events, i) <==> Opens(events[..|events| - 1], i)
  {
    assert events[..|events| - 1][..i + 1] == events[..i + 1];
    assert events[..|events| - 1][..i] == events[..i];
  }

  lemma LastOpeningKept(events: seq<Event>, i: nat)
    requires events != [] && LastOpening(events[..|events| - 1], i)
    requires !events[|events| - 1].Succeeded? && !Opens(events, |events| - 1)
    ensures LastOpening(events, i)
  {
    forall j: nat | i <= j < |events| - 1 { OpeningPrefix(events, j); }
  }

  /** The event lets a breaker opened at that time go half-open. */
  predicate WaitOver(e: Event, openedAt: int) {
    (e.Poll? || e.Request?) && e.now - openedAt >= 30_000
  }

  predicate IsRequest(e: Event) { e.Request? }

  /** Half-open since the event at k: the first one that came 30 seconds after the last opening. */
  ghost predicate HalfOpenSince(events: seq<Event>, i: nat, k: nat) {
    && LastOpening(events, i) && i < k < |events| && WaitOver(events[k], events[i].openAt)
    && (forall j :: i < j < k ==> !WaitOver(events[j], events[i].openAt))
    && (forall j :: k <= j < |events| ==> !events[j].Failed?)
  }

  /** Open: since the last opening nothing came after 30 seconds or more. */
  ghost predicate StillOpen(events: seq<Event>, i: nat) {
    LastOpening(events, i) && forall j :: i < j < |events| ==> !WaitOver(events[j], events[i].openAt)
  }

  /** What a breaker that is not closed is waiting for. */
  ghost predicate Explained(events: seq<Event>, i: nat, k: nat) {
    Explains(events, Run(events), i, k)
  }

  ghost predicate Explains(events: seq<Event>, b: Breaker, i: nat, k: nat) {
    && (b.state == Open ==> StillOpen(events, i) && b.openedAtMs == events[i].openAt)
    && (b.state == HalfOpen ==>
          && HalfOpenSince(events, i, k)
          && (b.probeInFlight <==> RequestedFrom(events, k)))
  }

  lemma NowOpened(events: seq<Event>)
    requires events != [] && Monotone(events) && Opens(events, |events| - 1)
    ensures Explained(events, |events| - 1, 0)
  {
    TakeAll(events);
    FailureOpens(events);
  }

  /** An event that reports nothing, or a failure that leaves an open breaker open. */
  lemma StaysOpen(events: seq<Event>, i: nat)
    requires events != [] && Monotone(events) && Run(events).state == Run(events[..|events| - 1]).state == Open
    requires Explained(events[..|events| - 1], i, 0) && !Opens(events, |events| - 1)
    ensures Explained(events, i, 0)
  {
    var n := |events| - 1;
    LastOpeningKept(events, i);
    TakeAll(events);
    if events[n].Failed? { FailureOpens(events); }
    assert forall j :: i < j < n ==> events[j] == events[..n][j];
  }

  lemma TickStep(b: Breaker, e: Event)
    requires e.Poll? || e.Request?
    ensures b.state == Closed ==> Step(b, e).state == Closed
    ensures b.state == Open ==> (Step(b, e).state == if WaitOver(e, b.openedAtMs) then HalfOpen else Open)
    ensures b.state == Open && Step(b, e).state == HalfOpen ==> (Step(b, e).probeInFlight <==> e.Request?)
    ensures b.state == HalfOpen ==>
      Step(b, e).state == HalfOpen && (Step(b, e).probeInFlight <==> b.probeInFlight || e.Request?)
  {
  }

  lemma GoesHalfOpen(events: seq<Event>, i: nat)
    requires events != [] && Run(events).state == HalfOpen && Run(events[..|events| - 1]).state == Open
    requires Explained(events[..|events| - 1], i, 0) && (events[|events| - 1].Poll? || events[|events| - 1].Request?)
    ensures Explained(events, i, |events| - 1)
  {
    TickStep(Run(events[..|events| - 1]), events[|events| - 1]);
    WaitEnds(events, i);
    NowHalfOpen(events, Run(events), i);
  }

  lemma NowHalfOpen(events: seq<Event>, b: Breaker, i: nat)
    requires events != [] && b.state == HalfOpen && HalfOpenSince(events, i, |events| - 1)
    requires b.probeInFlight <==> events[|events| - 1].Request?
    ensures Explains(events, b, i, |events| - 1)
  {
  }

  lemma WaitEnds(events: seq<Event>, i: nat)
    requires events != [] && StillOpen(events[..|events| - 1], i)
    requires WaitOver(events[|events| - 1], events[i].openAt)
    ensures HalfOpenSince(events, i, |events| - 1)
  {
    LastOpeningKept(events, i);
    assert forall j :: 0 <= j < |events| - 1 ==> events[j] == events[..|events| - 1][j];
  }

  lemma HalfOpenKept(events: seq<Event>, i: nat, k: nat)
    requires events != [] && HalfOpenSince(events[..|events| - 1], i, k)
    requires events[|events| - 1].Poll? || events[|events| - 1].Request?
    ensures HalfOpenSince(events, i, k)
  {
    LastOpeningKept(events, i);
    assert forall j :: 0 <= j < |events| - 1 ==> events[j] == events[..|events| - 1][j];
  }

  lemma StaysHalfOpen(events: seq<Event>, i: nat, k: nat)
    requires events != [] && Run(events).state == Run(events[..|events| - 1]).state == HalfOpen
    requires Explained(events[..|events| - 1], i, k) && (events[|events| - 1].Poll? || events[|events| - 1].Request?)
    ensures Explained(events, i, k)
  {
    var n := |events| - 1;
    HalfOpenKept(events, i, k);
    TickStep(Run(events[..n]), events[n]);
    ProbeKept(events, k);
  }

  ghost predicate RequestedFrom(events: seq<Event>, k: nat) {
    exists j: nat :: k <= j < |events| && events[j].Request?
  }

  lemma ProbeKept(events: seq<Event>, k: nat)
    requires events != [] && k < |events|
    ensures RequestedFrom(events, k) <==> events[|events| - 1].Request? || RequestedFrom(events[..|events| - 1], k)
  {
    var n := |events| - 1;
    assert forall j :: 0 <= j < n ==> events[j] == events[..n][j];
    if RequestedFrom(events[..n], k) {
      var j: nat :| k <= j < n && events[..n][j].Request?;
      assert events[j].Request?;
    }
  }

  /** How the explanation changes with one more event. */
  lemma ExplainNext(events: seq<Event>, i: nat, k: nat) returns (i': nat, k': nat)
    requires events != [] && Monotone(events) && Run(events).state != Closed
    requires Explained(events[..|events| - 1], i, k)
    ensures Explained(events, i', k')
  {
    var n := |events| - 1;
    if Opens(events, n) {
      NowOpened(events);
      i', k' := n, 0;
    } else if events[n].Failed? {
      NotOpening(events);
      StaysOpen(events, i);
      i', k' := i, 0;
    } else {
      i', k' := ExplainQuiet(events, i, k);
    }
  }

  lemma NotOpening(events: seq<Event>)
    requires events != [] && Monotone(events) && Run(events).state != Closed
    requires events[|events| - 1].Failed? && !Opens(events, |events| - 1)
    ensures Run(events).state == Run(events[..|events| - 1]).state == Open
  {
    FailureOpens(events);
    TakeAll(events);
  }

  lemma ExplainQuiet(events: seq<Event>, i: nat, k: nat) returns (i': nat, k': nat)
    requires events != [] && Monotone(events) && Run(events).state != Closed
    requires Explained(events[..|events| - 1], i, k) && !events[|events| - 1].Failed?
    ensures Explained(events, i', k')
  {
    var n := |events| - 1;
    var b, e := Run(events[..n]), events[n];
    TickStep(b, e);
    if b.state == HalfOpen {
      StaysHalfOpen(events, i, k);
      i', k' := i, k;
    } else if Run(events).state == HalfOpen {
      GoesHalfOpen(events, i);
      i', k' := i, n;
    } else {
      StaysOpen(events, i);
      i', k' := i, 0;
    }
  }

  lemma {:induction false} Explain(events: seq<Event>) returns (i: nat, k: nat)
    requires Monotone(events)
    ensures Explained(events, i, k)
  {
    i, k := 0, 0;
    if events != [] && Run(events).state != Closed {
      Unpack(events);
      i, k := Explain(events[..|events| - 1]);
      i, k := ExplainNext(events, i, k);
    }
  }

  /**
   The verdict on any request, from the run alone. Refused means: a failure opened the breaker,
   no success and no other opening came after it, and either less than 30 seconds have passed
   since, at this request and at every earlier question; or the wait is over and another request
   already went through as the probe, with no failure reported since.
   */
  lemma RefusedExactlyWhen(events: seq<Event>, now: int)
    requires Monotone(events)
    ensures !Allow(Run(events), now).1 <==> exists i: nat :: StillWaiting(events, i, now) || ProbeOut(events, i)
  {
    var b := Run(events);
    var i, k := Explain(events);
    match b.state
    case Closed => ClosedHasNoOpening(events);
    case Open => OpenVerdict(events, i, now);
    case HalfOpen => HalfOpenVerdict(events, i, k, now);
  }

  ghost predicate StillWaiting(events: seq<Event>, i: nat, now: int) {
    StillOpen(events, i) && now - events[i].openAt < 30_000
  }

  ghost predicate ProbeOut(events: seq<Event>, i: nat) {
    exists k: nat :: HalfOpenSince(events, i, k) && RequestedFrom(events, k)
  }

  lemma OneLastOpening(events: seq<Event>, a: nat, b: nat)
    requires LastOpening(events, a) && LastOpening(events, b)
    ensures a == b
  {
  }

  lemma OneHalfOpening(events: seq<Event>, i: nat, k: nat, m: nat)
    requires HalfOpenSince(events, i, k) && HalfOpenSince(events, i, m)
    ensures k == m
  {
  }

  lemma OpenVerdict(events: seq<Event>, i: nat, now: int)
    requires Run(events).state == Open && Explained(events, i, 0)
    ensures !Allow(Run(events), now).1 <==> exists a: nat :: StillWaiting(events, a, now) || ProbeOut(events, a)
  {
    ProbeOnlyHalfOpen(events);
    forall a: nat | LastOpening(events, a) { OneLastOpening(events, a, i); }
    assert forall a: nat :: !ProbeOut(events, a);
    assert StillWaiting(events, i, now) <==> now - Run(events).openedAtMs < 30_000;
  }

  lemma HalfOpenVerdict(events: seq<Event>, i: nat, k: nat, now: int)
    requires Run(events).state == HalfOpen && Explained(events, i, k)
    ensures !Allow(Run(events), now).1 <==> exists a: nat :: StillWaiting(events, a, now) || ProbeOut(events, a)
  {
    forall a: nat | LastOpening(events, a) { OneLastOpening(events, a, i); }
    forall m: nat | HalfOpenSince(events, i, m) { OneHalfOpening(events, i, k, m); }
    assert forall a: nat :: !StillWaiting(events, a, now);
    assert ProbeOut(events, i) <==> RequestedFrom(events, k);
  }

  lemma {:induction false} StaysDown(events: seq<Event>, i: nat)
    requires i < |events| && Run(events[..i + 1]).state != Closed && NoSuccessAfter(events, i)
    ensures Run(events).state != Closed
    decreases |events|
  {
    var n := |events| - 1;
    TakeAll(events);
    if i < n {
      assert events[..n][..i + 1] == events[..i + 1];
      assert forall j :: i < j < n ==> events[..n][j] == events[j];
      StaysDown(events[..n], i);
      assert !events[n].Succeeded?;
    }
  }

  lemma {:induction false} MonotonePrefix(events: seq<Event>, n: nat)
    requires Monotone(events) && n <= |events|
    ensures Monotone(events[..n])
    decreases |events|
  {
    TakeAll(events);
    if n < |events| {
      assert events[..|events| - 1][..n] == events[..n];
      MonotonePrefix(events[..|events| - 1], n);
    }
  }

  lemma ClosedHasNoOpening(events: seq<Event>)
    requires Monotone(events) && Run(events).state == Closed
    ensures forall i: nat :: !LastOpening(events, i)
  {
    forall i: nat ensures !LastOpening(events, i) {
      if LastOpening(events, i) {
        MonotonePrefix(events, i + 1);
        assert events[..i + 1][..i] == events[..i];
        FailureOpens(events[..i + 1]);
        StaysDown(events, i);
        assert false;
      }
    }
  }
}

/** The provider circuit breaker: driven by a clock, a run of failures and a sliding window of outcomes. */
module CircuitBreaker {
  import opened Common

  // The class updates its fields as the service does. `Breaker` is its state as a
  // value, on which whole runs of events are reasoned about.

  const CONSECUTIVE_FAILURES := 5
  const FAILURE_RATE_THRESHOLD: real := 0.5
  const WINDOW_MS := 60_000
  const HALF_OPEN_AFTER_MS := 30_000
  const MIN_SAMPLES_FOR_RATE := 6

  datatype State = Closed | Open | HalfOpen

  datatype Sample = Sample(atMs: int, success: bool)

  datatype Breaker = Breaker(
    state: State,
    consecutiveFailures: nat,
    openedAtMs: int,
    probeInFlight: bool,
    samples: seq<Sample>
  )

  const Initial := Breaker(Closed, 0, 0, false, [])

  // ----- the sample window -----

  /** The outcomes at or after the cutoff. */
  function Since(samples: seq<Sample>, cutoff: int): seq<Sample> {
    Filter(samples, (s: Sample) => s.atMs >= cutoff)
  }

  /** The shift loop: drops samples from the front while they are too old. */
  function Trim(samples: seq<Sample>, cutoff: int): seq<Sample> {
    if samples != [] && samples[0].atMs < cutoff then Trim(samples[1..], cutoff) else samples
  }

  /** More than half of at least six outcomes are failures. */
  predicate RateExceeded(window: seq<Sample>) {
    && |window| >= MIN_SAMPLES_FOR_RATE
    && |Filter(window, (s: Sample) => !s.success)| as real / |window| as real > FAILURE_RATE_THRESHOLD
  }

  predicate Ordered(samples: seq<Sample>) {
    forall i, j :: 0 <= i < j < |samples| ==> samples[i].atMs <= samples[j].atMs
  }

  // ----- the transitions; each clock reading is an argument -----

  function Tick(b: Breaker, now: int): Breaker {
    if b.state == Open && now - b.openedAtMs >= HALF_OPEN_AFTER_MS
    then b.(state := HalfOpen, probeInFlight := false) else b
  }

  function Allow(b: Breaker, now: int): (Breaker, bool) {
    var t := Tick(b, now);
    match t.state
    case Closed => (t, true)
    case Open => (t, false)
    case HalfOpen => (t.(probeInFlight := true), !t.probeInFlight)
  }

  function PushSample(b: Breaker, success: bool, now: int): Breaker {
    b.(samples := Trim(b.samples + [Sample(now, success)], now - WINDOW_MS))
  }

  function Success(b: Breaker, now: int): Breaker {
    PushSample(b, true, now).(consecutiveFailures := 0, probeInFlight := false, state := Closed)
  }

  /** The clock is read when the sample is pushed, when the rate is computed and when the breaker opens. */
  function Failure(b: Breaker, pushAt: int, rateAt: int, openAt: int): Breaker {
    var f := PushSample(b, false, pushAt).(consecutiveFailures := b.consecutiveFailures + 1, probeInFlight := false);
    var rate := RateExceeded(Since(f.samples, rateAt - WINDOW_MS));
    if f.consecutiveFailures >= CONSECUTIVE_FAILURES || rate || f.state == HalfOpen
    then f.(state := Open, openedAtMs := openAt) else f
  }

  class ProviderCircuitBreaker {
    var state: State
    var consecutiveFailures: nat
    var openedAtMs: int
    var probeInFlight: bool
    var samples: seq<Sample>

    function View(): Breaker
      reads this
    {
      Breaker(state, consecutiveFailures, openedAtMs, probeInFlight, samples)
    }

    constructor ()
      ensures View() == Initial
    {
      state, consecutiveFailures, openedAtMs, probeInFlight, samples := Closed, 0, 0, false, [];
    }

    method GetState(now: int) returns (s: State)
      modifies this
      ensures View() == Tick(old(View()), now) && s == state
    {
      MaybeTransitionToHalfOpen(now);
      s := state;
    }

    method AllowRequest(now: int) returns (allowed: bool)
      modifies this
      ensures (View(), allowed) == Allow(old(View()), now)
    {
      MaybeTransitionToHalfOpen(now);
      match state
      case Closed => allowed := true;
      case Open => allowed := false;
      case HalfOpen =>
        if probeInFlight {
          return false;
        }
        probeInFlight := true;
        allowed := true;
    }

    method RecordSuccess(now: int)
      modifies this
      ensures View() == Success(old(View()), now)
    {
      consecutiveFailures := 0;
      AppendSample(true, now);
      probeInFlight := false;
      state := Closed;
    }

    method RecordFailure(pushAt: int, rateAt: int, openAt: int)
      modifies this
      ensures View() == Failure(old(View()), pushAt, rateAt, openAt)
    {
      consecutiveFailures := consecutiveFailures + 1;
      AppendSample(false, pushAt);
      probeInFlight := false;
      if consecutiveFailures >= CONSECUTIVE_FAILURES || RateExceeded(Since(samples, rateAt - WINDOW_MS)) {
        OpenCircuit(openAt);
        return;
      }
      if state == HalfOpen {
        OpenCircuit(openAt);
      }
    }

    method MaybeTransitionToHalfOpen(now: int)
      modifies this
      ensures View() == Tick(old(View()), now)
    {
      if state != Open {
        return;
      }
      if now - openedAtMs >= HALF_OPEN_AFTER_MS {
        state := HalfOpen;
        probeInFlight := false;
      }
    }

    method OpenCircuit(now: int)
      modifies this
      ensures View() == old(View()).(state := Open, openedAtMs := now, probeInFlight := false)
    {
      state := Open;
      openedAtMs := now;
      probeInFlight := false;
    }

    method AppendSample(success: bool, now: int)
      modifies this
      ensures View() == PushSample(old(View()), success, now)
    {
      samples := samples + [Sample(now, success)];
      var cutoff := now - WINDOW_MS;
      while |samples| > 0 && samples[0].atMs < cutoff
        invariant Trim(samples, cutoff) == Trim(old(samples) + [Sample(now, success)], cutoff)
        invariant (state, consecutiveFailures, openedAtMs, probeInFlight)
               == old((state, consecutiveFailures, openedAtMs, probeInFlight))
        decreases |samples|
      {
        samples := samples[1..];
      }
    }
  }

  // ----- runs -----

  datatype Event =
    | Poll(now: int)
    | Request(now: int)
    | Succeeded(now: int)
    | Failed(pushAt: int, rateAt: int, openAt: int)

  function Step(b: Breaker, e: Event): Breaker {
    match e
    case Poll(now) => Tick(b, now)
    case Request(now) => Allow(b, now).0
    case Succeeded(now) => Success(b, now)
    case Failed(p, r, o) => Failure(b, p, r, o)
  }

  /** The breaker after any events, in any order: late results of earlier requests included. */
  function Run(events: seq<Event>): Breaker {
    if events == [] then Initial else Step(Run(events[..|events| - 1]), events[|events| - 1])
  }

  function Outcome(e: Event): seq<Sample> {
    match e
    case Succeeded(now) => [Sample(now, true)]
    case Failed(p, _, _) => [Sample(p, false)]
    case _ => []
  }

  /** Every outcome reported in the run. */
  function History(events: seq<Event>): seq<Sample> {
    if events == [] then [] else History(events[..|events| - 1]) + Outcome(events[|events| - 1])
  }

  /** How many failures end the history. */
  function TrailingFailures(history: seq<Sample>): nat {
    if history == [] || history[|history| - 1].success then 0
    else 1 + TrailingFailures(history[..|history| - 1])
  }

  ghost predicate CountsFailures(b: Breaker, history: seq<Sample>) {
    && b.consecutiveFailures == TrailingFailures(history)
    && (b.state == Closed ==> b.consecutiveFailures < CONSECUTIVE_FAILURES)
  }

  lemma StepCountsFailures(b: Breaker, history: seq<Sample>, e: Event)
    requires CountsFailures(b, history)
    ensures CountsFailures(Step(b, e), history + Outcome(e))
  {
    var later := history + Outcome(e);
    match e
    case Succeeded(_) => assert later[|later| - 1].success;
    case Failed(p, r, o) => assert later[..|later| - 1] == history;
    case _ => assert later == history;
  }

  /** The failure counter is the failure run at the end of the history; closed means it is below five. */
  lemma {:induction false} FailureRun(events: seq<Event>)
    ensures CountsFailures(Run(events), History(events))
  {
    if events != [] {
      FailureRun(events[..|events| - 1]);
      StepCountsFailures(Run(events[..|events| - 1]), History(events[..|events| - 1]), events[|events| - 1]);
    }
  }

  /** A probe is in flight only while half-open. */
  lemma {:induction false} ProbeOnlyHalfOpen(events: seq<Event>)
    ensures Run(events).probeInFlight ==> Run(events).state == HalfOpen
  {
    if events != [] {
      ProbeOnlyHalfOpen(events[..|events| - 1]);
    }
  }

  // ----- the window -----

  lemma {:induction false} TrimIsSince(samples: seq<Sample>, cutoff: int)
    requires Ordered(samples)
    ensures Trim(samples, cutoff) == Since(samples, cutoff)
  {
    if samples != [] {
      if samples[0].atMs < cutoff {
        TrimIsSince(samples[1..], cutoff);
      } else {
        AllSince(samples, cutoff);
      }
    }
  }

  lemma {:induction false} AllSince(samples: seq<Sample>, cutoff: int)
    requires forall i :: 0 <= i < |samples| ==> samples[i].atMs >= cutoff
    ensures Since(samples, cutoff) == samples
  {
    if samples != [] {
      AllSince(samples[1..], cutoff);
    }
  }

  lemma {:induction false} SinceTwice(samples: seq<Sample>, early: int, late: int)
    requires early <= late
    ensures Since(Since(samples, early), late) == Since(samples, late)
  {
    if samples != [] {
      var keep := (s: Sample) => s.atMs >= late;
      SinceTwice(samples[1..], early, late);
      FilterAppend(if samples[0].atMs >= early then [samples[0]] else [], Since(samples[1..], early), keep);
    }
  }

  /** The clock never runs backwards, within an event or between events. */
  predicate Monotone(events: seq<Event>) {
    if events == [] then true
    else
      var prefix, e := events[..|events| - 1], events[|events| - 1];
      Monotone(prefix) && LastTime(prefix) <= FirstTime(e) && (e.Failed? ==> e.pushAt <= e.rateAt <= e.openAt)
  }

  function FirstTime(e: Event): int {
    if e.Failed? then e.pushAt else e.now
  }

  function LastTime(events: seq<Event>): int {
    if events == [] then 0
    else
      var e := events[|events| - 1];
      if e.Failed? then e.openAt else e.now
  }

  /** What the trimmed list keeps: every outcome of the history that a later window can still see. */
  ghost predicate WindowKept(b: Breaker, history: seq<Sample>, now: int) {
    && Ordered(history)
    && (history != [] ==> history[|history| - 1].atMs <= now)
    && exists cutoff :: cutoff <= now - WINDOW_MS && b.samples == Since(history, cutoff)
  }

  lemma SinceAppend(history: seq<Sample>, s: Sample, cutoff: int)
    requires s.atMs >= cutoff
    ensures Since(history + [s], cutoff) == Since(history, cutoff) + [s]
  {
    FilterAppend(history, [s], (x: Sample) => x.atMs >= cutoff);
  }

  lemma PushKeepsWindow(b: Breaker, history: seq<Sample>, last: int, success: bool, now: int)
    requires WindowKept(b, history, last) && last <= now
    ensures WindowKept(PushSample(b, success, now), history + [Sample(now, success)], now)
  {
    var cutoff :| cutoff <= last - WINDOW_MS && b.samples == Since(history, cutoff);
    var s := Sample(now, success);
    SinceAppend(history, s, cutoff);
    SinceOrdered(history + [s], cutoff);
    TrimIsSince(b.samples + [s], now - WINDOW_MS);
    SinceTwice(history + [s], cutoff, now - WINDOW_MS);
  }

  lemma {:induction false} SinceOrdered(samples: seq<Sample>, cutoff: int)
    requires Ordered(samples)
    ensures Ordered(Since(samples, cutoff))
  {
    if samples != [] {
      SinceOrdered(samples[1..], cutoff);
      assert forall s :: s in samples[1..] ==> s.atMs >= samples[0].atMs;
    }
  }

  lemma WindowLater(b: Breaker, history: seq<Sample>, now: int, later: int)
    requires WindowKept(b, history, now) && now <= later
    ensures WindowKept(b, history, later)
  {
    var cutoff :| cutoff <= now - WINDOW_MS && b.samples == Since(history, cutoff);
    assert cutoff <= later - WINDOW_MS;
  }

  lemma StepKeepsWindow(b: Breaker, history: seq<Sample>, last: int, e: Event)
    requires WindowKept(b, history, last) && last <= FirstTime(e)
    ensures WindowKept(Step(b, e), history + Outcome(e), FirstTime(e))
  {
    match e
    case Succeeded(now) => PushKeepsWindow(b, history, last, true, now);
    case Failed(p, r, o) => PushKeepsWindow(b, history, last, false, p);
    case _ => QuietKeepsWindow(b, history, last, e);
  }

  lemma QuietKeepsWindow(b: Breaker, history: seq<Sample>, last: int, e: Event)
    requires WindowKept(b, history, last) && last <= FirstTime(e) && !e.Succeeded? && !e.Failed?
    ensures WindowKept(Step(b, e), history + Outcome(e), FirstTime(e))
  {
    WindowLater(b, history, last, e.now);
    assert history + [] == history;
    assert Step(b, e).samples == b.samples;
  }

  lemma {:induction false} WindowIsKept(events: seq<Event>)
    requires Monotone(events)
    ensures WindowKept(Run(events), History(events), LastTime(events))
  {
    if events == [] {
      assert Initial.samples == Since([], -WINDOW_MS);
    } else {
      var prefix, e := events[..|events| - 1], events[|events| - 1];
      WindowIsKept(prefix);
      StepKeepsWindow(Run(prefix), History(prefix), LastTime(prefix), e);
      WindowLater(Run(events), History(events), FirstTime(e), LastTime(events));
    }
  }

  lemma KeptVerdict(b: Breaker, history: seq<Sample>, last: int, pushAt: int, rateAt: int)
    requires WindowKept(b, history, last) && last <= pushAt <= rateAt
    ensures Since(PushSample(b, false, pushAt).samples, rateAt - WINDOW_MS)
      == Since(history + [Sample(pushAt, false)], rateAt - WINDOW_MS)
  {
    PushKeepsWindow(b, history, last, false, pushAt);
    var longer := history + [Sample(pushAt, false)];
    var cutoff :| cutoff <= pushAt - WINDOW_MS && PushSample(b, false, pushAt).samples == Since(longer, cutoff);
    SinceTwice(longer, cutoff, rateAt - WINDOW_MS);
  }

  /**
   With a clock that does not run backwards, the failure-rate verdict taken on the
   trimmed list is the verdict on the whole history of outcomes.
   */
  lemma VerdictOnWholeHistory(events: seq<Event>, pushAt: int, rateAt: int)
    requires Monotone(events) && LastTime(events) <= pushAt <= rateAt
    ensures var kept := PushSample(Run(events), false, pushAt).samples;
            var history := History(events) + [Sample(pushAt, false)];
            Since(kept, rateAt - WINDOW_MS) == Since(history, rateAt - WINDOW_MS)
  {
    WindowIsKept(events);
    KeptVerdict(Run(events), History(events), LastTime(events), pushAt, rateAt);
  }

  /** A failure opens the breaker exactly for one of the three reasons, each read off the whole history. */
  lemma OpensExactlyWhen(events: seq<Event>, pushAt: int, rateAt: int, openAt: int)
    requires Monotone(events) && LastTime(events) <= pushAt <= rateAt
    requires Run(events).state != Open
    ensures var history := History(events) + [Sample(pushAt, false)];
            Step(Run(events), Failed(pushAt, rateAt, openAt)).state == Open <==>
              || TrailingFailures(history) >= CONSECUTIVE_FAILURES
              || RateExceeded(Since(history, rateAt - WINDOW_MS))
              || Run(events).state == HalfOpen
  {
    VerdictOnWholeHistory(events, pushAt, rateAt);
    FailureRun(events);
    assert (History(events) + [Sample(pushAt, false)])[..|History(events)|] == History(events);
  }

  // ----- half-open episodes -----

  /** After 30 seconds open, the next request is admitted as the probe. */
  lemma ProbeAfterWait(events: seq<Event>, now: int)
    requires Run(events).state == Open
    ensures Allow(Run(events), now).1 <==> now - Run(events).openedAtMs >= HALF_OPEN_AFTER_MS
    ensures Allow(Run(events), now).1 ==>
      Allow(Run(events), now).0.state == HalfOpen && Allow(Run(events), now).0.probeInFlight
  {
    ProbeOnlyHalfOpen(events);
  }

  /** The request at position i of the run is admitted as a half-open probe. */
  ghost predicate AdmitsProbe(events: seq<Event>, i: nat) {
    && i < |events| && events[i].Request?
    && Allow(Run(events[..i]), events[i].now).1
    && Run(events[..i + 1]).state == HalfOpen
  }

  /** While the breaker stays half-open after a probe was admitted, that probe stays in flight. */
  lemma {:induction false} ProbeStays(events: seq<Event>, i: nat, j: nat)
    requires AdmitsProbe(events, i) && i < j <= |events|
    requires forall k :: i < k <= j ==> Run(events[..k]).state == HalfOpen
    ensures Run(events[..j]).probeInFlight
    decreases j
  {
    assert events[..j][..j - 1] == events[..j - 1] && events[..j][j - 1] == events[j - 1];
    if j > i + 1 {
      ProbeStays(events, i, j - 1);
      assert Run(events[..j]) == Step(Run(events[..j - 1]), events[j - 1]);
    }
  }

  /** A half-open episode admits at most one request: between two probes the breaker left the half-open state. */
  lemma OneProbePerEpisode(events: seq<Event>, i: nat, j: nat)
    requires i < j && AdmitsProbe(events, i) && AdmitsProbe(events, j)
    ensures exists k :: i < k <= j && Run(events[..k]).state != HalfOpen
  {
    if forall k :: i < k <= j ==> Run(events[..k]).state == HalfOpen {
      ProbeStays(events, i, j);
      assert false;
    }
  }
}

/**
 The fallback chain: tries hops in order, asking each hop's circuit breaker first and
 telling it the outcome, until one hop succeeds.
 */
module FallbackChain {
  import opened Common
  import opened CircuitBreaker

  // ----- the breakers -----

  /** One call on a provider's breaker. */
  datatype Entry = Entry(provider: string, event: Event)

  /** A provider's breaker after a log of calls, from its creation on. */
  function Replay(log: seq<Entry>, p: string): Breaker {
    if log == [] then Initial
    else
      var b := Replay(log[..|log| - 1], p);
      var last := log[|log| - 1];
      if last.provider == p then Step(b, last.event) else b
  }

  lemma ReplayAppend(log: seq<Entry>, e: Entry, p: string)
    ensures Replay(log + [e], p) == if e.provider == p then Step(Replay(log, p), e.event) else Replay(log, p)
  {
    assert (log + [e])[..|log|] == log;
  }

  class ProviderCircuitBreakerRegistry {
    var breakers: map<string, ProviderCircuitBreaker>

    /** Every call made on the breakers, in order. */
    ghost var log: seq<Entry>

    /** No two providers share a breaker, and each breaker is where the calls on it took it. */
    ghost predicate Valid()
      reads this, breakers.Values
    {
      && Unshared()
      && forall p :: ViewOf(p) == Replay(log, p)
    }

    ghost predicate Unshared()
      reads this
    {
      forall p, q :: p in breakers && q in breakers && p != q ==> breakers[p] != breakers[q]
    }

    /** The state of a provider's breaker; a breaker not yet created is in its initial state. */
    ghost function ViewOf(p: string): Breaker
      reads this, breakers.Values
    {
      if p in breakers then breakers[p].View() else Initial
    }

    constructor ()
      ensures Valid() && breakers == map[] && log == []
    {
      breakers, log := map[], [];
    }

    method Get(provider: string) returns (breaker: ProviderCircuitBreaker)
      requires Unshared()
      modifies this`breakers
      ensures Unshared() && provider in breakers && breakers[provider] == breaker
      ensures breakers.Values == old(breakers.Values) + {breaker}
      ensures breaker in old(breakers.Values) || fresh(breaker)
      ensures forall p :: ViewOf(p) == old(ViewOf(p))
    {
      if provider in breakers {
        breaker := breakers[provider];
      } else {
        breaker := new ProviderCircuitBreaker();
        var was := breakers;
        breakers := breakers[provider := breaker];
        assert forall b :: b in was.Values ==> exists p :: p in was && was[p] == b && breakers[p] == b;
        assert breakers[provider] in breakers.Values;
      }
    }

    method AllowRequest(provider: string, now: int) returns (allowed: bool)
      requires Valid()
      modifies this, breakers.Values
      ensures Valid() && fresh(breakers.Values - old(breakers.Values))
      ensures log == old(log) + [Entry(provider, Request(now))]
      ensures allowed == Allow(Replay(old(log), provider), now).1
    {
      var breaker := Get(provider);
      allowed := breaker.AllowRequest(now);
      forall p { ReplayAppend(log, Entry(provider, Request(now)), p); }
      log := log + [Entry(provider, Request(now))];
    }

    method RecordSuccess(provider: string, now: int)
      requires Valid()
      modifies this, breakers.Values
      ensures Valid() && fresh(breakers.Values - old(breakers.Values))
      ensures log == old(log) + [Entry(provider, Succeeded(now))]
    {
      var breaker := Get(provider);
      breaker.RecordSuccess(now);
      forall p { ReplayAppend(log, Entry(provider, Succeeded(now)), p); }
      log := log + [Entry(provider, Succeeded(now))];
    }

    method RecordFailure(provider: string, pushAt: int, rateAt: int, openAt: int)
      requires Valid()
      modifies this, breakers.Values
      ensures Valid() && fresh(breakers.Values - old(breakers.Values))
      ensures log == old(log) + [Entry(provider, Failed(pushAt, rateAt, openAt))]
    {
      var breaker := Get(provider);
      breaker.RecordFailure(pushAt, rateAt, openAt);
      forall p { ReplayAppend(log, Entry(provider, Failed(pushAt, rateAt, openAt)), p); }
      log := log + [Entry(provider, Failed(pushAt, rateAt, openAt))];
    }
  }

  // ----- the chain -----

  datatype HopResult = HopResult(result: string, tokensIn: int, tokensOut: int, costMicros: real, latencyMs: int)

  /** What invoking the hop does. A thrown error is given by its classified kind. */
  datatype Reply = Replied(value: HopResult) | Threw(kind: string)

  /** The clock readings taken while the hop is tried. */
  datatype Times = Times(allowAt: int, pushAt: int, rateAt: int, openAt: int, latencyMs: int)

  datatype Hop = Hop(provider: string, model: string, mode: string, skipBreaker: bool, reply: Reply, times: Times)

  datatype Attempt = Attempt(provider: string, model: string, ok: bool, error: string, latencyMs: int, costMicros: real)

  datatype Outcome = Outcome(
    ok: bool,
    mode: string,
    result: Option<string>,
    attempts: seq<Attempt>,
    tokensIn: int,
    tokensOut: int,
    costMicros: real
  )

  predicate IsIntegerMicros(cost: real) { cost == cost.Floor as real }

  /** The hop answers with a cost that is a whole number of micros. */
  predicate Delivers(hop: Hop) {
    hop.reply.Replied? && IsIntegerMicros(hop.reply.value.costMicros)
  }

  /** The error of a hop that was tried and does not deliver: its own, or the cost check's. */
  function ErrorOf(hop: Hop): string {
    if hop.reply.Threw? then hop.reply.kind else "unavailable"
  }

  function SumCosts(attempts: seq<Attempt>): real {
    if attempts == [] then 0.0 else SumCosts(attempts[..|attempts| - 1]) + attempts[|attempts| - 1].costMicros
  }

  // ----- the calls that a walk makes -----

  /** Whether the breaker lets the hop through; a hop that skips its breaker always passes. */
  predicate Passes(b: Breaker, hop: Hop) {
    hop.skipBreaker || Allow(b, hop.times.allowAt).1
  }

  function Asking(hop: Hop): Entry {
    Entry(hop.provider, Request(hop.times.allowAt))
  }

  /** The outcome reported for a hop that was let through. */
  function Telling(hop: Hop): Entry {
    Entry(hop.provider, if Delivers(hop) then Succeeded(hop.times.pushAt)
                        else Failed(hop.times.pushAt, hop.times.rateAt, hop.times.openAt))
  }

  /** The calls of one hop: the question, and one outcome if the answer was yes. */
  function HopLog(b: Breaker, hop: Hop): seq<Entry> {
    if hop.skipBreaker then [] else if Passes(b, hop) then [Asking(hop), Telling(hop)] else [Asking(hop)]
  }

  /** The log after trying these hops one after the other. */
  function WalkLog(log: seq<Entry>, hops: seq<Hop>): seq<Entry> {
    if hops == [] then log
    else
      var before := WalkLog(log, hops[..|hops| - 1]);
      var hop := hops[|hops| - 1];
      before + HopLog(Replay(before, hop.provider), hop)
  }

  /** The attempt recorded for a hop, given the state of its breaker. */
  function AttemptOf(b: Breaker, hop: Hop): Attempt {
    if !Passes(b, hop)
    then Attempt(hop.provider, hop.model, false, "circuit_open", 0, 0.0)
    else if Delivers(hop)
    then Attempt(hop.provider, hop.model, true, "", hop.reply.value.latencyMs, hop.reply.value.costMicros)
    else Attempt(hop.provider, hop.model, false, ErrorOf(hop), hop.times.latencyMs, 0.0)
  }

  /** One hop: its breaker is asked, and told the outcome of the request it admitted. */
  method TryHop(hop: Hop, registry: ProviderCircuitBreakerRegistry) returns (attempt: Attempt)
    requires registry.Valid()
    modifies registry, registry.breakers.Values
    ensures registry.Valid() && fresh(registry.breakers.Values - old(registry.breakers.Values))
    ensures var b := Replay(old(registry.log), hop.provider);
      registry.log == old(registry.log) + HopLog(b, hop) && attempt == AttemptOf(b, hop)
  {
    var breaker := !hop.skipBreaker;
    if breaker {
      var allowed := registry.AllowRequest(hop.provider, hop.times.allowAt);
      if !allowed {
        return Attempt(hop.provider, hop.model, false, "circuit_open", 0, 0.0);
      }
    }
    if Delivers(hop) {
      if breaker {
        registry.RecordSuccess(hop.provider, hop.times.pushAt);
      }
      attempt := Attempt(hop.provider, hop.model, true, "", hop.reply.value.latencyMs, hop.reply.value.costMicros);
    } else {
      if breaker {
        registry.RecordFailure(hop.provider, hop.times.pushAt, hop.times.rateAt, hop.times.openAt);
      }
      attempt := Attempt(hop.provider, hop.model, false, ErrorOf(hop), hop.times.latencyMs, 0.0);
    }
  }

  /** The attempt of a hop, where the hops before it left its breaker. */
  function AttemptAt(log: seq<Entry>, hops: seq<Hop>, i: nat): Attempt
    requires i < |hops|
  {
    AttemptOf(Replay(WalkLog(log, hops[..i]), hops[i].provider), hops[i])
  }

  /** The attempts are those of the first hops, each given where the hops before it left its breaker. */
  ghost predicate Walked(hops: seq<Hop>, attempts: seq<Attempt>, log: seq<Entry>) {
    |attempts| <= |hops| && forall i :: 0 <= i < |attempts| ==> attempts[i] == AttemptAt(log, hops, i)
  }

  lemma {:induction false} FailuresCostNothing(hops: seq<Hop>, attempts: seq<Attempt>, log: seq<Entry>)
    requires Walked(hops, attempts, log)
    requires forall i :: 0 <= i < |attempts| ==> !attempts[i].ok
    ensures SumCosts(attempts) == 0.0
  {
    if attempts != [] {
      FailuresCostNothing(hops, attempts[..|attempts| - 1], log);
    }
  }

  /** All attempts but the last failed. */
  ghost predicate FailedBefore(attempts: seq<Attempt>) {
    forall j :: 0 <= j < |attempts| - 1 ==> !attempts[j].ok
  }

  lemma WalkedOneMore(hops: seq<Hop>, attempts: seq<Attempt>, log: seq<Entry>, attempt: Attempt)
    requires |attempts| < |hops| && Walked(hops, attempts, log) && attempt == AttemptAt(log, hops, |attempts|)
    ensures Walked(hops, attempts + [attempt], log)
  {
    forall i | 0 <= i <= |attempts| ensures (attempts + [attempt])[i] == AttemptAt(log, hops, i) {
      if i < |attempts| { assert attempts[i] == AttemptAt(log, hops, i); }
    }
  }

  lemma FailedOneMore(attempts: seq<Attempt>, attempt: Attempt)
    requires FailedBefore(attempts) && (attempts != [] ==> !attempts[|attempts| - 1].ok)
    ensures FailedBefore(attempts + [attempt])
  {
  }

  lemma WalkLogOneMore(log: seq<Entry>, hops: seq<Hop>, i: nat)
    requires i < |hops|
    ensures var before := WalkLog(log, hops[..i]);
      WalkLog(log, hops[..i + 1]) == before + HopLog(Replay(before, hops[i].provider), hops[i])
  {
    assert hops[..i + 1][..i] == hops[..i];
  }

  /** What has been done when these attempts have been made: the log is that of their hops. */
  ghost predicate Tried(hops: seq<Hop>, attempts: seq<Attempt>, before: seq<Entry>, log: seq<Entry>) {
    && Walked(hops, attempts, before) && FailedBefore(attempts)
    && log == WalkLog(before, hops[..|attempts|])
  }

  lemma TriedOneMore(hops: seq<Hop>, attempts: seq<Attempt>, before: seq<Entry>, attempt: Attempt)
    requires |attempts| < |hops| && Walked(hops, attempts, before) && FailedBefore(attempts)
    requires attempts != [] ==> !attempts[|attempts| - 1].ok
    requires attempt == AttemptAt(before, hops, |attempts|)
    ensures var log := WalkLog(before, hops[..|attempts|]);
      Tried(hops, attempts + [attempt], before,
            log + HopLog(Replay(log, hops[|attempts|].provider), hops[|attempts|]))
  {
    WalkedOneMore(hops, attempts, before, attempt);
    FailedOneMore(attempts, attempt);
    WalkLogOneMore(before, hops, |attempts|);
  }

  /** The next hop is tried. */
  method TryNext(hops: seq<Hop>, attempts: seq<Attempt>, registry: ProviderCircuitBreakerRegistry,
                 ghost before: seq<Entry>)
    returns (attempt: Attempt)
    requires registry.Valid() && |attempts| < |hops| && Tried(hops, attempts, before, registry.log)
    requires attempts != [] ==> !attempts[|attempts| - 1].ok
    modifies registry, registry.breakers.Values
    ensures registry.Valid() && fresh(registry.breakers.Values - old(registry.breakers.Values))
    ensures Tried(hops, attempts + [attempt], before, registry.log)
  {
    attempt := TryHop(hops[|attempts|], registry);
    TriedOneMore(hops, attempts, before, attempt);
  }

  /** The loop: tries hops until one succeeds. */
  method TryHops(hops: seq<Hop>, registry: ProviderCircuitBreakerRegistry, ghost before: seq<Entry>)
    returns (attempts: seq<Attempt>)
    requires registry.Valid() && registry.log == before
    modifies registry, registry.breakers.Values
    ensures registry.Valid() && Tried(hops, attempts, before, registry.log)
    ensures |attempts| == |hops| || (attempts != [] && attempts[|attempts| - 1].ok)
  {
    attempts := [];
    for i := 0 to |hops|
      invariant fresh(registry.breakers.Values - old(registry.breakers.Values))
      invariant registry.Valid() && |attempts| == i && Tried(hops, attempts, before, registry.log)
      invariant attempts != [] ==> !attempts[i - 1].ok
    {
      var attempt := TryNext(hops, attempts, registry, before);
      attempts := attempts + [attempt];
      if attempt.ok {
        return;
      }
    }
  }

  /** The outcome sums up the attempts. */
  ghost predicate Concludes(outcome: Outcome, hops: seq<Hop>) {
    var attempts := outcome.attempts;
    && |attempts| <= |hops|
    && (outcome.ok <==> attempts != [] && attempts[|attempts| - 1].ok)
    && (forall i :: 0 <= i < |attempts| - 1 ==> !attempts[i].ok)
    && outcome.costMicros == SumCosts(attempts)
    && (if outcome.ok then
          var hop := hops[|attempts| - 1];
          && Delivers(hop)
          && outcome.mode == hop.mode
          && outcome.result == Some(hop.reply.value.result)
          && outcome.tokensIn == hop.reply.value.tokensIn && outcome.tokensOut == hop.reply.value.tokensOut
          && outcome.costMicros == hop.reply.value.costMicros
        else
          && |attempts| == |hops|
          && outcome.mode == (if hops == [] then "llm" else hops[|hops| - 1].mode)
          && outcome.result == None
          && outcome.tokensIn == outcome.tokensOut == 0 && outcome.costMicros == 0.0)
  }

  method Conclude(hops: seq<Hop>, attempts: seq<Attempt>, ghost log: seq<Entry>) returns (outcome: Outcome)
    requires Walked(hops, attempts, log) && FailedBefore(attempts)
    requires |attempts| == |hops| || (attempts != [] && attempts[|attempts| - 1].ok)
    ensures outcome.attempts == attempts && Concludes(outcome, hops)
  {
    if attempts != [] && attempts[|attempts| - 1].ok {
      var n := |attempts| - 1;
      var r := hops[n].reply.value;
      FailuresCostNothing(hops, attempts[..n], log);
      outcome := Outcome(true, hops[n].mode, Some(r.result), attempts, r.tokensIn, r.tokensOut, r.costMicros);
    } else {
      FailuresCostNothing(hops, attempts, log);
      outcome := Outcome(false, if hops == [] then "llm" else hops[|hops| - 1].mode, None, attempts, 0, 0, 0.0);
    }
  }

  /**
   The calls on the breakers are exactly those of the hops tried. The walk is ok exactly
   when its last attempt is ok; all earlier ones failed; a failed walk tried every hop; the
   cost is the sum of the attempts' costs. Each breaker is told what the attempts say.
   */
  method WalkFallbackChain(hops: seq<Hop>, registry: ProviderCircuitBreakerRegistry) returns (outcome: Outcome)
    requires registry.Valid()
    modifies registry, registry.breakers.Values
    ensures registry.Valid()
    ensures Walked(hops, outcome.attempts, old(registry.log)) && Concludes(outcome, hops)
    ensures registry.log == WalkLog(old(registry.log), hops[..|outcome.attempts|])
    ensures ReportedTruly(registry.log, |old(registry.log)|, hops, outcome.attempts)
    ensures ReportsOneSuccess(old(registry.log), registry.log, hops, outcome.attempts)
  {
    ghost var log := registry.log;
    var attempts := TryHops(hops, registry, log);
    outcome := Conclude(hops, attempts, log);
    WalkReports(log, hops, attempts);
  }

  // ----- every admitted request is settled exactly once -----

  predicate IsOutcome(e: Entry) { e.event.Succeeded? || e.event.Failed? }

  /** The entry at i is a request that its breaker admits. */
  predicate Admits(log: seq<Entry>, i: nat)
    requires i < |log|
  {
    log[i].event.Request? && Allow(Replay(log[..i], log[i].provider), log[i].event.now).1
  }

  /** The entry at i is an outcome for the provider of the admitted request just before it. */
  predicate Settles(log: seq<Entry>, i: nat)
    requires 0 < i < |log|
  {
    IsOutcome(log[i]) && Admits(log, i - 1) && log[i].provider == log[i - 1].provider
  }

  /** From an entry on: an outcome follows each admitted request at once, and there is no other outcome. */
  ghost predicate SettledInTurn(log: seq<Entry>, from: nat) {
    && (forall i :: from <= i < |log| && Admits(log, i) ==> i + 1 < |log| && Settles(log, i + 1))
    && (forall i :: from <= i < |log| && IsOutcome(log[i]) ==> from < i && Settles(log, i))
  }

  lemma AdmitsPrefix(log: seq<Entry>, more: seq<Entry>, i: nat)
    requires i < |log|
    ensures Admits(log + more, i) == Admits(log, i)
    ensures i > 0 ==> Settles(log + more, i) == Settles(log, i)
  {
    assert (log + more)[..i] == log[..i];
    if i > 0 { assert (log + more)[..i - 1] == log[..i - 1]; }
  }

  lemma HopSettles(log: seq<Entry>, from: nat, hop: Hop)
    requires from <= |log| && SettledInTurn(log, from)
    ensures SettledInTurn(log + HopLog(Replay(log, hop.provider), hop), from)
  {
    var more := HopLog(Replay(log, hop.provider), hop);
    forall i | 0 <= i < |log|
      ensures Admits(log + more, i) == Admits(log, i) && (i > 0 ==> Settles(log + more, i) == Settles(log, i))
    {
      AdmitsPrefix(log, more, i);
    }
    HopPaired(log, hop);
  }

  /** The entries of a hop: a question, followed by an outcome exactly when it is admitted. */
  lemma HopPaired(log: seq<Entry>, hop: Hop)
    ensures var more := HopLog(Replay(log, hop.provider), hop);
      var n := |log|;
      && |more| <= 2
      && (more != [] ==> !IsOutcome((log + more)[n]) && (Admits(log + more, n) <==> |more| == 2))
      && (|more| == 2 ==> Settles(log + more, n + 1) && !Admits(log + more, n + 1))
  {
    assert (log + HopLog(Replay(log, hop.provider), hop))[..|log|] == log;
  }

  /** The breaker of p after one hop: a probe is in flight only if it was before. */
  lemma HopProbe(log: seq<Entry>, hop: Hop, p: string)
    ensures Replay(log + HopLog(Replay(log, hop.provider), hop), p).probeInFlight ==> Replay(log, p).probeInFlight
  {
    ReplayAppend(log, Asking(hop), p);
    ReplayAppend(log + [Asking(hop)], Telling(hop), p);
    assert log + [] == log;
    assert log + [Asking(hop)] + [Telling(hop)] == log + [Asking(hop), Telling(hop)];
  }

  lemma {:induction false} WalkSettles(log: seq<Entry>, hops: seq<Hop>)
    ensures log <= WalkLog(log, hops) && SettledInTurn(WalkLog(log, hops), |log|)
    ensures forall p :: Replay(WalkLog(log, hops), p).probeInFlight ==> Replay(log, p).probeInFlight
  {
    if hops != [] {
      var n := |hops| - 1;
      var before := WalkLog(log, hops[..n]);
      WalkSettles(log, hops[..n]);
      HopSettles(before, |log|, hops[n]);
      forall p { HopProbe(before, hops[n], p); }
    }
  }

  // ----- what the breakers are told is what the attempts say -----

  /** The hop answered, with a whole number of micros. */
  ghost predicate Answered(hop: Hop) {
    hop.reply.Replied? && exists m :: IsMicros(hop.reply.value.costMicros, m)
  }

  predicate IsMicros(cost: real, m: int) { cost == m as real }

  function RequestsIn(log: seq<Entry>): seq<Entry> { Filter(log, (e: Entry) => e.event.Request?) }

  function SuccessesIn(log: seq<Entry>): seq<Entry> { Filter(log, (e: Entry) => e.event.Succeeded?) }

  function Guarded(hops: seq<Hop>): seq<Hop> { Filter(hops, (hop: Hop) => !hop.skipBreaker) }

  /** The entry at n is the request of the i-th hop: as many requests precede it as hops that ask. */
  ghost predicate AskedAt(log: seq<Entry>, from: nat, hops: seq<Hop>, i: nat, n: nat)
    requires i < |hops|
  {
    && from <= n < |log|
    && log[n] == Entry(hops[i].provider, Request(hops[i].times.allowAt))
    && |RequestsIn(log[from..n])| == |Guarded(hops[..i])|
  }

  /** What follows an admitted request: a success exactly when the attempt is ok, otherwise a failure. */
  ghost predicate ToldAs(e: Entry, hop: Hop, attempt: Attempt) {
    && e.provider == hop.provider
    && e.event == if attempt.ok then Succeeded(hop.times.pushAt)
                  else Failed(hop.times.pushAt, hop.times.rateAt, hop.times.openAt)
  }

  /** The attempt of a hop that was let through. */
  ghost predicate Records(attempt: Attempt, hop: Hop) {
    && attempt.provider == hop.provider && attempt.model == hop.model
    && (attempt.ok <==> Answered(hop))
    && (attempt.ok ==>
          && attempt.error == "" && attempt.latencyMs == hop.reply.value.latencyMs
          && attempt.costMicros == hop.reply.value.costMicros)
    && (!attempt.ok ==>
          && attempt.error == (if hop.reply.Threw? then hop.reply.kind else "unavailable")
          && attempt.latencyMs == hop.times.latencyMs && attempt.costMicros == 0.0)
  }

  /** How the i-th attempt shows in the log. */
  ghost predicate ShownAt(log: seq<Entry>, hop: Hop, attempt: Attempt, n: nat)
    requires n < |log|
  {
    if Admits(log, n) then Records(attempt, hop) && n + 1 < |log| && ToldAs(log[n + 1], hop, attempt)
    else attempt == Attempt(hop.provider, hop.model, false, "circuit_open", 0, 0.0)
  }

  ghost predicate ReportedTruly(log: seq<Entry>, from: nat, hops: seq<Hop>, attempts: seq<Attempt>) {
    && |attempts| <= |hops|
    && (forall i :: 0 <= i < |attempts| ==>
          if hops[i].skipBreaker then Records(attempts[i], hops[i])
          else exists n: nat :: AskedAt(log, from, hops, i, n) && ShownAt(log, hops[i], attempts[i], n))
  }

  lemma {:induction false} WalkLogGrows(log: seq<Entry>, hops: seq<Hop>, i: nat)
    requires i <= |hops|
    ensures WalkLog(log, hops[..i]) <= WalkLog(log, hops) && log <= WalkLog(log, hops)
    decreases |hops|
  {
    if i < |hops| {
      assert hops[..|hops| - 1][..i] == hops[..i];
      WalkLogGrows(log, hops[..|hops| - 1], i);
    } else {
      TakeAll(hops);
      if hops != [] { WalkLogGrows(log, hops[..i - 1], i - 1); }
    }
  }

  lemma FilterOneMore<T>(s: seq<T>, x: T, p: T -> bool)
    ensures Filter(s + [x], p) == Filter(s, p) + if p(x) then [x] else []
  {
    FilterAppend(s, [x], p);
    assert [x][1..] == [];
  }

  lemma HopCounts(b: Breaker, hop: Hop)
    ensures |RequestsIn(HopLog(b, hop))| == if hop.skipBreaker then 0 else 1
    ensures |SuccessesIn(HopLog(b, hop))| == if !hop.skipBreaker && AttemptOf(b, hop).ok then 1 else 0
  {
    var asked, told := Asking(hop), Telling(hop);
    assert [asked] == [] + [asked] && [asked, told] == [asked] + [told];
    FilterOneMore([], asked, (e: Entry) => e.event.Request?);
    FilterOneMore([], asked, (e: Entry) => e.event.Succeeded?);
    FilterOneMore([asked], told, (e: Entry) => e.event.Request?);
    FilterOneMore([asked], told, (e: Entry) => e.event.Succeeded?);
  }

  /** The calls of the hops so far, and those of one hop more. */
  lemma AddedOneMore(log: seq<Entry>, hops: seq<Hop>, i: nat)
    requires i < |hops| && log <= WalkLog(log, hops[..i]) && log <= WalkLog(log, hops[..i + 1])
    ensures var before := WalkLog(log, hops[..i]);
      WalkLog(log, hops[..i + 1])[|log|..] == before[|log|..] + HopLog(Replay(before, hops[i].provider), hops[i])
  {
    WalkLogOneMore(log, hops, i);
    var before := WalkLog(log, hops[..i]);
    DropFirst(log, before, HopLog(Replay(before, hops[i].provider), hops[i]));
  }

  lemma DropFirst(log: seq<Entry>, before: seq<Entry>, more: seq<Entry>)
    requires log <= before
    ensures (before + more)[|log|..] == before[|log|..] + more
  {
  }

  /** The first hops have made as many requests as there are guarded ones among them. */
  ghost predicate Counted(log: seq<Entry>, hops: seq<Hop>, i: nat)
    requires i <= |hops|
  {
    log <= WalkLog(log, hops[..i]) && |RequestsIn(WalkLog(log, hops[..i])[|log|..])| == |Guarded(hops[..i])|
  }

  lemma {:induction false} RequestsCounted(log: seq<Entry>, hops: seq<Hop>, i: nat)
    requires i <= |hops|
    ensures Counted(log, hops, i)
  {
    if i == 0 {
      NoHopsYet(log, hops);
    } else {
      RequestsCounted(log, hops, i - 1);
      CountedNext(log, hops, i - 1);
    }
  }

  lemma CountedNext(log: seq<Entry>, hops: seq<Hop>, i: nat)
    requires i < |hops| && Counted(log, hops, i)
    ensures Counted(log, hops, i + 1)
  {
    OneMoreRequest(log, hops, i);
    GuardedOneMore(hops, i);
  }

  lemma NoHopsYet(log: seq<Entry>, hops: seq<Hop>)
    ensures WalkLog(log, hops[..0]) == log && log[|log|..] == []
    ensures RequestsIn([]) == [] && SuccessesIn([]) == [] && Guarded(hops[..0]) == []
  {
  }

  lemma GuardedOneMore(hops: seq<Hop>, i: nat)
    requires i < |hops|
    ensures |Guarded(hops[..i + 1])| == |Guarded(hops[..i])| + if hops[i].skipBreaker then 0 else 1
  {
    TakeOneMore(hops, i);
    FilterOneMore(hops[..i], hops[i], (hop: Hop) => !hop.skipBreaker);
  }

  lemma OneMoreRequest(log: seq<Entry>, hops: seq<Hop>, i: nat)
    requires i < |hops|
    ensures log <= WalkLog(log, hops[..i]) && log <= WalkLog(log, hops[..i + 1])
    ensures |RequestsIn(WalkLog(log, hops[..i + 1])[|log|..])|
      == |RequestsIn(WalkLog(log, hops[..i])[|log|..])| + if hops[i].skipBreaker then 0 else 1
  {
    WalkLogGrows(log, hops[..i], i);
    WalkLogGrows(log, hops[..i + 1], i + 1);
    AddedOneMore(log, hops, i);
    var before := WalkLog(log, hops[..i]);
    var b := Replay(before, hops[i].provider);
    HopCounts(b, hops[i]);
    FilterAppend(before[|log|..], HopLog(b, hops[i]), (e: Entry) => e.event.Request?);
  }

  lemma AnsweredIff(hop: Hop)
    ensures Answered(hop) <==> Delivers(hop)
  {
    if Delivers(hop) { assert IsMicros(hop.reply.value.costMicros, hop.reply.value.costMicros.Floor); }
  }

  lemma EntriesOf(before: seq<Entry>, more: seq<Entry>, log: seq<Entry>)
    requires before + more <= log
    ensures log[..|before|] == before && forall k :: 0 <= k < |more| ==> log[|before| + k] == more[k]
  {
    assert forall k :: 0 <= k < |before + more| ==> log[k] == (before + more)[k];
  }

  lemma ShownIf(log: seq<Entry>, n: nat, hop: Hop, b: Breaker)
    requires n < |log| && log[n] == Asking(hop) && !hop.skipBreaker && Replay(log[..n], hop.provider) == b
    requires Passes(b, hop) ==> n + 1 < |log| && log[n + 1] == Telling(hop)
    ensures ShownAt(log, hop, AttemptOf(b, hop), n)
  {
    AnsweredIff(hop);
  }

  lemma HopShown(before: seq<Entry>, log: seq<Entry>, hop: Hop)
    requires !hop.skipBreaker && before + HopLog(Replay(before, hop.provider), hop) <= log
    ensures |before| < |log| && log[|before|] == Asking(hop) && before <= log
    ensures ShownAt(log, hop, AttemptOf(Replay(before, hop.provider), hop), |before|)
  {
    var b := Replay(before, hop.provider);
    var more := HopLog(b, hop);
    EntriesOf(before, more, log);
    assert more[0] == Asking(hop) && (Passes(b, hop) ==> |more| == 2 && more[1] == Telling(hop));
    assert log[|before| + 0] == more[0];
    ShownIf(log, |before|, hop, b);
  }

  lemma HopInWalk(log: seq<Entry>, hops: seq<Hop>, m: nat, i: nat)
    requires i < m <= |hops|
    ensures var before := WalkLog(log, hops[..i]);
      before + HopLog(Replay(before, hops[i].provider), hops[i]) <= WalkLog(log, hops[..m])
  {
    assert hops[..m][..i + 1] == hops[..i + 1];
    WalkLogGrows(log, hops[..m], i + 1);
    WalkLogOneMore(log, hops, i);
  }

  lemma StretchOf(log: seq<Entry>, before: seq<Entry>, later: seq<Entry>)
    requires log <= before <= later
    ensures later[|log|..|before|] == before[|log|..]
  {
  }

  lemma AttemptShown(log: seq<Entry>, hops: seq<Hop>, m: nat, i: nat)
    requires i < m <= |hops| && !hops[i].skipBreaker
    ensures var later, n := WalkLog(log, hops[..m]), |WalkLog(log, hops[..i])|;
      AskedAt(later, |log|, hops, i, n) && ShownAt(later, hops[i], AttemptAt(log, hops, i), n)
  {
    var before, later := WalkLog(log, hops[..i]), WalkLog(log, hops[..m]);
    HopInWalk(log, hops, m, i);
    RequestsCounted(log, hops, i);
    HopShown(before, later, hops[i]);
    StretchOf(log, before, later);
  }

  /** A walk tells each breaker what the attempts say, hop by hop. */
  lemma WalkReportsTruly(log: seq<Entry>, hops: seq<Hop>, attempts: seq<Attempt>)
    requires Walked(hops, attempts, log)
    ensures ReportedTruly(WalkLog(log, hops[..|attempts|]), |log|, hops, attempts)
  {
    forall i | 0 <= i < |attempts|
      ensures if hops[i].skipBreaker then Records(attempts[i], hops[i])
        else exists n: nat :: AskedAt(WalkLog(log, hops[..|attempts|]), |log|, hops, i, n)
                           && ShownAt(WalkLog(log, hops[..|attempts|]), hops[i], attempts[i], n)
    {
      assert attempts[i] == AttemptAt(log, hops, i);
      if hops[i].skipBreaker {
        AnsweredIff(hops[i]);
      } else {
        AttemptShown(log, hops, |attempts|, i);
      }
    }
  }

  lemma {:induction false} NoSuccessYet(log: seq<Entry>, hops: seq<Hop>, attempts: seq<Attempt>, i: nat)
    requires Walked(hops, attempts, log) && i <= |attempts|
    requires forall j :: 0 <= j < i ==> !attempts[j].ok
    ensures log <= WalkLog(log, hops[..i]) && SuccessesIn(WalkLog(log, hops[..i])[|log|..]) == []
  {
    if i == 0 {
      NoHopsYet(log, hops);
    } else {
      NoSuccessYet(log, hops, attempts, i - 1);
      OneMoreSuccess(log, hops, i - 1);
      assert attempts[i - 1] == AttemptAt(log, hops, i - 1);
    }
  }

  lemma OneMoreSuccess(log: seq<Entry>, hops: seq<Hop>, i: nat)
    requires i < |hops|
    ensures log <= WalkLog(log, hops[..i]) && log <= WalkLog(log, hops[..i + 1])
    ensures |SuccessesIn(WalkLog(log, hops[..i + 1])[|log|..])|
      == |SuccessesIn(WalkLog(log, hops[..i])[|log|..])|
         + if !hops[i].skipBreaker && AttemptAt(log, hops, i).ok then 1 else 0
  {
    WalkLogGrows(log, hops[..i], i);
    WalkLogGrows(log, hops[..i + 1], i + 1);
    AddedOneMore(log, hops, i);
    var before := WalkLog(log, hops[..i]);
    var b := Replay(before, hops[i].provider);
    HopCounts(b, hops[i]);
    FilterAppend(before[|log|..], HopLog(b, hops[i]), (e: Entry) => e.event.Succeeded?);
  }

  /** One success is reported when the last attempt is ok and its hop has a breaker; otherwise none. */
  ghost predicate ReportsOneSuccess(log: seq<Entry>, later: seq<Entry>, hops: seq<Hop>, attempts: seq<Attempt>) {
    var last := |attempts| - 1;
    && log <= later && |attempts| <= |hops|
    && |SuccessesIn(later[|log|..])| == if attempts != [] && attempts[last].ok && !hops[last].skipBreaker then 1 else 0
  }

  lemma OneSuccess(log: seq<Entry>, hops: seq<Hop>, attempts: seq<Attempt>)
    requires Walked(hops, attempts, log) && FailedBefore(attempts)
    ensures ReportsOneSuccess(log, WalkLog(log, hops[..|attempts|]), hops, attempts)
  {
    if attempts == [] {
      NoSuccessYet(log, hops, attempts, 0);
    } else {
      NoSuccessYet(log, hops, attempts, |attempts| - 1);
      OneMoreSuccess(log, hops, |attempts| - 1);
      assert attempts[|attempts| - 1] == AttemptAt(log, hops, |attempts| - 1);
    }
  }

  lemma WalkReports(log: seq<Entry>, hops: seq<Hop>, attempts: seq<Attempt>)
    requires Walked(hops, attempts, log) && FailedBefore(attempts)
    ensures var later := WalkLog(log, hops[..|attempts|]);
      ReportedTruly(later, |log|, hops, attempts) && ReportsOneSuccess(log, later, hops, attempts)
  {
    WalkReportsTruly(log, hops, attempts);
    OneSuccess(log, hops, attempts);
  }
}

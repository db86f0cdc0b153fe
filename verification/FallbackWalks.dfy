/** Many walks of fallback chains over the same breakers, with anything between their steps. */
module FallbackWalks {
  import opened Common
  import opened CircuitBreaker
  import opened FallbackChain

  // A walk waits for its hop's invoke between asking the breaker and telling it the outcome.

  /** What a walk did at a hop: its request was admitted, or its outcome was reported. */
  datatype Note = Granted(hop: nat) | Reported(hop: nat, ok: bool)

  datatype Walk = Walk(hops: seq<Hop>, next: nat, waiting: bool, notes: seq<Note>)

  datatype World = World(log: seq<Entry>, walks: seq<Walk>)

  datatype Action =
    | Start(hops: seq<Hop>)
    | Turn(i: nat)
    | Poll(provider: string, now: int)

  /** The hop after this one, or the end of the chain when this one delivers. */
  function Onward(w: Walk): nat
    requires w.next < |w.hops|
  {
    if Delivers(w.hops[w.next]) then |w.hops| else w.next + 1
  }

  /** The walk up to its next call on a breaker. */
  function Advance(w: Walk, log: seq<Entry>): (Walk, seq<Entry>) {
    if w.next >= |w.hops| then (w, log)
    else
      var hop := w.hops[w.next];
      if w.waiting then
        (w.(waiting := false, next := Onward(w), notes := w.notes + [Reported(w.next, Delivers(hop))]),
         log + [Telling(hop)])
      else if hop.skipBreaker then (w.(next := Onward(w)), log)
      else if Passes(Replay(log, hop.provider), hop) then
        (w.(waiting := true, notes := w.notes + [Granted(w.next)]), log + [Asking(hop)])
      else (w.(next := w.next + 1), log + [Asking(hop)])
  }

  function Act(w: World, a: Action): World {
    match a
    case Start(hops) => w.(walks := w.walks + [Walk(hops, 0, false, [])])
    case Turn(i) =>
      if i < |w.walks| then
        var (walk, log) := Advance(w.walks[i], w.log);
        World(log, w.walks[i := walk])
      else w
    case Poll(p, now) => w.(log := w.log + [Entry(p, Event.Poll(now))])
  }

  function Run(actions: seq<Action>): World {
    if actions == [] then World([], []) else Act(Run(actions[..|actions| - 1]), actions[|actions| - 1])
  }

  // ----- counting -----

  function One(b: bool): nat { if b then 1 else 0 }

  predicate Requests(log: seq<Entry>, e: Entry, p: string) {
    e.provider == p && e.event.Request? && Allow(Replay(log, p), e.event.now).1
  }

  /** The requests that the breaker of p admitted. */
  function Admitted(log: seq<Entry>, p: string): nat {
    if log == [] then 0
    else
      var before := log[..|log| - 1];
      Admitted(before, p) + One(Requests(before, log[|log| - 1], p))
  }

  /** The outcomes that the breaker of p was told. */
  function Told(log: seq<Entry>, p: string): nat {
    if log == [] then 0
    else Told(log[..|log| - 1], p) + One(IsOutcome(log[|log| - 1]) && log[|log| - 1].provider == p)
  }

  lemma CountOneMore(log: seq<Entry>, e: Entry, p: string)
    ensures Admitted(log + [e], p) == Admitted(log, p) + One(Requests(log, e, p))
    ensures Told(log + [e], p) == Told(log, p) + One(IsOutcome(e) && e.provider == p)
  {
    assert (log + [e])[..|log|] == log;
  }

  predicate WaitsFor(w: Walk, p: string) {
    w.waiting && w.next < |w.hops| && w.hops[w.next].provider == p
  }

  /** The walks whose admitted request to p is under way. */
  function Waiting(walks: seq<Walk>, p: string): nat {
    if walks == [] then 0 else One(WaitsFor(walks[0], p)) + Waiting(walks[1..], p)
  }

  lemma {:induction false} WaitingUpdate(walks: seq<Walk>, i: nat, w: Walk, p: string)
    requires i < |walks|
    ensures Waiting(walks[i := w], p) + One(WaitsFor(walks[i], p)) == Waiting(walks, p) + One(WaitsFor(w, p))
    ensures Waiting(walks, p) >= One(WaitsFor(walks[i], p))
  {
    if i > 0 {
      WaitingUpdate(walks[1..], i - 1, w, p);
      assert walks[i := w][1..] == walks[1..][i - 1 := w];
    } else {
      assert walks[0 := w][1..] == walks[1..];
    }
  }

  lemma {:induction false} WaitingAppend(walks: seq<Walk>, w: Walk, p: string)
    ensures Waiting(walks + [w], p) == Waiting(walks, p) + One(WaitsFor(w, p))
  {
    if walks == [] {
      assert [w][1..] == [];
      assert walks + [w] == [w];
    } else {
      assert (walks + [w])[0] == walks[0] && (walks + [w])[1..] == walks[1..] + [w];
      WaitingAppend(walks[1..], w, p);
    }
  }

  // ----- the invariant -----

  /** Grants and reports alternate, each report for the grant just before it; the awaited grant is the last. */
  ghost predicate Alternates(notes: seq<Note>, awaited: Option<nat>) {
    if notes == [] then awaited.None?
    else
      var before := notes[..|notes| - 1];
      match notes[|notes| - 1]
      case Granted(hop) => awaited == Some(hop) && Alternates(before, None)
      case Reported(hop, _) => awaited.None? && Alternates(before, Some(hop))
  }

  function Awaited(w: Walk): Option<nat> {
    if w.waiting && w.next < |w.hops| then Some(w.next) else None
  }

  ghost predicate InTurn(w: Walk) {
    && (w.waiting ==> w.next < |w.hops| && !w.hops[w.next].skipBreaker)
    && Alternates(w.notes, Awaited(w))
  }

  /** Admitted requests are settled or awaited, and only an awaited request can be a probe in flight. */
  ghost predicate Balanced(w: World, p: string) {
    && Admitted(w.log, p) == Told(w.log, p) + Waiting(w.walks, p)
    && (Replay(w.log, p).probeInFlight ==> Waiting(w.walks, p) > 0)
  }

  ghost predicate Inv(w: World) {
    && (forall i :: 0 <= i < |w.walks| ==> InTurn(w.walks[i]))
    && forall p :: Balanced(w, p)
  }

  lemma AdvanceInTurn(w: Walk, log: seq<Entry>)
    requires InTurn(w)
    ensures InTurn(Advance(w, log).0)
  {
    var w' := Advance(w, log).0;
    if w'.notes != w.notes {
      assert w'.notes[..|w.notes|] == w.notes;
    }
  }

  /** A probe appears only with an admitted request, and an outcome ends it. */
  lemma ProbeStep(log: seq<Entry>, e: Entry, p: string)
    requires Replay(log + [e], p).probeInFlight
    ensures Replay(log, p).probeInFlight || Requests(log, e, p)
    ensures !(IsOutcome(e) && e.provider == p)
  {
    ReplayAppend(log, e, p);
  }

  /** The entry that a walk's turn adds, if it calls a breaker. */
  function Call(walk: Walk): Entry
    requires walk.next < |walk.hops|
  {
    if walk.waiting then Telling(walk.hops[walk.next]) else Asking(walk.hops[walk.next])
  }

  /** An admitted request is awaited from then on, and an outcome ends the waiting. */
  lemma AdvanceWaits(walk: Walk, log: seq<Entry>, p: string)
    requires InTurn(walk) && walk.next < |walk.hops| && !walk.hops[walk.next].skipBreaker
    ensures var ((walk', log'), e) := (Advance(walk, log), Call(walk));
      && log' == log + [e]
      && One(WaitsFor(walk', p)) + One(IsOutcome(e) && e.provider == p)
         == One(WaitsFor(walk, p)) + One(Requests(log, e, p))
  {
  }

  /** One more entry, with the number of awaited requests before and after it. */
  lemma EntryBalances(log: seq<Entry>, e: Entry, p: string, before: nat, after: nat)
    requires Admitted(log, p) == Told(log, p) + before && (Replay(log, p).probeInFlight ==> before > 0)
    requires after + One(IsOutcome(e) && e.provider == p) == before + One(Requests(log, e, p))
    ensures Admitted(log + [e], p) == Told(log + [e], p) + after
    ensures Replay(log + [e], p).probeInFlight ==> after > 0
  {
    CountOneMore(log, e, p);
    if Replay(log + [e], p).probeInFlight { ProbeStep(log, e, p); }
  }

  lemma TurnBalances(w: World, i: nat, p: string)
    requires i < |w.walks| && InTurn(w.walks[i]) && Balanced(w, p)
    ensures Balanced(Act(w, Turn(i)), p)
  {
    var walk := w.walks[i];
    var walk' := Advance(walk, w.log).0;
    WaitingUpdate(w.walks, i, walk', p);
    if walk.next < |walk.hops| && !walk.hops[walk.next].skipBreaker {
      AdvanceWaits(walk, w.log, p);
      EntryBalances(w.log, Call(walk), p, Waiting(w.walks, p), Waiting(w.walks[i := walk'], p));
    }
  }

  lemma StartBalances(w: World, hops: seq<Hop>, p: string)
    requires Balanced(w, p)
    ensures Balanced(Act(w, Start(hops)), p)
  {
    WaitingAppend(w.walks, Walk(hops, 0, false, []), p);
  }

  lemma PollBalances(w: World, q: string, now: int, p: string)
    requires Balanced(w, p)
    ensures Balanced(Act(w, Action.Poll(q, now)), p)
  {
    CountOneMore(w.log, Entry(q, Event.Poll(now)), p);
    ReplayAppend(w.log, Entry(q, Event.Poll(now)), p);
  }

  lemma ActBalances(w: World, a: Action, p: string)
    requires Inv(w)
    ensures Balanced(Act(w, a), p)
  {
    assert Balanced(w, p);
    match a
    case Start(hops) => StartBalances(w, hops, p);
    case Turn(i) => if i < |w.walks| { TurnBalances(w, i, p); }
    case Poll(q, now) => PollBalances(w, q, now, p);
  }

  lemma ActInTurn(w: World, a: Action)
    requires forall i :: 0 <= i < |w.walks| ==> InTurn(w.walks[i])
    ensures forall i :: 0 <= i < |Act(w, a).walks| ==> InTurn(Act(w, a).walks[i])
  {
    if a.Turn? && a.i < |w.walks| {
      AdvanceInTurn(w.walks[a.i], w.log);
    }
  }

  lemma ActKeepsInv(w: World, a: Action)
    requires Inv(w)
    ensures Inv(Act(w, a))
  {
    ActInTurn(w, a);
    forall p { ActBalances(w, a, p); }
  }

  /**
   In every interleaving: each walk reports exactly one outcome for each request it was
   granted, before it asks again; a provider's admitted requests are those settled and those
   awaited; and a probe is in flight only while some walk awaits it.
   */
  lemma {:induction false} WalksSettle(actions: seq<Action>)
    ensures Inv(Run(actions))
  {
    if actions != [] {
      WalksSettle(actions[..|actions| - 1]);
      ActKeepsInv(Run(actions[..|actions| - 1]), actions[|actions| - 1]);
    }
  }

  predicate Returned(w: Walk) { w.next >= |w.hops| }

  lemma {:induction false} NobodyWaits(walks: seq<Walk>, p: string)
    requires forall i :: 0 <= i < |walks| ==> Returned(walks[i])
    ensures Waiting(walks, p) == 0
  {
    if walks != [] { NobodyWaits(walks[1..], p); }
  }

  /** When every walk has returned, every admitted request is settled and no probe is left behind. */
  lemma NoProbeLeaks(actions: seq<Action>, p: string)
    requires forall i :: 0 <= i < |Run(actions).walks| ==> Returned(Run(actions).walks[i])
    ensures Admitted(Run(actions).log, p) == Told(Run(actions).log, p)
    ensures !Replay(Run(actions).log, p).probeInFlight
  {
    WalksSettle(actions);
    NobodyWaits(Run(actions).walks, p);
    assert Balanced(Run(actions), p);
  }

  // ----- the reports are true -----

  /** A walk's note at a hop with a breaker; a report says whether the hop answered, and an answer ends the walk. */
  ghost predicate TrueNote(w: Walk, note: Note) {
    && note.hop < |w.hops| && !w.hops[note.hop].skipBreaker
    && (note.Reported? ==>
          && note.hop < w.next
          && (note.ok <==> Answered(w.hops[note.hop]))
          && (note.ok ==> w.next >= |w.hops|))
  }

  /** All notes are true, and no hop is reported twice. */
  ghost predicate Truthful(w: Walk) {
    && (w.waiting ==> w.next < |w.hops| && !w.hops[w.next].skipBreaker)
    && (forall k :: 0 <= k < |w.notes| ==> TrueNote(w, w.notes[k]))
    && (forall k, l :: 0 <= k < l < |w.notes| && w.notes[k].Reported? && w.notes[l].Reported? ==>
          w.notes[k].hop < w.notes[l].hop)
  }

  lemma AdvanceTruthful(w: Walk, log: seq<Entry>)
    requires Truthful(w)
    ensures Truthful(Advance(w, log).0)
  {
    var w' := Advance(w, log).0;
    if w.next < |w.hops| { AnsweredIff(w.hops[w.next]); }
    forall k | 0 <= k < |w'.notes| ensures TrueNote(w', w'.notes[k]) {
      if k < |w.notes| { assert TrueNote(w, w.notes[k]); }
    }
  }

  /** The outcomes of one kind that the breaker of p was told. */
  function Outcomes(log: seq<Entry>, p: string, ok: bool): nat {
    if log == [] then 0
    else
      var e := log[|log| - 1];
      Outcomes(log[..|log| - 1], p, ok)
      + One(e.provider == p && if ok then e.event.Succeeded? else e.event.Failed?)
  }

  predicate IsReport(w: Walk, note: Note, p: string, ok: bool) {
    note.Reported? && note.ok == ok && note.hop < |w.hops| && w.hops[note.hop].provider == p
  }

  /** The first n notes of a walk that report an outcome of one kind to p. */
  function Reports(w: Walk, n: nat, p: string, ok: bool): nat
    requires n <= |w.notes|
  {
    if n == 0 then 0 else Reports(w, n - 1, p, ok) + One(IsReport(w, w.notes[n - 1], p, ok))
  }

  /** The reports of one kind to p, in all walks. */
  function AllReports(walks: seq<Walk>, p: string, ok: bool): nat {
    if walks == [] then 0 else Reports(walks[0], |walks[0].notes|, p, ok) + AllReports(walks[1..], p, ok)
  }

  lemma {:induction false} SameReports(v: Walk, w: Walk, n: nat, p: string, ok: bool)
    requires v.hops == w.hops && n <= |v.notes| && n <= |w.notes| && v.notes[..n] == w.notes[..n]
    ensures Reports(v, n, p, ok) == Reports(w, n, p, ok)
  {
    if n > 0 {
      assert v.notes[..n][n - 1] == w.notes[..n][n - 1];
      assert v.notes[..n - 1] == v.notes[..n][..n - 1] == w.notes[..n - 1];
      SameReports(v, w, n - 1, p, ok);
    }
  }

  lemma {:induction false} AllReportsUpdate(walks: seq<Walk>, i: nat, w: Walk, p: string, ok: bool)
    requires i < |walks|
    ensures AllReports(walks[i := w], p, ok) + Reports(walks[i], |walks[i].notes|, p, ok)
      == AllReports(walks, p, ok) + Reports(w, |w.notes|, p, ok)
  {
    if i > 0 {
      AllReportsUpdate(walks[1..], i - 1, w, p, ok);
      assert walks[i := w][1..] == walks[1..][i - 1 := w];
    } else {
      assert walks[0 := w][1..] == walks[1..];
    }
  }

  lemma {:induction false} AllReportsAppend(walks: seq<Walk>, w: Walk, p: string, ok: bool)
    requires w.notes == []
    ensures AllReports(walks + [w], p, ok) == AllReports(walks, p, ok)
  {
    if walks == [] {
      assert [w][1..] == [] && walks + [w] == [w];
    } else {
      assert (walks + [w])[0] == walks[0] && (walks + [w])[1..] == walks[1..] + [w];
      AllReportsAppend(walks[1..], w, p, ok);
    }
  }

  lemma OutcomesAppend(log: seq<Entry>, e: Entry, p: string, ok: bool)
    ensures Outcomes(log + [e], p, ok)
      == Outcomes(log, p, ok) + One(e.provider == p && if ok then e.event.Succeeded? else e.event.Failed?)
  {
    assert (log + [e])[..|log|] == log;
  }

  lemma NotesKept(w: Walk, w': Walk, p: string, ok: bool)
    requires w'.hops == w.hops && w'.notes == w.notes
    ensures Reports(w', |w'.notes|, p, ok) == Reports(w, |w.notes|, p, ok)
  {
    SameReports(w', w, |w.notes|, p, ok);
  }

  lemma NotesAppend(w: Walk, w': Walk, note: Note, p: string, ok: bool)
    requires w'.hops == w.hops && w'.notes == w.notes + [note]
    ensures Reports(w', |w'.notes|, p, ok) == Reports(w, |w.notes|, p, ok) + One(IsReport(w, note, p, ok))
  {
    SameReports(w', w, |w.notes|, p, ok);
  }

  /** An outcome that a walk tells is its next report. */
  lemma TellReports(w: Walk, log: seq<Entry>, p: string, ok: bool)
    requires w.next < |w.hops| && w.waiting
    ensures var (w', log') := Advance(w, log);
      Outcomes(log', p, ok) + Reports(w, |w.notes|, p, ok) == Outcomes(log, p, ok) + Reports(w', |w'.notes|, p, ok)
  {
    NotesAppend(w, Advance(w, log).0, Reported(w.next, Delivers(w.hops[w.next])), p, ok);
    OutcomesAppend(log, Telling(w.hops[w.next]), p, ok);
  }

  /** A request is no outcome and no report. */
  lemma AskReports(w: Walk, log: seq<Entry>, p: string, ok: bool)
    requires w.next < |w.hops| && !w.waiting && !w.hops[w.next].skipBreaker
    ensures var (w', log') := Advance(w, log);
      Outcomes(log', p, ok) == Outcomes(log, p, ok) && Reports(w', |w'.notes|, p, ok) == Reports(w, |w.notes|, p, ok)
  {
    var w' := Advance(w, log).0;
    OutcomesAppend(log, Asking(w.hops[w.next]), p, ok);
    if w'.notes == w.notes {
      NotesKept(w, w', p, ok);
    } else {
      NotesAppend(w, w', Granted(w.next), p, ok);
    }
  }

  /** A walk's turn adds as many outcomes to the log as reports to its notes. */
  lemma AdvanceReports(w: Walk, log: seq<Entry>, p: string, ok: bool)
    ensures var (w', log') := Advance(w, log);
      Outcomes(log', p, ok) + Reports(w, |w.notes|, p, ok) == Outcomes(log, p, ok) + Reports(w', |w'.notes|, p, ok)
  {
    if w.next < |w.hops| && w.waiting {
      TellReports(w, log, p, ok);
    } else if w.next < |w.hops| && !w.hops[w.next].skipBreaker {
      AskReports(w, log, p, ok);
    } else {
      NotesKept(w, Advance(w, log).0, p, ok);
    }
  }

  /** Every outcome in the log is a report of some walk. */
  ghost predicate Accounted(w: World, p: string, ok: bool) {
    Outcomes(w.log, p, ok) == AllReports(w.walks, p, ok)
  }

  lemma TurnAccounted(w: World, i: nat, p: string, ok: bool)
    requires i < |w.walks| && Truthful(w.walks[i]) && Accounted(w, p, ok)
    ensures Accounted(Act(w, Turn(i)), p, ok)
  {
    AdvanceReports(w.walks[i], w.log, p, ok);
    AllReportsUpdate(w.walks, i, Advance(w.walks[i], w.log).0, p, ok);
  }

  lemma ActAccounted(w: World, a: Action, p: string, ok: bool)
    requires (forall i :: 0 <= i < |w.walks| ==> Truthful(w.walks[i])) && Accounted(w, p, ok)
    ensures Accounted(Act(w, a), p, ok)
  {
    match a
    case Start(hops) => AllReportsAppend(w.walks, Walk(hops, 0, false, []), p, ok);
    case Turn(i) => if i < |w.walks| { TurnAccounted(w, i, p, ok); }
    case Poll(q, now) => OutcomesAppend(w.log, Entry(q, Event.Poll(now)), p, ok);
  }

  lemma ActTruthful(w: World, a: Action)
    requires forall i :: 0 <= i < |w.walks| ==> Truthful(w.walks[i])
    ensures forall i :: 0 <= i < |Act(w, a).walks| ==> Truthful(Act(w, a).walks[i])
  {
    if a.Turn? && a.i < |w.walks| {
      AdvanceTruthful(w.walks[a.i], w.log);
    }
  }

  /**
   In every interleaving a success is reported exactly for a hop that answered, a failure for one
   that did not, each hop at most once, and an answer ends its walk. The log holds these reports:
   as many successes and as many failures for a provider as the walks report to it.
   */
  lemma {:induction false} WalksReportTruly(actions: seq<Action>, p: string, ok: bool)
    ensures forall i :: 0 <= i < |Run(actions).walks| ==> Truthful(Run(actions).walks[i])
    ensures Accounted(Run(actions), p, ok)
  {
    if actions != [] {
      var before := actions[..|actions| - 1];
      WalksReportTruly(before, p, ok);
      ActTruthful(Run(before), actions[|actions| - 1]);
      ActAccounted(Run(before), actions[|actions| - 1], p, ok);
    }
  }

  // ----- undisturbed, a walk is the chain's loop -----

  /** The walk's turns for one hop. */
  function WholeHop(w: Walk, log: seq<Entry>): (Walk, seq<Entry>) {
    var (w', log') := Advance(w, log);
    if w'.waiting then Advance(w', log') else (w', log')
  }

  lemma HopIsHopLog(w: Walk, log: seq<Entry>)
    requires !w.waiting && w.next < |w.hops|
    ensures var hop := w.hops[w.next];
      var b := Replay(log, hop.provider);
      && WholeHop(w, log).1 == log + HopLog(b, hop)
      && !WholeHop(w, log).0.waiting && WholeHop(w, log).0.hops == w.hops
      && WholeHop(w, log).0.next == if AttemptOf(b, hop).ok then |w.hops| else w.next + 1
  {
  }

  /** The walk's turns until it returns. */
  function WholeWalk(w: Walk, log: seq<Entry>): seq<Entry>
    requires !w.waiting && w.next <= |w.hops|
    decreases |w.hops| - w.next
  {
    if w.next == |w.hops| then log
    else
      HopIsHopLog(w, log);
      var (w', log') := WholeHop(w, log);
      WholeWalk(w', log')
  }

  /** How many hops are tried when the chain has come to this one: up to the first attempt that is ok. */
  function ChainEnd(start: seq<Entry>, hops: seq<Hop>, from: nat): (n: nat)
    requires from <= |hops|
    ensures from <= n <= |hops|
    decreases |hops| - from
  {
    if from == |hops| then from
    else if AttemptAt(start, hops, from).ok then from + 1
    else ChainEnd(start, hops, from + 1)
  }

  /** Taken without interruption, the turns of a walk make the calls of the hops up to there. */
  lemma {:induction false} WholeWalkIsWalkLog(w: Walk, log: seq<Entry>, start: seq<Entry>)
    requires !w.waiting && w.next <= |w.hops| && log == WalkLog(start, w.hops[..w.next])
    ensures WholeWalk(w, log) == WalkLog(start, w.hops[..ChainEnd(start, w.hops, w.next)])
    decreases |w.hops| - w.next
  {
    if w.next < |w.hops| {
      OneHopOfWalk(w, log, start);
      if !AttemptAt(start, w.hops, w.next).ok {
        WholeWalkIsWalkLog(WholeHop(w, log).0, WholeHop(w, log).1, start);
      }
    }
  }

  /** The chain's loop stops there too. */
  lemma {:induction false} LoopEndsThere(hops: seq<Hop>, attempts: seq<Attempt>, start: seq<Entry>, from: nat)
    requires Walked(hops, attempts, start) && from <= |attempts|
    requires forall j :: 0 <= j < |attempts| - 1 ==> !attempts[j].ok
    requires |attempts| == |hops| || (from < |attempts| && attempts[|attempts| - 1].ok)
    ensures ChainEnd(start, hops, from) == |attempts|
    decreases |attempts| - from
  {
    if from < |attempts| {
      assert attempts[from] == AttemptAt(start, hops, from);
      if !attempts[from].ok {
        LoopEndsThere(hops, attempts, start, from + 1);
      }
    }
  }

  lemma OneHopOfWalk(w: Walk, log: seq<Entry>, start: seq<Entry>)
    requires !w.waiting && w.next < |w.hops| && log == WalkLog(start, w.hops[..w.next])
    ensures var (w', log') := WholeHop(w, log);
      && log' == WalkLog(start, w.hops[..w.next + 1])
      && !w'.waiting && w'.hops == w.hops
      && w'.next == (if AttemptAt(start, w.hops, w.next).ok then |w.hops| else w.next + 1)
      && WholeWalk(w, log) == WholeWalk(w', log')
  {
    HopIsHopLog(w, log);
    WalkLogOneMore(start, w.hops, w.next);
  }
}

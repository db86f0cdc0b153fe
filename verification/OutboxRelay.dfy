/** The outbox relay: lists unrelayed rows, dispatches each once to its handler, and marks it relayed. */
module OutboxRelay {
  import opened Common

  // `OutboxRelayService` is one undisturbed tick. `Go` is the same tick cut at its
  // effects, so that a crash or a failing effect can fall between any two of them; `Run`
  // is any history of one relay process, with rows arriving meanwhile.

  // ----- rows, envelopes and the dispatcher's classification -----

  datatype PartialEnvelope = PartialEnvelope(
    eventId: Option<string>, eventType: Option<string>, schemaVersion: Option<int>)

  /** A payload is either stored with its envelope or bare. */
  datatype Payload = Enveloped(envelope: PartialEnvelope, data: string) | Bare(data: string)

  datatype Row = Row(id: string, eventType: string, schemaVersion: int, payload: Payload)

  datatype Envelope = Envelope(eventId: string, eventType: string, schemaVersion: int, data: string)

  /** What the stored envelope leaves out is taken from the row. */
  function RowToEnvelope(row: Row): Envelope {
    match row.payload
    case Enveloped(env, data) =>
      Envelope(env.eventId.GetOr(row.id), env.eventType.GetOr(row.eventType),
               env.schemaVersion.GetOr(row.schemaVersion), data)
    case Bare(data) => Envelope(row.id, row.eventType, row.schemaVersion, data)
  }

  function EventId(row: Row): string { RowToEnvelope(row).eventId }

  /** The event catalogue and the registered handlers. */
  datatype Catalog = Catalog(
    maxKnown: map<string, int>,
    schemas: set<(string, int)>,
    accepts: (string, int, string) -> bool,
    handled: set<string>
  )

  datatype Verdict = UnknownType | FutureVersion | InvalidPayload | NoHandler | HasHandler

  /** dispatch, up to the point where the handler would be called. */
  function Classify(cat: Catalog, row: Row): Verdict {
    var e := RowToEnvelope(row);
    if e.eventType !in cat.maxKnown then UnknownType
    else if e.schemaVersion > cat.maxKnown[e.eventType] then FutureVersion
    else if (e.eventType, e.schemaVersion) !in cat.schemas then InvalidPayload
    else if !cat.accepts(e.eventType, e.schemaVersion, e.data) then InvalidPayload
    else if e.eventType !in cat.handled then NoHandler
    else HasHandler
  }

  predicate Parked(cat: Catalog, row: Row) { Classify(cat, row) == FutureVersion }

  // ----- the same, told from the row's columns, its envelope and the catalogue -----

  /** The type the row is relayed as: the envelope's if it has one, else the row's own. */
  predicate TypeIs(row: Row, t: string) {
    if row.payload.Enveloped? && row.payload.envelope.eventType.Some? then row.payload.envelope.eventType.value == t
    else row.eventType == t
  }

  predicate VersionIs(row: Row, v: int) {
    if row.payload.Enveloped? && row.payload.envelope.schemaVersion.Some?
    then row.payload.envelope.schemaVersion.value == v
    else row.schemaVersion == v
  }

  /** The event the row carries: the envelope's, or the row itself. */
  predicate EventIs(row: Row, e: string) {
    if row.payload.Enveloped? && row.payload.envelope.eventId.Some? then row.payload.envelope.eventId.value == e
    else row.id == e
  }

  /** The row's version is not above the highest that is known for its type. */
  ghost predicate NotFuture(cat: Catalog, row: Row) {
    forall t, v :: TypeIs(row, t) && VersionIs(row, v) && t in cat.maxKnown ==> v <= cat.maxKnown[t]
  }

  /** The row's type and schema are known, its payload is accepted, and a handler is registered. */
  ghost predicate Deliverable(cat: Catalog, row: Row) {
    exists t, v :: TypeIs(row, t) && VersionIs(row, v) && Known(cat, row, t, v) && t in cat.handled
  }

  /** A known type in a known version, with a payload that its schema accepts. */
  predicate Known(cat: Catalog, row: Row, t: string, v: int) {
    && t in cat.maxKnown && v <= cat.maxKnown[t] && (t, v) in cat.schemas
    && cat.accepts(t, v, row.payload.data)
  }

  ghost predicate Recognized(cat: Catalog, row: Row) {
    exists t, v :: TypeIs(row, t) && VersionIs(row, v) && Known(cat, row, t, v)
  }

  lemma VerdictMeans(cat: Catalog, row: Row)
    ensures Parked(cat, row) <==> !NotFuture(cat, row)
    ensures Classify(cat, row) == HasHandler <==> Deliverable(cat, row)
    ensures Classify(cat, row) in {HasHandler, NoHandler} <==> Recognized(cat, row)
    ensures forall e :: EventIs(row, e) <==> e == EventId(row)
  {
    var e := RowToEnvelope(row);
    assert forall t :: TypeIs(row, t) <==> t == e.eventType;
    assert forall v :: VersionIs(row, v) <==> v == e.schemaVersion;
    assert e.data == row.payload.data;
    assert TypeIs(row, e.eventType) && VersionIs(row, e.schemaVersion);
  }

  datatype Counters = Counters(published: nat, skipped: nat, parked: nat)

  // ----- one undisturbed tick -----

  datatype State = State(relayed: set<string>, processed: set<string>, done: seq<Row>, c: Counters)

  /** runOnce: the handler runs unless the event's key is set, and then the key is set. */
  function Consumed(s: State, row: Row): State {
    if EventId(row) in s.processed then s
    else s.(done := s.done + [row], processed := s.processed + {EventId(row)})
  }

  function RelayRow(cat: Catalog, s: State, row: Row): State {
    match Classify(cat, row)
    case FutureVersion => s.(c := s.c.(skipped := s.c.skipped + 1, parked := s.c.parked + 1))
    case verdict =>
      var d := if verdict == HasHandler then Consumed(s, row) else s;
      d.(relayed := s.relayed + {row.id},
         c := s.c.(published := s.c.published + 1,
                   skipped := s.c.skipped + if verdict == InvalidPayload || verdict == UnknownType then 1 else 0))
  }

  function RelayAll(cat: Catalog, s: State, rows: seq<Row>): State
    decreases rows
  {
    if rows == [] then s else RelayAll(cat, RelayRow(cat, s, rows[0]), rows[1..])
  }

  function Ids(rows: seq<Row>): set<string> {
    set r | r in rows :: r.id
  }

  function NotParked(cat: Catalog, rows: seq<Row>): seq<Row> {
    Filter(rows, (r: Row) => !Parked(cat, r))
  }

  /** How many of the rows carry the event. */
  function Count(rows: seq<Row>, e: string): nat {
    if rows == [] then 0
    else Count(rows[..|rows| - 1], e) + if EventIs(rows[|rows| - 1], e) then 1 else 0
  }

  lemma CountAppend(rows: seq<Row>, row: Row, e: string)
    ensures Count(rows + [row], e) == Count(rows, e) + if EventIs(row, e) then 1 else 0
  {
    assert (rows + [row])[..|rows|] == rows;
  }

  /** The event's key is not set, and some row that can be delivered carries it. */
  ghost predicate NeedsHandler(cat: Catalog, processed: set<string>, rows: seq<Row>, e: string) {
    e !in processed && Carried(cat, rows, e)
  }

  ghost predicate Carried(cat: Catalog, rows: seq<Row>, e: string) {
    exists r :: r in rows && Deliverable(cat, r) && EventIs(r, e)
  }

  /** An event that needs its handler gets it at the first row, or still needs it after that row. */
  lemma NeedsFirst(cat: Catalog, before: set<string>, after: set<string>, rows: seq<Row>, e: string)
    requires rows != [] && (e in after <==> e in before || Runs(cat, before, rows[0], e))
    ensures (if NeedsHandler(cat, before, rows, e) then 1 else 0)
      == (if Runs(cat, before, rows[0], e) then 1 else 0) + (if NeedsHandler(cat, after, rows[1..], e) then 1 else 0)
  {
    if Carried(cat, rows, e) {
      var r :| r in rows && Deliverable(cat, r) && EventIs(r, e);
      assert r == rows[0] || r in rows[1..];
    }
    if Carried(cat, rows[1..], e) {
      var r :| r in rows[1..] && Deliverable(cat, r) && EventIs(r, e);
      assert r in rows;
    }
    assert rows[0] in rows;
  }

  /** A tick relays exactly the rows that are not parked, and counts every row. */
  lemma {:induction false} RelayAllMarks(cat: Catalog, s: State, rows: seq<Row>)
    ensures var t := RelayAll(cat, s, rows);
            && t.relayed == s.relayed + Ids(NotParked(cat, rows))
            && t.c.published == s.c.published + |NotParked(cat, rows)|
            && t.c.published + t.c.parked == s.c.published + s.c.parked + |rows|
    decreases rows
  {
    if rows != [] {
      var row := rows[0];
      RelayAllMarks(cat, RelayRow(cat, s, row), rows[1..]);
      assert Ids(NotParked(cat, rows)) == (if Parked(cat, row) then {} else {row.id}) + Ids(NotParked(cat, rows[1..]));
    }
  }

  /** The row's handler is called for the event. */
  ghost predicate Runs(cat: Catalog, processed: set<string>, row: Row, e: string) {
    e !in processed && Deliverable(cat, row) && EventIs(row, e)
  }

  lemma RelayRowRuns(cat: Catalog, s: State, row: Row, e: string)
    ensures var u := RelayRow(cat, s, row);
            && Count(u.done, e) == Count(s.done, e) + (if Runs(cat, s.processed, row, e) then 1 else 0)
            && (e in u.processed <==> e in s.processed || Runs(cat, s.processed, row, e))
  {
    VerdictMeans(cat, row);
    CountAppend(s.done, row, e);
  }

  /** The ids of the rows whose version is not a future one. */
  ghost predicate MarksId(cat: Catalog, rows: seq<Row>, id: string) {
    exists r :: r in rows && r.id == id && NotFuture(cat, r)
  }

  ghost function CountFuture(cat: Catalog, rows: seq<Row>): nat {
    if rows == [] then 0 else (if NotFuture(cat, rows[0]) then 0 else 1) + CountFuture(cat, rows[1..])
  }

  ghost function CountStrange(cat: Catalog, rows: seq<Row>): nat {
    if rows == [] then 0 else (if Recognized(cat, rows[0]) then 0 else 1) + CountStrange(cat, rows[1..])
  }

  /** What a tick marks and counts, in the rows' own terms. */
  ghost predicate Accounts(cat: Catalog, before: State, after: State, rows: seq<Row>) {
    && (forall id :: id in after.relayed <==> id in before.relayed || MarksId(cat, rows, id))
    && after.c.parked == before.c.parked + CountFuture(cat, rows)
    && after.c.published + after.c.parked == before.c.published + before.c.parked + |rows|
    && after.c.skipped == before.c.skipped + CountStrange(cat, rows)
  }

  lemma RowAccounts(cat: Catalog, s: State, row: Row)
    ensures Accounts(cat, s, RelayRow(cat, s, row), [row])
  {
    VerdictMeans(cat, row);
    assert [row][1..] == [];
    forall id ensures MarksId(cat, [row], id) <==> row.id == id && NotFuture(cat, row) {
      assert row in [row];
    }
  }

  lemma MarksFirst(cat: Catalog, rows: seq<Row>, id: string)
    requires rows != []
    ensures MarksId(cat, rows, id) <==> MarksId(cat, [rows[0]], id) || MarksId(cat, rows[1..], id)
  {
    assert rows == [rows[0]] + rows[1..];
    if MarksId(cat, rows, id) {
      var r :| r in rows && r.id == id && NotFuture(cat, r);
      assert r in [rows[0]] || r in rows[1..];
    }
  }

  /** A tick marks exactly the rows that are not of a future version, and counts the others as parked. */
  lemma {:induction false} RelayAllAccounts(cat: Catalog, s: State, rows: seq<Row>)
    ensures Accounts(cat, s, RelayAll(cat, s, rows), rows)
    decreases rows
  {
    if rows != [] {
      RowAccounts(cat, s, rows[0]);
      RelayAllAccounts(cat, RelayRow(cat, s, rows[0]), rows[1..]);
      forall id { MarksFirst(cat, rows, id); }
      CountsFirst(cat, rows);
    }
  }

  lemma CountsFirst(cat: Catalog, rows: seq<Row>)
    requires rows != []
    ensures CountFuture(cat, rows) == CountFuture(cat, [rows[0]]) + CountFuture(cat, rows[1..])
    ensures CountStrange(cat, rows) == CountStrange(cat, [rows[0]]) + CountStrange(cat, rows[1..])
  {
    assert [rows[0]][1..] == [];
  }

  /** A tick runs a handler once for each event that needs it, however many of the rows carry the event. */
  lemma {:induction false} RelayAllRuns(cat: Catalog, s: State, rows: seq<Row>, e: string)
    ensures Count(RelayAll(cat, s, rows).done, e)
         == Count(s.done, e) + (if NeedsHandler(cat, s.processed, rows, e) then 1 else 0)
    decreases rows
  {
    if rows != [] {
      var u := RelayRow(cat, s, rows[0]);
      RelayRowRuns(cat, s, rows[0], e);
      RelayAllRuns(cat, u, rows[1..], e);
      NeedsFirst(cat, s.processed, u.processed, rows, e);
    }
  }

  class OutboxRelayService {
    const cat: Catalog
    var relayed: set<string>
    var processed: set<string>
    var done: seq<Row>

    constructor (cat: Catalog)
      ensures this.cat == cat && relayed == {} && processed == {} && done == []
    {
      this.cat := cat;
      relayed, processed, done := {}, {}, [];
    }

    ghost function View(c: Counters): State
      reads this
    {
      State(relayed, processed, done, c)
    }

    method RunOnce(row: Row) returns (applied: bool)
      modifies this`processed, this`done
      ensures applied <==> EventId(row) !in old(processed)
      ensures forall c :: View(c) == Consumed(old(View(c)), row)
    {
      if EventId(row) in processed {
        return false;
      }
      done := done + [row];
      processed := processed + {EventId(row)};
      applied := true;
    }

    method ExecuteTick(rows: seq<Row>) returns (c: Counters)
      modifies this`relayed, this`processed, this`done
      ensures View(c) == RelayAll(cat, old(View(Counters(0, 0, 0))), rows)
      ensures c.published + c.parked == |rows|
      ensures Accounts(cat, old(View(Counters(0, 0, 0))), View(c), rows)
      ensures forall e ::
        Count(done, e) - Count(old(done), e) == if NeedsHandler(cat, old(processed), rows, e) then 1 else 0
    {
      c := Counters(0, 0, 0);
      ghost var start := View(c);
      for i := 0 to |rows|
        invariant RelayAll(cat, View(c), rows[i..]) == RelayAll(cat, start, rows)
      {
        var row := rows[i];
        assert rows[i..][1..] == rows[i + 1..];
        var verdict := Classify(cat, row);
        if verdict == FutureVersion {
          c := c.(skipped := c.skipped + 1, parked := c.parked + 1);
        } else {
          if verdict == HasHandler {
            var applied := RunOnce(row);
          }
          if verdict == InvalidPayload || verdict == UnknownType {
            c := c.(skipped := c.skipped + 1);
          }
          relayed := relayed + {row.id};
          c := c.(published := c.published + 1);
        }
      }
      RelayAllMarks(cat, start, rows);
      RelayAllAccounts(cat, start, rows);
      forall e { RelayAllRuns(cat, start, rows, e); }
    }
  }

  // ----- whole histories, with faults -----

  /** A tick under way: the rows it listed, how many are finished, and its counters. */
  datatype Tick = Tick(rows: seq<Row>, next: nat, c: Counters)

  datatype Pc =
    | Idle
    | AtRow(tick: Tick)
    | Dispatch(tick: Tick)
    | Handling(tick: Tick)
    | SetKey(tick: Tick)
    | Publish(tick: Tick)
    | Mark(tick: Tick)

  datatype World = World(
    table: seq<Row>,
    relayed: set<string>,
    processed: set<string>,
    started: seq<Row>,
    done: seq<Row>,
    interrupted: seq<Row>,
    ticks: seq<Tick>,
    pc: Pc
  )

  datatype Action =
    | Insert(row: Row, at: nat)
    | Claim(batchSize: nat)
    | Next
    | Fault

  function NotIn(relayed: set<string>): Row -> bool { (r: Row) => r.id !in relayed }

  /** listUnrelayedOrdered */
  function Unrelayed(w: World, limit: nat): seq<Row> {
    var rows := Filter(w.table, NotIn(w.relayed));
    if |rows| <= limit then rows else rows[..limit]
  }

  function Advance(t: Tick, c: Counters): Pc { AtRow(t.(next := t.next + 1, c := c)) }

  function Dispatched(cat: Catalog, w: World, t: Tick): World
    requires t.next < |t.rows|
  {
    var row := t.rows[t.next];
    match Classify(cat, row)
    case FutureVersion => w.(pc := Advance(t, t.c.(skipped := t.c.skipped + 1, parked := t.c.parked + 1)))
    case UnknownType => w.(pc := Publish(t.(c := t.c.(skipped := t.c.skipped + 1))))
    case InvalidPayload => w.(pc := Publish(t.(c := t.c.(skipped := t.c.skipped + 1))))
    case NoHandler => w.(pc := Publish(t))
    case HasHandler =>
      if EventId(row) in w.processed then w.(pc := Publish(t))
      else w.(pc := Handling(t), started := w.started + [row])
  }

  /** The relay's next effect. */
  function Go(cat: Catalog, w: World): World {
    match w.pc
    case Idle => w
    case AtRow(t) =>
      if t.next >= |t.rows| then w.(pc := Idle, ticks := w.ticks + [t]) else w.(pc := Dispatch(t))
    case Dispatch(t) =>
      if t.next >= |t.rows| then w.(pc := Idle) else Dispatched(cat, w, t)
    case Handling(t) =>
      if t.next >= |t.rows| then w.(pc := Idle) else w.(pc := SetKey(t), done := w.done + [t.rows[t.next]])
    case SetKey(t) =>
      if t.next >= |t.rows| then w.(pc := Idle)
      else w.(pc := Publish(t), processed := w.processed + {EventId(t.rows[t.next])})
    case Publish(t) => w.(pc := Mark(t))
    case Mark(t) =>
      if t.next >= |t.rows| then w.(pc := Idle)
      else w.(pc := Advance(t, t.c.(published := t.c.published + 1)), relayed := w.relayed + {t.rows[t.next].id})
  }

  /** The row whose handler has been started and whose key is not set yet. */
  function InFlight(w: World): seq<Row> {
    if (w.pc.Handling? || w.pc.SetKey?) && w.pc.tick.next < |w.pc.tick.rows|
    then [w.pc.tick.rows[w.pc.tick.next]] else []
  }

  function Act(cat: Catalog, w: World, a: Action): World {
    match a
    case Insert(row, at) =>
      if at <= |w.table| && forall r | r in w.table :: r.id != row.id
      then w.(table := w.table[..at] + [row] + w.table[at..]) else w
    case Claim(batchSize) =>
      if w.pc.Idle? then w.(pc := AtRow(Tick(Unrelayed(w, batchSize), 0, Counters(0, 0, 0)))) else w
    case Next => Go(cat, w)
    case Fault => w.(pc := Idle, interrupted := w.interrupted + InFlight(w))
  }

  function Run(cat: Catalog, actions: seq<Action>): World {
    if actions == [] then World([], {}, {}, [], [], [], [], Idle)
    else Act(cat, Run(cat, actions[..|actions| - 1]), actions[|actions| - 1])
  }

  // ----- handlers run once, plus once for each interruption -----

  /** One while the event's handler is running or its key is still to be set. */
  function Flying(w: World, e: string): nat {
    if InFlight(w) != [] && EventId(InFlight(w)[0]) == e then 1 else 0
  }

  ghost predicate Conserved(w: World, e: string) {
    && Count(w.started, e) == Count(w.interrupted, e) + Flying(w, e) + (if e in w.processed then 1 else 0)
    && (e in w.processed ==> Flying(w, e) == 0)
  }

  /** A step that starts, ends and interrupts no handler keeps the count. */
  lemma QuietConserves(w: World, v: World, e: string)
    requires Conserved(w, e) && InFlight(w) == InFlight(v)
    requires v.started == w.started && v.interrupted == w.interrupted && v.processed == w.processed
    ensures Conserved(v, e)
  {
  }

  lemma StartConserves(w: World, t: Tick, e: string)
    requires Conserved(w, e) && InFlight(w) == [] && t.next < |t.rows| && EventId(t.rows[t.next]) !in w.processed
    ensures Conserved(w.(pc := Handling(t), started := w.started + [t.rows[t.next]]), e)
  {
    CountAppend(w.started, t.rows[t.next], e);
  }

  lemma DispatchConserves(cat: Catalog, w: World, e: string)
    requires w.pc.Dispatch? && w.pc.tick.next < |w.pc.tick.rows| && Conserved(w, e)
    ensures Conserved(Dispatched(cat, w, w.pc.tick), e)
  {
    var t := w.pc.tick;
    if StartsHandler(cat, w, t) {
      StartConserves(w, t, e);
    } else {
      DispatchedQuietly(cat, w, t);
      QuietConserves(w, Dispatched(cat, w, t), e);
    }
  }

  predicate StartsHandler(cat: Catalog, w: World, t: Tick)
    requires t.next < |t.rows|
  {
    Classify(cat, t.rows[t.next]) == HasHandler && EventId(t.rows[t.next]) !in w.processed
  }

  lemma DispatchedQuietly(cat: Catalog, w: World, t: Tick)
    requires t.next < |t.rows| && !StartsHandler(cat, w, t)
    ensures var v := Dispatched(cat, w, t);
      && InFlight(v) == []
      && v.started == w.started && v.interrupted == w.interrupted && v.processed == w.processed
  {
  }

  lemma KeySetConserves(w: World, t: Tick, e: string)
    requires Conserved(w, e) && w.pc == SetKey(t) && t.next < |t.rows|
    ensures Conserved(w.(pc := Publish(t), processed := w.processed + {EventId(t.rows[t.next])}), e)
  {
  }

  lemma GoConserves(cat: Catalog, w: World, e: string)
    requires Conserved(w, e)
    ensures Conserved(Go(cat, w), e)
  {
    if w.pc.Dispatch? && w.pc.tick.next < |w.pc.tick.rows| {
      DispatchConserves(cat, w, e);
    } else if w.pc.SetKey? && w.pc.tick.next < |w.pc.tick.rows| {
      KeySetConserves(w, w.pc.tick, e);
    } else {
      GoQuietly(cat, w);
      QuietConserves(w, Go(cat, w), e);
    }
  }

  /** Only the dispatch and the key of a row start or end a handler. */
  lemma GoQuietly(cat: Catalog, w: World)
    requires (w.pc.Dispatch? || w.pc.SetKey?) ==> w.pc.tick.next >= |w.pc.tick.rows|
    ensures var v := Go(cat, w);
      && InFlight(v) == InFlight(w)
      && v.started == w.started && v.interrupted == w.interrupted && v.processed == w.processed
  {
  }

  lemma FaultConserves(w: World, e: string)
    requires Conserved(w, e)
    ensures Conserved(w.(pc := Idle, interrupted := w.interrupted + InFlight(w)), e)
  {
    if InFlight(w) == [] {
      assert w.interrupted + [] == w.interrupted;
    } else {
      var row := InFlight(w)[0];
      assert InFlight(w) == [row];
      CountAppend(w.interrupted, row, e);
    }
  }

  lemma ActConserves(cat: Catalog, w: World, a: Action, e: string)
    requires Conserved(w, e)
    ensures Conserved(Act(cat, w, a), e)
  {
    match a
    case Fault => FaultConserves(w, e);
    case Next => GoConserves(cat, w, e);
    case _ => QuietConserves(w, Act(cat, w, a), e);
  }

  /**
   For every event, in every history: the starts of its handler are the interruptions
   it suffered between start and key, one more if its key is set, and one more while
   it is running. So a handler runs at most once more than it was interrupted.
   */
  lemma {:induction false} HandlerRuns(cat: Catalog, actions: seq<Action>, e: string)
    ensures Conserved(Run(cat, actions), e)
    ensures var w := Run(cat, actions); Count(w.started, e) <= Count(w.interrupted, e) + 1
  {
    if actions != [] {
      HandlerRuns(cat, actions[..|actions| - 1], e);
      ActConserves(cat, Run(cat, actions[..|actions| - 1]), actions[|actions| - 1], e);
    }
  }

  // ----- what a mark means -----

  ghost predicate HandlerDone(w: World, e: string) {
    exists d :: d in w.done && EventId(d) == e
  }

  /** A row may be marked: it is not parked, and if it has a handler, the handler ran for its event. */
  ghost predicate Settled(cat: Catalog, w: World, row: Row) {
    !Parked(cat, row) && (Classify(cat, row) == HasHandler ==> HandlerDone(w, EventId(row)))
  }

  ghost predicate TickOk(cat: Catalog, w: World, t: Tick) {
    && t.next <= |t.rows|
    && t.c.published + t.c.parked == t.next
    && (forall i :: 0 <= i < t.next ==> Parked(cat, t.rows[i]) || t.rows[i].id in w.relayed)
    && (forall i :: 0 <= i < |t.rows| ==> t.rows[i] in w.table)
  }

  ghost predicate DistinctIds(rows: seq<Row>) {
    forall i, j :: 0 <= i < j < |rows| ==> rows[i].id != rows[j].id
  }

  /** The marks are of settled rows of the table. */
  ghost predicate MarksOk(cat: Catalog, w: World) {
    && DistinctIds(w.table)
    && (forall e :: e in w.processed ==> HandlerDone(w, e))
    && (forall d :: d in w.done ==> d in w.table)
    && (forall r :: r in w.table && r.id in w.relayed ==> Settled(cat, w, r))
    && (forall id :: id in w.relayed ==> exists r :: r in w.table && r.id == id)
  }

  /** The tick under way is at a sensible point. */
  ghost predicate PcOk(cat: Catalog, w: World) {
    w.pc.Idle? ||
    (var t := w.pc.tick;
     && TickOk(cat, w, t)
     && (!w.pc.AtRow? ==> t.next < |t.rows|)
     && (w.pc.Handling? || w.pc.SetKey? ==> Classify(cat, t.rows[t.next]) == HasHandler)
     && (w.pc.SetKey? ==> HandlerDone(w, EventId(t.rows[t.next])))
     && (w.pc.Publish? || w.pc.Mark? ==> Settled(cat, w, t.rows[t.next])))
  }

  ghost predicate TicksOk(cat: Catalog, w: World) {
    forall t :: t in w.ticks ==> TickOk(cat, w, t) && t.next == |t.rows|
  }

  ghost predicate Inv(cat: Catalog, w: World) {
    MarksOk(cat, w) && PcOk(cat, w) && TicksOk(cat, w)
  }

  /** Nothing that was established is lost. */
  ghost predicate Grows(w: World, w': World) {
    && w.relayed <= w'.relayed && w.done <= w'.done
    && (forall r :: r in w.table ==> r in w'.table)
  }

  lemma ActGrows(cat: Catalog, w: World, a: Action)
    ensures Grows(w, Act(cat, w, a))
  {
    if a.Insert? && a.at <= |w.table| {
      assert w.table == w.table[..a.at] + w.table[a.at..];
    }
  }

  lemma Kept(cat: Catalog, w: World, w': World)
    requires Grows(w, w')
    ensures forall e :: HandlerDone(w, e) ==> HandlerDone(w', e)
    ensures forall r :: Settled(cat, w, r) ==> Settled(cat, w', r)
    ensures forall t :: TickOk(cat, w, t) ==> TickOk(cat, w', t)
  {
    forall e | HandlerDone(w, e) ensures HandlerDone(w', e) {
      var d :| d in w.done && EventId(d) == e;
      assert d in w'.done;
    }
  }

  lemma InsertKeeps(cat: Catalog, w: World, row: Row, at: nat)
    requires MarksOk(cat, w)
    ensures MarksOk(cat, Act(cat, w, Insert(row, at)))
  {
    var w' := Act(cat, w, Insert(row, at));
    if w' != w {
      ActGrows(cat, w, Insert(row, at));
      Kept(cat, w, w');
      forall r | r in w'.table ensures r == row || r in w.table { }
      assert row.id !in w.relayed;
      forall id | id in w'.relayed ensures exists r :: r in w'.table && r.id == id {
        var r :| r in w.table && r.id == id;
      }
    }
  }

  lemma DispatchKeepsTick(cat: Catalog, w: World, t: Tick)
    requires TickOk(cat, w, t) && t.next < |t.rows|
    ensures !Dispatched(cat, w, t).pc.Idle? && TickOk(cat, Dispatched(cat, w, t), Dispatched(cat, w, t).pc.tick)
  {
  }

  /** A row is only passed on to be published when it is settled. */
  lemma DispatchSettles(cat: Catalog, w: World, t: Tick)
    requires MarksOk(cat, w) && t.next < |t.rows|
    ensures Dispatched(cat, w, t).pc.Publish? ==> Settled(cat, Dispatched(cat, w, t), t.rows[t.next])
  {
    if EventId(t.rows[t.next]) in w.processed {
      assert HandlerDone(w, EventId(t.rows[t.next]));
    }
  }

  lemma DispatchKeepsPc(cat: Catalog, w: World)
    requires w.pc.Dispatch? && MarksOk(cat, w) && PcOk(cat, w)
    ensures PcOk(cat, Dispatched(cat, w, w.pc.tick))
  {
    DispatchKeepsTick(cat, w, w.pc.tick);
    DispatchSettles(cat, w, w.pc.tick);
  }

  lemma GoKeepsPc(cat: Catalog, w: World)
    requires Inv(cat, w)
    ensures PcOk(cat, Go(cat, w)) && TicksOk(cat, Go(cat, w))
  {
    var w' := Go(cat, w);
    ActGrows(cat, w, Next);
    Kept(cat, w, w');
    match w.pc
    case Handling(t) =>
      assert w'.done[|w.done|] == t.rows[t.next];
      assert t.rows[t.next] in w'.done;
    case Dispatch(t) => DispatchKeepsPc(cat, w);
    case _ =>
  }

  lemma GoKeepsMarks(cat: Catalog, w: World)
    requires Inv(cat, w)
    ensures MarksOk(cat, Go(cat, w))
  {
    var w' := Go(cat, w);
    ActGrows(cat, w, Next);
    Kept(cat, w, w');
    match w.pc
    case Mark(t) => MarkKeepsMarks(cat, w, t);
    case SetKey(t) => KeySetKeepsMarks(cat, w, t);
    case Handling(t) => HandledKeepsMarks(cat, w, t);
    case _ =>
  }

  lemma MarkKeepsMarks(cat: Catalog, w: World, t: Tick)
    requires MarksOk(cat, w) && PcOk(cat, w) && w.pc == Mark(t)
    ensures MarksOk(cat, Go(cat, w))
  {
    var w' := Go(cat, w);
    var row := t.rows[t.next];
    Kept(cat, w, w');
    assert row in w.table;
    forall r | r in w'.table && r.id in w'.relayed ensures Settled(cat, w', r) {
      if r.id == row.id {
        SameIdSameRow(w.table, r, row);
      }
    }
  }

  lemma KeySetKeepsMarks(cat: Catalog, w: World, t: Tick)
    requires MarksOk(cat, w) && PcOk(cat, w) && w.pc == SetKey(t)
    ensures MarksOk(cat, Go(cat, w))
  {
    Kept(cat, w, Go(cat, w));
  }

  lemma HandledKeepsMarks(cat: Catalog, w: World, t: Tick)
    requires MarksOk(cat, w) && PcOk(cat, w) && w.pc == Handling(t)
    ensures MarksOk(cat, Go(cat, w))
  {
    Kept(cat, w, Go(cat, w));
  }

  lemma SameIdSameRow(rows: seq<Row>, a: Row, b: Row)
    requires DistinctIds(rows) && a in rows && b in rows && a.id == b.id
    ensures a == b
  {
    var i :| 0 <= i < |rows| && rows[i] == a;
    var j :| 0 <= j < |rows| && rows[j] == b;
  }

  lemma ActKeepsInv(cat: Catalog, w: World, a: Action)
    requires Inv(cat, w)
    ensures Inv(cat, Act(cat, w, a))
  {
    ActGrows(cat, w, a);
    Kept(cat, w, Act(cat, w, a));
    match a
    case Insert(row, at) => InsertKeeps(cat, w, row, at);
    case Claim(batchSize) =>
      assert forall r :: r in Unrelayed(w, batchSize) ==> r in w.table;
    case Next =>
      GoKeepsPc(cat, w);
      GoKeepsMarks(cat, w);
    case Fault =>
  }

  lemma {:induction false} InvHolds(cat: Catalog, actions: seq<Action>)
    ensures Inv(cat, Run(cat, actions))
  {
    if actions != [] {
      InvHolds(cat, actions[..|actions| - 1]);
      ActKeepsInv(cat, Run(cat, actions[..|actions| - 1]), actions[|actions| - 1]);
    }
  }

  /** Two rows carry the same event. */
  ghost predicate SameEvent(a: Row, b: Row) {
    exists e :: EventIs(a, e) && EventIs(b, e)
  }

  lemma SameEventIff(a: Row, b: Row)
    ensures SameEvent(a, b) <==> EventId(a) == EventId(b)
  {
    assert EventIs(a, EventId(a)) && EventIs(b, EventId(b));
  }

  /**
   In every history, a relayed row is never one of an unknown future version, and if it can be
   delivered, a handler ran to its end for its event.
   */
  lemma RelayedMeansSettled(cat: Catalog, actions: seq<Action>, row: Row)
    requires row in Run(cat, actions).table && row.id in Run(cat, actions).relayed
    ensures NotFuture(cat, row)
    ensures Deliverable(cat, row) ==> exists d :: d in Run(cat, actions).done && SameEvent(d, row)
  {
    InvHolds(cat, actions);
    VerdictMeans(cat, row);
    if Deliverable(cat, row) {
      var d :| d in Run(cat, actions).done && EventId(d) == EventId(row);
      SameEventIff(d, row);
    }
  }

  /** When no two rows carry the same event, the handler that ran is the row's own. */
  lemma RelayedOwnHandlerRan(cat: Catalog, actions: seq<Action>, row: Row)
    requires row in Run(cat, actions).table && row.id in Run(cat, actions).relayed && Deliverable(cat, row)
    requires forall r :: r in Run(cat, actions).table && SameEvent(r, row) ==> r == row
    ensures row in Run(cat, actions).done
  {
    InvHolds(cat, actions);
    RelayedMeansSettled(cat, actions, row);
  }

  /** A completed tick published every row it listed, and relayed those that are not of a future version. */
  lemma TickAccountsForRows(cat: Catalog, actions: seq<Action>, t: Tick)
    requires t in Run(cat, actions).ticks
    ensures t.c.published + t.c.parked == |t.rows|
    ensures forall r :: r in t.rows && NotFuture(cat, r) ==> r.id in Run(cat, actions).relayed
  {
    InvHolds(cat, actions);
    assert TickOk(cat, Run(cat, actions), t);
    forall r | r in t.rows { VerdictMeans(cat, r); }
  }

  /** Rows of a future version stay unrelayed, so a batch of nothing else is listed again unchanged. */
  lemma ParkedBatchRepeats(cat: Catalog, actions: seq<Action>, limit: nat)
    requires forall r :: r in Unrelayed(Run(cat, actions), limit) ==> !NotFuture(cat, r)
    requires Run(cat, actions).pc.Idle?
    ensures var w := Run(cat, actions);
            var w' := Finish(cat, Act(cat, w, Claim(limit)));
            w'.pc.Idle? && w'.relayed == w.relayed && Unrelayed(w', limit) == Unrelayed(w, limit)
  {
    var w := Run(cat, actions);
    forall r | r in Unrelayed(w, limit) { VerdictMeans(cat, r); }
    FinishParked(cat, Act(cat, w, Claim(limit)));
  }

  // ----- which rows a tick lists -----

  /** The rows of the tick under way still to come are unrelayed, and no two of them share an id. */
  ghost predicate StillNew(w: World) {
    w.pc.Idle? ||
    (&& DistinctIds(w.pc.tick.rows)
     && forall i :: w.pc.tick.next <= i < |w.pc.tick.rows| ==> w.pc.tick.rows[i].id !in w.relayed)
  }

  lemma {:induction false} FilterKeepsDistinct(rows: seq<Row>, p: Row -> bool)
    requires DistinctIds(rows)
    ensures DistinctIds(Filter(rows, p))
  {
    if rows != [] {
      FilterKeepsDistinct(rows[1..], p);
      assert forall r :: r in rows[1..] ==> r.id != rows[0].id;
    }
  }

  lemma ActKeepsNew(cat: Catalog, w: World, a: Action)
    requires Inv(cat, w) && StillNew(w)
    ensures StillNew(Act(cat, w, a))
  {
    if a.Claim? && w.pc.Idle? {
      FilterKeepsDistinct(w.table, NotIn(w.relayed));
      ClaimNew(w, a.batchSize);
    }
  }

  lemma ClaimNew(w: World, limit: nat)
    requires DistinctIds(Filter(w.table, NotIn(w.relayed)))
    ensures DistinctIds(Unrelayed(w, limit))
    ensures forall i :: 0 <= i < |Unrelayed(w, limit)| ==> Unrelayed(w, limit)[i].id !in w.relayed
  {
    var rows := Filter(w.table, NotIn(w.relayed));
    assert forall i :: 0 <= i < |rows| ==> rows[i] in rows;
  }

  lemma {:induction false} NewHolds(cat: Catalog, actions: seq<Action>)
    ensures StillNew(Run(cat, actions))
  {
    if actions != [] {
      var before := actions[..|actions| - 1];
      NewHolds(cat, before);
      InvHolds(cat, before);
      ActKeepsNew(cat, Run(cat, before), actions[|actions| - 1]);
    }
  }

  /** In every history a row is marked at most once: when its mark is written, it is not marked yet. */
  lemma MarkedOnce(cat: Catalog, actions: seq<Action>)
    requires Run(cat, actions).pc.Mark?
    ensures var t := Run(cat, actions).pc.tick;
      t.next < |t.rows| && t.rows[t.next].id !in Run(cat, actions).relayed
  {
    NewHolds(cat, actions);
    InvHolds(cat, actions);
  }

  /** Increasing positions in the table. */
  ghost predicate Positions(at: seq<nat>, n: nat) {
    (forall i :: 0 <= i < |at| ==> at[i] < n) && forall i, j :: 0 <= i < j < |at| ==> at[i] < at[j]
  }

  /** The rows stand in the table at these positions, which are all those of unrelayed rows. */
  ghost predicate AllUnrelayedAt(w: World, n: nat, rows: seq<Row>, at: seq<nat>)
    requires n <= |w.table|
  {
    && Positions(at, n) && |at| == |rows|
    && (forall i :: 0 <= i < |at| ==> w.table[at[i]] == rows[i])
    && forall p: nat :: p < n ==> (p in at <==> w.table[p].id !in w.relayed)
  }

  lemma {:induction false} UnrelayedPositions(w: World, n: nat) returns (at: seq<nat>)
    requires n <= |w.table|
    ensures AllUnrelayedAt(w, n, Filter(w.table[..n], NotIn(w.relayed)), at)
  {
    if n == 0 {
      at := [];
    } else {
      at := UnrelayedPositions(w, n - 1);
      UnrelayedNext(w, n - 1);
      OnePosition(w, n - 1, Filter(w.table[..n - 1], NotIn(w.relayed)), at);
      if w.table[n - 1].id !in w.relayed { at := at + [n - 1]; }
    }
  }

  lemma UnrelayedNext(w: World, n: nat)
    requires n < |w.table|
    ensures Filter(w.table[..n + 1], NotIn(w.relayed))
         == Filter(w.table[..n], NotIn(w.relayed)) + if w.table[n].id !in w.relayed then [w.table[n]] else []
  {
    TakeOneMore(w.table, n);
    FilterAppend(w.table[..n], [w.table[n]], NotIn(w.relayed));
    assert [w.table[n]][1..] == [];
  }

  lemma OnePosition(w: World, n: nat, rows: seq<Row>, at: seq<nat>)
    requires n < |w.table| && AllUnrelayedAt(w, n, rows, at)
    ensures if w.table[n].id in w.relayed then AllUnrelayedAt(w, n + 1, rows, at)
      else AllUnrelayedAt(w, n + 1, rows + [w.table[n]], at + [n])
  {
    assert forall i :: 0 <= i < |at| ==> at[i] in at;
    assert forall p :: p in at + [n] <==> p in at || p == n;
  }

  /**
   A tick lists unrelayed rows in the order of the table, at most as many as the batch has room
   for, and leaves out an unrelayed row only for want of room and after all those it lists.
   */
  lemma ListsFirstUnrelayed(w: World, limit: nat) returns (at: seq<nat>)
    ensures var rows := Unrelayed(w, limit);
      && |rows| <= limit && |at| == |rows| && Positions(at, |w.table|)
      && (forall i :: 0 <= i < |at| ==> w.table[at[i]] == rows[i] && rows[i].id !in w.relayed)
      && forall p: nat :: p < |w.table| && w.table[p].id !in w.relayed && p !in at ==>
           |rows| == limit && forall i :: 0 <= i < |at| ==> at[i] < p
  {
    var all := UnrelayedPositions(w, |w.table|);
    TakeAll(w.table);
    at := if |all| <= limit then all else all[..limit];
    forall p: nat | p in all && p !in at { LaterPosition(all, |w.table|, limit, p); }
    assert forall i :: 0 <= i < |at| ==> all[i] in all && at[i] == all[i];
  }

  lemma LaterPosition(all: seq<nat>, n: nat, limit: nat, p: nat)
    requires Positions(all, n) && p in all && |all| > limit && p !in all[..limit]
    ensures forall i :: 0 <= i < limit ==> all[i] < p
  {
    var k :| 0 <= k < |all| && all[k] == p;
    assert all == all[..limit] + all[limit..];
    assert p in all[limit..];
  }

  /** The relay runs until its tick is complete. */
  function Finish(cat: Catalog, w: World): World
    decreases Remaining(w)
  {
    if w.pc.Idle? then w else Finish(cat, Go(cat, w))
  }

  /** Effects left in the tick. */
  function Remaining(w: World): nat {
    if w.pc.Idle? then 0
    else
      var t := w.pc.tick;
      var rows := if t.next <= |t.rows| then |t.rows| - t.next else 0;
      6 * rows + match w.pc {
        case AtRow(_) => 7
        case Dispatch(_) => 6
        case Handling(_) => 5
        case SetKey(_) => 4
        case Publish(_) => 3
        case _ => 2
      }
  }

  /** The state the service methods see. */
  function StateOf(w: World, c: Counters): State {
    State(w.relayed, w.processed, w.done, c)
  }

  lemma FinishPublish(cat: Catalog, w: World) returns (v: World)
    requires w.pc.Publish? && w.pc.tick.next < |w.pc.tick.rows|
    ensures var t := w.pc.tick;
            && Finish(cat, w) == Finish(cat, v)
            && v == w.(pc := Advance(t, t.c.(published := t.c.published + 1)),
                       relayed := w.relayed + {t.rows[t.next].id})
  {
    var w1 := Go(cat, w);
    v := Go(cat, w1);
    assert Finish(cat, w) == Finish(cat, w1) == Finish(cat, v);
  }

  lemma FinishHandling(cat: Catalog, w: World) returns (v: World)
    requires w.pc.Handling? && w.pc.tick.next < |w.pc.tick.rows|
    ensures var t := w.pc.tick;
            && Finish(cat, w) == Finish(cat, v)
            && v == w.(pc := Publish(t), done := w.done + [t.rows[t.next]],
                       processed := w.processed + {EventId(t.rows[t.next])})
  {
    var w1 := Go(cat, w);
    v := Go(cat, w1);
    assert Finish(cat, w) == Finish(cat, w1) == Finish(cat, v);
  }

  lemma FinishDispatch(cat: Catalog, w: World) returns (v: World)
    requires w.pc.AtRow? && w.pc.tick.next < |w.pc.tick.rows|
    ensures Finish(cat, w) == Finish(cat, v) && v == Dispatched(cat, w, w.pc.tick)
  {
    var w1 := Go(cat, w);
    v := Go(cat, w1);
    assert Finish(cat, w) == Finish(cat, w1) == Finish(cat, v);
  }

  lemma FinishRow(cat: Catalog, w: World) returns (v: World)
    requires w.pc.AtRow? && w.pc.tick.next < |w.pc.tick.rows|
    ensures var t := w.pc.tick;
            && v.pc.AtRow? && v.pc.tick.rows == t.rows && v.pc.tick.next == t.next + 1
            && StateOf(v, v.pc.tick.c) == RelayRow(cat, StateOf(w, t.c), t.rows[t.next])
            && Finish(cat, w) == Finish(cat, v)
  {
    v := FinishDispatch(cat, w);
    if v.pc.Handling? {
      v := FinishHandling(cat, v);
    }
    if v.pc.Publish? {
      v := FinishPublish(cat, v);
    }
  }

  /** Without faults, the effects cut apart add up to the undisturbed tick. */
  lemma FinishIsRelayAll(cat: Catalog, w: World)
    requires w.pc.AtRow? && w.pc.tick.next <= |w.pc.tick.rows|
    ensures var t, w' := w.pc.tick, Finish(cat, w);
            && w'.pc.Idle? && |w'.ticks| > 0
            && StateOf(w', w'.ticks[|w'.ticks| - 1].c) == RelayAll(cat, StateOf(w, t.c), t.rows[t.next..])
    decreases |w.pc.tick.rows| - w.pc.tick.next
  {
    var t := w.pc.tick;
    if t.next < |t.rows| {
      var v := FinishRow(cat, w);
      FinishIsRelayAll(cat, v);
      assert t.rows[t.next..][1..] == t.rows[t.next + 1..];
    } else {
      assert Finish(cat, Go(cat, w)) == Go(cat, w);
    }
  }

  lemma FinishParked(cat: Catalog, w: World)
    requires w.pc.AtRow? || (w.pc.Dispatch? && w.pc.tick.next < |w.pc.tick.rows|)
    requires forall r :: r in w.pc.tick.rows ==> Parked(cat, r)
    ensures var w' := Finish(cat, w); w'.pc.Idle? && w'.relayed == w.relayed && w'.table == w.table
    decreases Remaining(w)
  {
    var w1 := Go(cat, w);
    if w.pc.Dispatch? {
      assert Parked(cat, w.pc.tick.rows[w.pc.tick.next]);
      FinishParked(cat, w1);
    } else if !w1.pc.Idle? {
      FinishParked(cat, w1);
    }
  }
}

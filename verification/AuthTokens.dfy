/** Single-use authentication tokens. */
module AuthTokens {
  import opened Common
  import opened OrderedMaps

  // Issuing a token spends the user's outstanding ones for the same purpose, consuming
  // spends the token itself. Every call is one transaction on the table.

  datatype Purpose = EmailVerification | PasswordReset

  datatype Token = Token(
    id: string,
    userId: string,
    purpose: Purpose,
    tokenHash: string,
    expiresAt: int,
    consumedAt: Option<int>)

  datatype Insert = Insert(id: string, userId: string, purpose: Purpose, tokenHash: string, expiresAt: int)

  datatype Outcome = Consumed(id: string, userId: string) | Expired | Rejected

  // ----- the table -----

  /** findUnique by tokenHash */
  function Find(rows: seq<Token>, hash: string): Option<Token> {
    if rows == [] then None else if rows[0].tokenHash == hash then Some(rows[0]) else Find(rows[1..], hash)
  }

  ghost predicate UniqueHashes(rows: seq<Token>) {
    forall i, j :: 0 <= i < j < |rows| ==> rows[i].tokenHash != rows[j].tokenHash
  }

  predicate Outstanding(row: Token, userId: string, purpose: Purpose) {
    row.userId == userId && row.purpose == purpose && row.consumedAt.None?
  }

  predicate Consumable(row: Token, hash: string, purpose: Purpose, now: int) {
    row.tokenHash == hash && row.purpose == purpose && row.consumedAt.None? && row.expiresAt > now
  }

  /** updateMany: stamps the rows that satisfy p. */
  function Stamped(rows: seq<Token>, p: Token -> bool, at: int): (r: seq<Token>)
    ensures |r| == |rows|
    ensures forall i :: 0 <= i < |rows| ==> r[i] == if p(rows[i]) then rows[i].(consumedAt := Some(at)) else rows[i]
  {
    Map(rows, (row: Token) => if p(row) then row.(consumedAt := Some(at)) else row)
  }

  function NewRow(record: Insert): Token {
    Token(record.id, record.userId, record.purpose, record.tokenHash, record.expiresAt, None)
  }

  /** Issuing fails, and is rolled back, when the hash is taken. */
  function Issued(rows: seq<Token>, record: Insert, now: int): seq<Token> {
    if Find(rows, record.tokenHash).Some? then rows
    else Stamped(rows, (row: Token) => Outstanding(row, record.userId, record.purpose), now) + [NewRow(record)]
  }

  function Spent(rows: seq<Token>, hash: string, purpose: Purpose, now: int): seq<Token> {
    Stamped(rows, (row: Token) => Consumable(row, hash, purpose, now), now)
  }

  function OutcomeOn(rows: seq<Token>, hash: string, purpose: Purpose, now: int): Outcome {
    var row := Find(rows, hash);
    if row.None? || row.value.purpose != purpose || row.value.consumedAt.Some? then Rejected
    else if row.value.expiresAt > now then Consumed(row.value.id, row.value.userId)
    else Expired
  }

  lemma {:induction false} FindStamped(rows: seq<Token>, p: Token -> bool, at: int, hash: string)
    ensures Find(Stamped(rows, p, at), hash)
      == var row := Find(rows, hash);
         if row.Some? && p(row.value) then Some(row.value.(consumedAt := Some(at))) else row
  {
    if rows != [] {
      FindStamped(rows[1..], p, at, hash);
      assert Stamped(rows, p, at)[1..] == Stamped(rows[1..], p, at);
    }
  }

  lemma {:induction false} FindAppend(rows: seq<Token>, row: Token, hash: string)
    ensures Find(rows + [row], hash)
      == if Find(rows, hash).Some? then Find(rows, hash) else if row.tokenHash == hash then Some(row) else None
  {
    if rows == [] {
      assert rows + [row] == [row];
    } else {
      assert (rows + [row])[0] == rows[0] && (rows + [row])[1..] == rows[1..] + [row];
      FindAppend(rows[1..], row, hash);
    }
  }

  lemma {:induction false} FindAt(rows: seq<Token>, i: nat)
    requires UniqueHashes(rows) && i < |rows|
    ensures Find(rows, rows[i].tokenHash) == Some(rows[i])
  {
    if i > 0 { FindAt(rows[1..], i - 1); }
  }

  lemma {:induction false} FindNone(rows: seq<Token>, hash: string)
    ensures Find(rows, hash).None? ==> forall i :: 0 <= i < |rows| ==> rows[i].tokenHash != hash
    ensures Find(rows, hash).Some? ==> Find(rows, hash).value in rows && Find(rows, hash).value.tokenHash == hash
  {
    if rows != [] { FindNone(rows[1..], hash); }
  }

  lemma {:induction false} CountConsumable(rows: seq<Token>, hash: string, purpose: Purpose, now: int)
    requires UniqueHashes(rows)
    ensures |Filter(rows, (row: Token) => Consumable(row, hash, purpose, now))|
      == if Find(rows, hash).Some? && Consumable(Find(rows, hash).value, hash, purpose, now) then 1 else 0
  {
    if rows != [] {
      CountConsumable(rows[1..], hash, purpose, now);
      FindNone(rows[1..], hash);
    }
  }

  // ----- the adapter -----

  class AuthTokenStore {
    var rows: seq<Token>

    /** Hashes are unique, and at most one token of a user and purpose is outstanding. */
    ghost predicate Valid()
      reads this
    {
      UniqueHashes(rows) && OneOutstanding(rows)
    }

    constructor ()
      ensures Valid() && rows == []
    {
      rows := [];
    }

    method ReplaceOutstanding(record: Insert, now: int) returns (ok: bool)
      requires Valid()
      modifies this
      ensures Valid()
      ensures ok <==> old(Find(rows, record.tokenHash)).None?
      ensures rows == Issued(old(rows), record, now)
    {
      IssuedValid(rows, record, now);
      if Find(rows, record.tokenHash).Some? {
        return false;
      }
      rows := Stamped(rows, (row: Token) => Outstanding(row, record.userId, record.purpose), now);
      rows := rows + [NewRow(record)];
      return true;
    }

    method ConsumeIfUnspent(hash: string, purpose: Purpose, now: int) returns (outcome: Outcome)
      requires Valid()
      modifies this
      ensures Valid()
      ensures rows == Spent(old(rows), hash, purpose, now)
      ensures outcome == OutcomeOn(old(rows), hash, purpose, now)
    {
      var p := (row: Token) => Consumable(row, hash, purpose, now);
      var count := |Filter(rows, p)|;
      CountConsumable(rows, hash, purpose, now);
      FindNone(rows, hash);
      FindStamped(rows, p, now, hash);
      SpentValid(rows, hash, purpose, now);
      rows := Stamped(rows, p, now);
      var found := Find(rows, hash);
      if count == 1 {
        if found.None? {
          return Rejected;
        }
        return Consumed(found.value.id, found.value.userId);
      }
      if found.Some? && found.value.purpose == purpose && found.value.consumedAt.None? && found.value.expiresAt <= now {
        return Expired;
      }
      return Rejected;
    }
  }

  ghost predicate OneOutstanding(rows: seq<Token>) {
    forall i, j :: 0 <= i < j < |rows| && rows[i].consumedAt.None? && rows[j].consumedAt.None? ==>
      rows[i].userId != rows[j].userId || rows[i].purpose != rows[j].purpose
  }

  lemma IssuedValid(rows: seq<Token>, record: Insert, now: int)
    requires UniqueHashes(rows) && OneOutstanding(rows)
    ensures UniqueHashes(Issued(rows, record, now)) && OneOutstanding(Issued(rows, record, now))
  {
    if Find(rows, record.tokenHash).None? {
      var p := (row: Token) => Outstanding(row, record.userId, record.purpose);
      FindNone(rows, record.tokenHash);
      StampedUnique(rows, p, now);
      StampedOne(rows, p, now);
      NewRowFits(Stamped(rows, p, now), record);
    }
  }

  lemma StampedUnique(rows: seq<Token>, p: Token -> bool, at: int)
    requires UniqueHashes(rows)
    ensures UniqueHashes(Stamped(rows, p, at))
  {
    var r := Stamped(rows, p, at);
    assert forall i :: 0 <= i < |r| ==> r[i].tokenHash == rows[i].tokenHash;
  }

  lemma StampedOne(rows: seq<Token>, p: Token -> bool, at: int)
    requires OneOutstanding(rows)
    ensures OneOutstanding(Stamped(rows, p, at))
  {
    var r := Stamped(rows, p, at);
    assert forall i :: 0 <= i < |r| && r[i].consumedAt.None? ==> r[i] == rows[i];
  }

  /** A new row fits when its hash is new and nothing is outstanding for its user and purpose. */
  lemma NewRowFits(rows: seq<Token>, record: Insert)
    requires UniqueHashes(rows) && OneOutstanding(rows)
    requires forall i :: 0 <= i < |rows| ==>
      rows[i].tokenHash != record.tokenHash && !Outstanding(rows[i], record.userId, record.purpose)
    ensures UniqueHashes(rows + [NewRow(record)]) && OneOutstanding(rows + [NewRow(record)])
  {
  }

  lemma SpentValid(rows: seq<Token>, hash: string, purpose: Purpose, now: int)
    requires UniqueHashes(rows) && OneOutstanding(rows)
    ensures UniqueHashes(Spent(rows, hash, purpose, now)) && OneOutstanding(Spent(rows, hash, purpose, now))
  {
    StampedUnique(rows, (row: Token) => Consumable(row, hash, purpose, now), now);
    StampedOne(rows, (row: Token) => Consumable(row, hash, purpose, now), now);
  }

  // ----- whole runs -----

  datatype Event =
    | Issue(record: Insert, at: int)
    | Consume(hash: string, purpose: Purpose, at: int)

  function Step(rows: seq<Token>, e: Event): seq<Token> {
    match e
    case Issue(record, at) => Issued(rows, record, at)
    case Consume(hash, purpose, at) => Spent(rows, hash, purpose, at)
  }

  function Run(events: seq<Event>): seq<Token> {
    if events == [] then [] else Step(Run(events[..|events| - 1]), events[|events| - 1])
  }

  /** The outcome of consuming after these events. */
  function OutcomeAfter(events: seq<Event>, hash: string, purpose: Purpose, now: int): Outcome {
    OutcomeOn(Run(events), hash, purpose, now)
  }

  /** The event at i issues a token whose hash is new. */
  ghost predicate Issues(events: seq<Event>, i: nat) {
    && i < |events|
    && events[i].Issue?
    && forall j :: 0 <= j < i && events[j].Issue? ==> events[j].record.tokenHash != events[i].record.tokenHash
  }

  /** A later token was issued to the same user for the same purpose. */
  ghost predicate Superseded(events: seq<Event>, i: nat)
    requires Issues(events, i)
  {
    exists j :: i < j < |events| && Issues(events, j)
      && events[j].record.userId == events[i].record.userId && events[j].record.purpose == events[i].record.purpose
  }

  /** The event at k consumed the token. */
  ghost predicate Consumes(events: seq<Event>, hash: string, k: nat) {
    && k < |events|
    && events[k].Consume?
    && events[k].hash == hash
    && OutcomeAfter(events[..k], hash, events[k].purpose, events[k].at).Consumed?
  }

  ghost predicate WasConsumed(events: seq<Event>, hash: string) {
    exists k :: 0 <= k < |events| && Consumes(events, hash, k)
  }

  /** The token issued at i is the latest for its user and purpose and was never consumed. */
  ghost predicate Live(events: seq<Event>, i: nat) {
    Issues(events, i) && !Superseded(events, i) && !WasConsumed(events, events[i].record.tokenHash)
  }

  lemma {:induction false} NoRow(events: seq<Event>, hash: string)
    requires forall j :: 0 <= j < |events| && events[j].Issue? ==> events[j].record.tokenHash != hash
    ensures Find(Run(events), hash).None?
  {
    if events != [] {
      var n := |events| - 1;
      NoRow(events[..n], hash);
      FindAfter(Run(events[..n]), events[n], hash);
    }
  }

  /** How one event changes the row of a hash. */
  function RowAfter(rows: seq<Token>, e: Event, hash: string): Option<Token> {
    var row := Find(rows, hash);
    match e
    case Issue(record, at) =>
      if Find(rows, record.tokenHash).Some? then row
      else if row.Some? then
        (if Outstanding(row.value, record.userId, record.purpose) then Some(row.value.(consumedAt := Some(at)))
         else row)
      else if record.tokenHash == hash then Some(NewRow(record))
      else None
    case Consume(h, purpose, at) =>
      if row.Some? && Consumable(row.value, h, purpose, at) then Some(row.value.(consumedAt := Some(at))) else row
  }

  lemma FindAfter(rows: seq<Token>, e: Event, hash: string)
    ensures Find(Step(rows, e), hash) == RowAfter(rows, e, hash)
  {
    match e
    case Issue(record, at) =>
      var p := (row: Token) => Outstanding(row, record.userId, record.purpose);
      FindStamped(rows, p, at, hash);
      FindAppend(Stamped(rows, p, at), NewRow(record), hash);
    case Consume(h, purpose, at) =>
      FindStamped(rows, (row: Token) => Consumable(row, h, purpose, at), at, hash);
  }

  lemma {:induction false} RowExists(events: seq<Event>, j: nat)
    requires j < |events| && events[j].Issue?
    ensures Find(Run(events), events[j].record.tokenHash).Some?
  {
    var n := |events| - 1;
    if j < n { RowExists(events[..n], j); }
    FindAfter(Run(events[..n]), events[n], events[j].record.tokenHash);
  }

  /** An issue succeeds exactly when its hash is new. */
  lemma IssuesIffNew(events: seq<Event>, n: nat)
    requires n < |events| && events[n].Issue?
    ensures Issues(events, n) <==> Find(Run(events[..n]), events[n].record.tokenHash).None?
  {
    var hash := events[n].record.tokenHash;
    if Issues(events, n) {
      NoRow(events[..n], hash);
    } else {
      var j :| 0 <= j < n && events[j].Issue? && events[j].record.tokenHash == hash;
      RowExists(events[..n], j);
    }
  }

  lemma NotConsumedBefore(events: seq<Event>, i: nat)
    requires Issues(events, i) && i == |events| - 1
    ensures !WasConsumed(events, events[i].record.tokenHash)
  {
    forall k | 0 <= k < |events| ensures !Consumes(events, events[i].record.tokenHash, k) {
      NoRow(events[..if k < i then k else i], events[i].record.tokenHash);
    }
  }

  ghost predicate SupersededBy(events: seq<Event>, i: nat, j: nat)
    requires Issues(events, i)
  {
    && Issues(events, j)
    && events[j].record.userId == events[i].record.userId
    && events[j].record.purpose == events[i].record.purpose
  }

  lemma SamePrefix(events: seq<Event>, hash: string, j: nat)
    requires j < |events| - 1
    ensures Issues(events, j) <==> Issues(events[..|events| - 1], j)
    ensures Consumes(events, hash, j) <==> Consumes(events[..|events| - 1], hash, j)
  {
    assert events[..|events| - 1][..j] == events[..j];
  }

  lemma LiveStep(events: seq<Event>, i: nat)
    requires i < |events| - 1 && Issues(events, i)
    ensures var n := |events| - 1;
      Live(events, i) <==>
        && Live(events[..n], i)
        && !SupersededBy(events, i, n)
        && !Consumes(events, events[i].record.tokenHash, n)
  {
    var n := |events| - 1;
    var hash := events[i].record.tokenHash;
    var init := events[..n];
    forall j: nat | j < n
      ensures Issues(events, j) <==> Issues(init, j)
      ensures Consumes(events, hash, j) <==> Consumes(init, hash, j)
    {
      SamePrefix(events, hash, j);
    }
    assert Issues(init, i);
    assert Superseded(events, i) <==> Superseded(init, i) || SupersededBy(events, i, n);
    assert WasConsumed(events, hash) <==> WasConsumed(init, hash) || Consumes(events, hash, n) by {
      if k :| 0 <= k < |init| && Consumes(init, hash, k) { assert Consumes(events, hash, k); }
      if k :| 0 <= k < n && Consumes(events, hash, k) { assert Consumes(init, hash, k); }
    }
  }

  ghost predicate RowOf(row: Option<Token>, record: Insert, live: bool) {
    && row.Some?
    && row.value.(consumedAt := None) == NewRow(record)
    && (row.value.consumedAt.None? <==> live)
  }

  /** The row of an issued token is unconsumed exactly while the token is live. */
  lemma {:induction false} IssuedRow(events: seq<Event>, i: nat)
    requires Issues(events, i)
    ensures RowOf(Find(Run(events), events[i].record.tokenHash), events[i].record, Live(events, i))
  {
    var n := |events| - 1;
    if i == n {
      RowOfLastIssue(events);
    } else {
      SamePrefix(events, events[i].record.tokenHash, i);
      IssuedRow(events[..n], i);
      StepTouches(Run(events[..n]), events[n], events[i].record, Live(events[..n], i));
      LiveAfter(events, i);
    }
  }

  lemma RowOfLastIssue(events: seq<Event>)
    requires events != [] && Issues(events, |events| - 1)
    ensures var n := |events| - 1;
      RowOf(Find(Run(events), events[n].record.tokenHash), events[n].record, Live(events, n))
  {
    var n := |events| - 1;
    FindAfter(Run(events[..n]), events[n], events[n].record.tokenHash);
    IssuesIffNew(events, n);
    NotConsumedBefore(events, n);
  }

  /** The last event is an issue that spends the outstanding tokens of this one's user and purpose. */
  predicate Replaces(rows: seq<Token>, e: Event, record: Insert) {
    && e.Issue? && Find(rows, e.record.tokenHash).None?
    && e.record.userId == record.userId && e.record.purpose == record.purpose
  }

  /** The last event is a consume that succeeds on this token. */
  predicate Redeems(rows: seq<Token>, e: Event, record: Insert) {
    && e.Consume? && e.hash == record.tokenHash
    && OutcomeOn(rows, e.hash, e.purpose, e.at).Consumed?
  }

  lemma IssueTouches(rows: seq<Token>, e: Event, record: Insert, live: bool)
    requires e.Issue? && RowOf(Find(rows, record.tokenHash), record, live)
    ensures RowOf(Find(Step(rows, e), record.tokenHash), record, live && !Replaces(rows, e, record))
  {
    FindAfter(rows, e, record.tokenHash);
  }

  lemma ConsumeTouches(rows: seq<Token>, e: Event, record: Insert, live: bool)
    requires e.Consume? && RowOf(Find(rows, record.tokenHash), record, live)
    ensures RowOf(Find(Step(rows, e), record.tokenHash), record, live && !Redeems(rows, e, record))
  {
    FindNone(rows, record.tokenHash);
    FindAfter(rows, e, record.tokenHash);
  }

  lemma StepTouches(rows: seq<Token>, e: Event, record: Insert, live: bool)
    requires RowOf(Find(rows, record.tokenHash), record, live)
    ensures RowOf(Find(Step(rows, e), record.tokenHash), record,
                  live && !Replaces(rows, e, record) && !Redeems(rows, e, record))
  {
    if e.Issue? { IssueTouches(rows, e, record, live); } else { ConsumeTouches(rows, e, record, live); }
  }

  /** A token stays live unless the last event replaces or redeems it. */
  lemma LiveAfter(events: seq<Event>, i: nat)
    requires i < |events| - 1 && Issues(events, i)
    ensures var n := |events| - 1;
      Live(events, i) <==>
        && Live(events[..n], i)
        && !Replaces(Run(events[..n]), events[n], events[i].record)
        && !Redeems(Run(events[..n]), events[n], events[i].record)
  {
    var n := |events| - 1;
    LiveStep(events, i);
    if events[n].Issue? {
      IssuesIffNew(events, n);
    }
  }

  // ----- main results -----

  /** The token that a hash and purpose name, if one was issued. */
  ghost predicate Names(events: seq<Event>, i: nat, hash: string, purpose: Purpose) {
    Issues(events, i) && events[i].record.tokenHash == hash && events[i].record.purpose == purpose
  }

  lemma FirstIssue(events: seq<Event>, j: nat) returns (i: nat)
    requires j < |events| && events[j].Issue?
    ensures Issues(events, i) && events[i].record.tokenHash == events[j].record.tokenHash
  {
    if Issues(events, j) {
      i := j;
    } else {
      var k :| 0 <= k < j && events[k].Issue? && events[k].record.tokenHash == events[j].record.tokenHash;
      i := FirstIssue(events, k);
    }
  }

  /**
   Consuming succeeds exactly for the latest token issued to its user for that purpose, never
   consumed before, and not expired; only expiry of such a token is reported as such.
   */
  lemma ConsumedExactlyWhen(events: seq<Event>, hash: string, purpose: Purpose, now: int)
    ensures OutcomeAfter(events, hash, purpose, now).Consumed? <==>
      exists i: nat :: Names(events, i, hash, purpose) && Live(events, i) && events[i].record.expiresAt > now
    ensures OutcomeAfter(events, hash, purpose, now).Expired? <==>
      exists i: nat :: Names(events, i, hash, purpose) && Live(events, i) && events[i].record.expiresAt <= now
    ensures forall i: nat :: Names(events, i, hash, purpose) && OutcomeAfter(events, hash, purpose, now).Consumed? ==>
      OutcomeAfter(events, hash, purpose, now) == Consumed(events[i].record.id, events[i].record.userId)
  {
    forall i: nat | Names(events, i, hash, purpose)
      ensures RowOf(Find(Run(events), hash), events[i].record, Live(events, i))
    {
      IssuedRow(events, i);
    }
    if Find(Run(events), hash).Some? {
      if forall j :: 0 <= j < |events| && events[j].Issue? ==> events[j].record.tokenHash != hash {
        NoRow(events, hash);
      } else {
        var j :| 0 <= j < |events| && events[j].Issue? && events[j].record.tokenHash == hash;
        var i := FirstIssue(events, j);
        IssuedRow(events, i);
        assert events[i].record.purpose == purpose ==> Names(events, i, hash, purpose);
      }
    }
  }

  /** No token is consumed twice. */
  lemma ConsumedOnce(events: seq<Event>, hash: string, k: nat, l: nat)
    requires Consumes(events, hash, k) && Consumes(events, hash, l)
    ensures k == l
  {
    if k < l {
      NotTwice(events, hash, k, l);
    } else if l < k {
      NotTwice(events, hash, l, k);
    }
  }

  lemma NotTwice(events: seq<Event>, hash: string, k: nat, l: nat)
    requires k < l && Consumes(events, hash, k)
    ensures !Consumes(events, hash, l)
  {
    if l < |events| {
      var before := events[..l];
      assert before[..k] == events[..k];
      assert Consumes(before, hash, k);
      if events[l].Consume? {
        ConsumedExactlyWhen(before, hash, events[l].purpose, events[l].at);
      }
    }
  }

  /** In every run at most one token of a user and purpose is outstanding. */
  lemma {:induction false} OneOutstandingAlways(events: seq<Event>)
    ensures UniqueHashes(Run(events)) && OneOutstanding(Run(events))
  {
    if events != [] {
      var n := |events| - 1;
      OneOutstandingAlways(events[..n]);
      match events[n]
      case Issue(record, at) => IssuedValid(Run(events[..n]), record, at);
      case Consume(hash, purpose, at) => SpentValid(Run(events[..n]), hash, purpose, at);
    }
  }

  // ----- when a row was spent -----

  /** The event spends the row: it consumes its hash, or issues a token to its user for its purpose. */
  predicate SpentBy(row: Token, e: Event) {
    match e
    case Issue(record, _) => record.userId == row.userId && record.purpose == row.purpose
    case Consume(hash, purpose, _) => hash == row.tokenHash && purpose == row.purpose
  }

  /** A spent row bears the time of an event that spends it. */
  ghost predicate Dated(events: seq<Event>, row: Token) {
    row.consumedAt.Some? ==> exists e :: e in events && SpentBy(row, e) && row.consumedAt == Some(e.at)
  }

  lemma StepDates(rows: seq<Token>, e: Event, i: nat)
    requires i < |Step(rows, e)|
    ensures var row := Step(rows, e)[i];
      (row.consumedAt.Some? && SpentBy(row, e) && row.consumedAt == Some(e.at))
      || (i < |rows| && row == rows[i]) || row.consumedAt.None?
  {
  }

  /** In every run each spent row bears the time of the call that consumed or replaced its token. */
  lemma {:induction false} SpentRowsDated(events: seq<Event>)
    ensures forall row :: row in Run(events) ==> Dated(events, row)
  {
    if events != [] {
      var before, e := events[..|events| - 1], events[|events| - 1];
      SpentRowsDated(before);
      forall row | row in Run(events) ensures Dated(events, row) {
        var i :| 0 <= i < |Run(events)| && Run(events)[i] == row;
        StepDates(Run(before), e, i);
        assert e in events;
        if i < |Run(before)| && row == Run(before)[i] {
          assert Dated(before, row);
          assert forall x :: x in before ==> x in events;
        }
      }
    }
  }
}

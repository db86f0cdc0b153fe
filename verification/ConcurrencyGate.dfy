/** The batch concurrency gate: up to four counters taken one by one and given back when one is full. */
module ConcurrencyGate {
  import opened Common

  // Two views are given. `BatchConcurrencyGate` is the service itself, with other clients
  // changing the counters between its operations. `Advance` is the same code cut at its
  // counter operations, so that any number of calls interleave; `Run` is an arbitrary
  // interleaving.

  const GLOBAL_BATCH_CONCURRENCY := 50
  const INTERACTIVE_RESERVE_SLOTS := 10
  const GLOBAL_BATCH_LIMIT := GLOBAL_BATCH_CONCURRENCY - INTERACTIVE_RESERVE_SLOTS
  const UPLOAD_LIMIT := 5
  const OCR_POOL_CEILING := 4
  const EMBED_BACKFILL_CAP := 2

  datatype Key = OrgBatch(org: string) | GlobalBatch | OrgUpload(org: string) | OcrPool | BackfillGlobal

  /** The name under which a counter is stored. */
  function KeyName(k: Key): string {
    match k
    case OrgBatch(org) => "gate:batch:org:" + org
    case GlobalBatch => "gate:batch:global"
    case OrgUpload(org) => "gate:upload:org:" + org
    case OcrPool => "gate:ocr:global"
    case BackfillGlobal => "gate:embed-backfill:global"
  }

  lemma KeyNameTag(k: Key)
    ensures var n := KeyName(k);
            |n| > 11 && (n[5], n[11]) == match k {
              case OrgBatch(_) => ('b', 'o')
              case GlobalBatch => ('b', 'g')
              case OrgUpload(_) => ('u', ':')
              case OcrPool => ('o', 'o')
              case BackfillGlobal => ('e', 'b')
            }
  {
  }

  /** No two counters share a name, whatever the organisation ids are. */
  lemma KeyNamesDiffer(a: Key, b: Key)
    requires a != b
    ensures KeyName(a) != KeyName(b)
  {
    KeyNameTag(a);
    KeyNameTag(b);
    if a.OrgBatch? && b.OrgBatch? {
      assert a.org == KeyName(a)[15..] && b.org == KeyName(b)[15..];
    } else if a.OrgUpload? && b.OrgUpload? {
      assert a.org == KeyName(a)[16..] && b.org == KeyName(b)[16..];
    }
  }

  type Counters = map<Key, nat>

  function At(c: Counters, k: Key): nat {
    if k in c then c[k] else 0
  }

  /** The counter script: test and increment in one atomic operation. */
  function IncrementIfBelow(c: Counters, k: Key, max: int): (r: (Counters, bool)) {
    if At(c, k) >= max then (c, false) else (c[k := At(c, k) + 1], true)
  }

  /** A decrement below zero is clamped to zero. */
  function Decrement(c: Counters, k: Key): Counters {
    c[k := if At(c, k) == 0 then 0 else At(c, k) - 1]
  }

  ghost predicate Same(c: Counters, d: Counters) {
    forall k :: At(c, k) == At(d, k)
  }

  function One(b: bool): nat { if b then 1 else 0 }

  // ----- one call -----

  datatype Call = Call(org: string, queue: string, orgLimit: int) {
    predicate Backfill() { queue == "embed-backfill" }

    predicate UploadGated() { queue in ["extract", "ocr", "chunk"] }

    predicate Ocr() { queue == "ocr" }

    predicate Needs(k: Key) {
      match k
      case OrgBatch(o) => !Backfill() && o == org
      case GlobalBatch => !Backfill()
      case OrgUpload(o) => UploadGated() && o == org
      case OcrPool => Ocr()
      case BackfillGlobal => Backfill()
    }

    /** The keys of the slot a successful call returns, in acquisition order: each needed key once. */
    function Keys(): (keys: seq<Key>)
      ensures keys != [] && forall k :: k in keys <==> Needs(k)
      ensures forall i, j :: 0 <= i < j < |keys| ==> keys[i] != keys[j]
    {
      if Backfill() then [BackfillGlobal]
      else [OrgBatch(org), GlobalBatch]
           + (if UploadGated() then [OrgUpload(org)] else [])
           + (if Ocr() then [OcrPool] else [])
    }

    /** The ceiling this call applies to a counter. */
    function LimitOf(k: Key): int {
      match k
      case OrgBatch(_) => orgLimit
      case GlobalBatch => GLOBAL_BATCH_LIMIT
      case OrgUpload(_) => UPLOAD_LIMIT
      case OcrPool => OCR_POOL_CEILING
      case BackfillGlobal => EMBED_BACKFILL_CAP
    }
  }

  ghost predicate HasRoom(c: Counters, call: Call) {
    forall k :: call.Needs(k) ==> At(c, k) < call.LimitOf(k)
  }

  /** A call other than a backfill has room when the counters it tries one by one have. */
  lemma RoomOneByOne(c: Counters, call: Call)
    requires !call.Backfill()
    ensures HasRoom(c, call) <==>
            && At(c, OrgBatch(call.org)) < call.orgLimit
            && At(c, GlobalBatch) < GLOBAL_BATCH_LIMIT
            && (call.UploadGated() ==> At(c, OrgUpload(call.org)) < UPLOAD_LIMIT)
            && (call.Ocr() ==> At(c, OcrPool) < OCR_POOL_CEILING)
  {
    assert call.Needs(OrgBatch(call.org)) && call.Needs(GlobalBatch);
    assert call.Needs(OrgUpload(call.org)) <==> call.UploadGated();
    assert call.Needs(OcrPool) <==> call.Ocr();
  }

  /** d is c with one more holder on each key the call needs. */
  ghost predicate TookOneEach(c: Counters, d: Counters, call: Call) {
    forall k :: At(d, k) == At(c, k) + One(call.Needs(k))
  }

  datatype Slot = Slot(kind: string, org: string, keys: seq<Key>)

  /**
   The service. Between two counter operations other calls may run; `others` is
   what they hold. A call that is `alone` is not interfered with.
   */
  class BatchConcurrencyGate {
    var counters: Counters
    ghost var others: Counters

    constructor ()
      ensures forall k :: At(counters, k) == 0
      ensures Mine([])
    {
      counters := map[];
      others := map[];
    }

    /** This call holds exactly the keys mine, and the other calls hold the rest of every counter. */
    ghost predicate Mine(mine: seq<Key>)
      reads this
    {
      forall k :: At(counters, k) == At(others, k) + One(k in mine)
    }

    /** Whatever the other calls do while this one awaits. */
    method Interfere(ghost mine: seq<Key>, ghost alone: bool)
      requires Mine(mine)
      modifies this
      ensures Mine(mine)
      ensures alone ==> others == old(others)
    {
    }

    method Get(k: Key, ghost alone: bool) returns (inflight: nat)
      requires Mine([])
      modifies this
      ensures Mine([])
      ensures alone ==> others == old(others) && inflight == At(others, k)
    {
      Interfere([], alone);
      inflight := At(counters, k);
    }

    method Increment(k: Key, max: int, ghost mine: seq<Key>, ghost alone: bool) returns (ok: bool)
      requires Mine(mine) && k !in mine
      modifies this
      ensures Mine(if ok then mine + [k] else mine)
      ensures alone ==> others == old(others) && (ok <==> At(others, k) < max)
    {
      Interfere(mine, alone);
      ok := At(counters, k) < max;
      if ok {
        counters := counters[k := At(counters, k) + 1];
      }
    }

    /** The decrements of a rollback or a release, in order. */
    method GiveBack(keys: seq<Key>, ghost alone: bool)
      requires Distinct(keys) && Mine(keys)
      modifies this
      ensures Mine([])
      ensures alone ==> others == old(others)
    {
      for i := 0 to |keys|
        invariant Mine(keys[i..])
        invariant alone ==> others == old(others)
      {
        Interfere(keys[i..], alone);
        assert keys[i..][1..] == keys[i + 1..];
        counters := Decrement(counters, keys[i]);
      }
    }

    /** The reads before the first increment: is some counter the call needs already full? */
    method LooksFull(call: Call, ghost alone: bool) returns (full: bool)
      requires Mine([]) && !call.Backfill()
      modifies this
      ensures Mine([])
      ensures alone ==> others == old(others) && (full ==> !HasRoom(others, call))
    {
      RoomOneByOne(others, call);
      var orgInflight := Get(OrgBatch(call.org), alone);
      full := orgInflight >= call.orgLimit;
      if !full && call.UploadGated() {
        var uploadInflight := Get(OrgUpload(call.org), alone);
        full := uploadInflight >= UPLOAD_LIMIT;
      }
      if !full && call.Ocr() {
        var ocrInflight := Get(OcrPool, alone);
        full := ocrInflight >= OCR_POOL_CEILING;
      }
    }

    /** One increment, if wanted; when it fails, the keys taken before it are given back. */
    method TakeIf(wanted: bool, k: Key, max: int, mine: seq<Key>, ghost alone: bool)
      returns (ok: bool, keys: seq<Key>)
      requires Mine(mine) && Distinct(mine) && (wanted ==> k !in mine)
      modifies this
      ensures keys == if wanted then mine + [k] else mine
      ensures Mine(if ok then keys else [])
      ensures alone ==> others == old(others) && (ok <==> (wanted ==> At(others, k) < max))
    {
      ok, keys := true, mine;
      if wanted {
        ok := Increment(k, max, mine, alone);
        keys := mine + [k];
        if !ok {
          GiveBack(mine, alone);
        }
      }
    }

    /** The organisation's counter, then the global one. */
    method TakeBoth(call: Call, ghost alone: bool) returns (ok: bool, keys: seq<Key>)
      requires Mine([])
      modifies this
      ensures keys == [OrgBatch(call.org), GlobalBatch]
      ensures Mine(if ok then keys else [])
      ensures alone ==> others == old(others)
      ensures alone ==> (ok <==>
        At(others, OrgBatch(call.org)) < call.orgLimit && At(others, GlobalBatch) < GLOBAL_BATCH_LIMIT)
    {
      ok, keys := TakeIf(true, OrgBatch(call.org), call.orgLimit, [], alone);
      if !ok {
        return false, [OrgBatch(call.org), GlobalBatch];
      }
      ok, keys := TakeIf(true, GlobalBatch, GLOBAL_BATCH_LIMIT, keys, alone);
    }

    /** The upload counter and the OCR pool, for the queues they gate. */
    method TakeGated(call: Call, mine: seq<Key>, ghost alone: bool) returns (ok: bool, keys: seq<Key>)
      requires mine == [OrgBatch(call.org), GlobalBatch] && Mine(mine)
      modifies this
      ensures ok ==> keys == mine + (if call.UploadGated() then [OrgUpload(call.org)] else [])
                                  + (if call.Ocr() then [OcrPool] else [])
      ensures Mine(if ok then keys else [])
      ensures alone ==> others == old(others)
      ensures alone ==> (ok <==>
        && (call.UploadGated() ==> At(others, OrgUpload(call.org)) < UPLOAD_LIMIT)
        && (call.Ocr() ==> At(others, OcrPool) < OCR_POOL_CEILING))
    {
      ok, keys := TakeIf(call.UploadGated(), OrgUpload(call.org), UPLOAD_LIMIT, mine, alone);
      if ok {
        ok, keys := TakeIf(call.Ocr(), OcrPool, OCR_POOL_CEILING, keys, alone);
      }
    }

    /** The increments, each undone when a later one fails. */
    method Take(call: Call, ghost alone: bool) returns (taken: Option<seq<Key>>)
      requires Mine([]) && !call.Backfill()
      modifies this
      ensures taken.Some? ==> taken.value == call.Keys()
      ensures Mine(if taken.Some? then taken.value else [])
      ensures alone ==> others == old(others) && (taken.Some? <==> HasRoom(others, call))
    {
      RoomOneByOne(others, call);
      var ok, keys := TakeBoth(call, alone);
      if ok {
        ok, keys := TakeGated(call, keys, alone);
      }
      taken := if ok then Some(keys) else None;
    }

    /**
     Whatever other calls do meanwhile, a call ends up holding exactly the keys of
     the slot it returns, and none if it is refused. Alone, it gets its slot
     exactly when every counter it needs is below its ceiling.
     */
    method TryAcquireImmediate(org: string, queue: string, orgLimit: int, ghost alone: bool)
      returns (slot: Option<Slot>)
      requires Mine([])
      modifies this
      ensures slot.Some? ==> slot.value.org == org && slot.value.keys == Call(org, queue, orgLimit).Keys()
      ensures slot.Some? ==> slot.value.kind == if queue == "embed-backfill" then "embed-backfill" else "batch"
      ensures Mine(if slot.Some? then slot.value.keys else [])
      ensures alone ==> others == old(others)
      ensures alone ==> (slot.Some? <==> HasRoom(old(others), Call(org, queue, orgLimit)))
    {
      var call := Call(org, queue, orgLimit);
      if call.Backfill() {
        slot := TryAcquireEmbedBackfill(org, orgLimit, alone);
      } else {
        var full := LooksFull(call, alone);
        if full {
          return None;
        }
        var taken := Take(call, alone);
        slot := if taken.Some? then Some(Slot("batch", org, taken.value)) else None;
      }
    }

    method TryAcquireEmbedBackfill(org: string, ghost orgLimit: int, ghost alone: bool) returns (slot: Option<Slot>)
      requires Mine([])
      modifies this
      ensures slot.Some? ==> slot.value == Slot("embed-backfill", org, [BackfillGlobal])
      ensures Mine(if slot.Some? then slot.value.keys else [])
      ensures alone ==> others == old(others)
      ensures alone ==> (slot.Some? <==> HasRoom(old(others), Call(org, "embed-backfill", orgLimit)))
    {
      assert Call(org, "embed-backfill", orgLimit).Needs(BackfillGlobal);
      var acquired := Increment(BackfillGlobal, EMBED_BACKFILL_CAP, [], alone);
      slot := if acquired then Some(Slot("embed-backfill", org, [BackfillGlobal])) else None;
    }

    /** Releasing a held slot gives back exactly its keys, whatever other calls do meanwhile. */
    method Release(slot: Slot, ghost alone: bool)
      requires Distinct(slot.keys) && Mine(slot.keys)
      modifies this
      ensures Mine([])
      ensures alone ==> others == old(others)
    {
      GiveBack(slot.keys, alone);
    }

    /** A slot acquired and released leaves every counter of an undisturbed gate as it was. */
    method AcquireThenRelease(org: string, queue: string, orgLimit: int, ghost alone: bool)
      requires Mine([])
      modifies this
      ensures Mine([])
      ensures alone ==> Same(old(counters), counters)
    {
      var slot := TryAcquireImmediate(org, queue, orgLimit, alone);
      if slot.Some? {
        Release(slot.value, alone);
      }
    }
  }

  // ----- many calls, interleaved at counter operations -----

  /** Where a call is between two counter operations. */
  datatype Pc =
    | ReadOrg | ReadUpload | ReadOcr
    | IncOrg | IncGlobal | IncUpload | IncOcr | IncBackfill
    | Undo(rest: seq<Key>)
    | Holding(keys: seq<Key>)
    | Releasing(rest: seq<Key>)
    | Refused
    | Done

  datatype Client = Client(call: Call, pc: Pc)

  function Entry(call: Call): Client {
    Client(call, if call.Backfill() then IncBackfill else ReadOrg)
  }

  /** The keys given back when the upload counter, or the OCR counter, turns out full. */
  function Partial(call: Call, withUpload: bool): seq<Key> {
    [OrgBatch(call.org), GlobalBatch] + if withUpload then [OrgUpload(call.org)] else []
  }

  /** The next counter operation of one call, with the branch taken on its result. */
  function Advance(c: Counters, cl: Client): (Counters, Client) {
    var call := cl.call;
    match cl.pc
    case ReadOrg =>
      (c, cl.(pc := if At(c, OrgBatch(call.org)) >= call.orgLimit then Refused
                    else if call.UploadGated() then ReadUpload else IncOrg))
    case ReadUpload =>
      (c, cl.(pc := if At(c, OrgUpload(call.org)) >= UPLOAD_LIMIT then Refused
                    else if call.Ocr() then ReadOcr else IncOrg))
    case ReadOcr =>
      (c, cl.(pc := if At(c, OcrPool) >= OCR_POOL_CEILING then Refused else IncOrg))
    case IncOrg =>
      var (d, ok) := IncrementIfBelow(c, OrgBatch(call.org), call.orgLimit);
      (d, cl.(pc := if ok then IncGlobal else Refused))
    case IncGlobal =>
      var (d, ok) := IncrementIfBelow(c, GlobalBatch, GLOBAL_BATCH_LIMIT);
      (d, cl.(pc := if !ok then Undo([OrgBatch(call.org)])
                    else if call.UploadGated() then IncUpload else Holding(call.Keys())))
    case IncUpload =>
      var (d, ok) := IncrementIfBelow(c, OrgUpload(call.org), UPLOAD_LIMIT);
      (d, cl.(pc := if !ok then Undo(Partial(call, false))
                    else if call.Ocr() then IncOcr else Holding(call.Keys())))
    case IncOcr =>
      var (d, ok) := IncrementIfBelow(c, OcrPool, OCR_POOL_CEILING);
      (d, cl.(pc := if ok then Holding(call.Keys()) else Undo(Partial(call, true))))
    case IncBackfill =>
      var (d, ok) := IncrementIfBelow(c, BackfillGlobal, EMBED_BACKFILL_CAP);
      (d, cl.(pc := if ok then Holding(call.Keys()) else Refused))
    case Undo(rest) =>
      if |rest| == 0 then (c, cl.(pc := Refused))
      else (Decrement(c, rest[0]), cl.(pc := if |rest| == 1 then Refused else Undo(rest[1..])))
    case Holding(keys) =>
      if |keys| == 0 then (c, cl.(pc := Done))
      else (Decrement(c, keys[0]), cl.(pc := if |keys| == 1 then Done else Releasing(keys[1..])))
    case Releasing(rest) =>
      if |rest| == 0 then (c, cl.(pc := Done))
      else (Decrement(c, rest[0]), cl.(pc := if |rest| == 1 then Done else Releasing(rest[1..])))
    case Refused => (c, cl)
    case Done => (c, cl)
  }

  /** The call holds key k: in a slot it was given, or in a half-finished acquire or release. */
  predicate Holds(cl: Client, k: Key) {
    match cl.pc
    case IncGlobal => k == OrgBatch(cl.call.org)
    case IncUpload => k == OrgBatch(cl.call.org) || k == GlobalBatch
    case IncOcr => k == OrgBatch(cl.call.org) || k == GlobalBatch || k == OrgUpload(cl.call.org)
    case Undo(rest) => k in rest
    case Holding(keys) => k in keys
    case Releasing(rest) => k in rest
    case _ => false
  }

  /** A program point the call can be at: the gated steps only on gated queues, a slot only of needed keys. */
  ghost predicate PcFits(cl: Client) {
    && (cl.pc.ReadUpload? || cl.pc.IncUpload? ==> cl.call.UploadGated())
    && (cl.pc.ReadOcr? || cl.pc.IncOcr? ==> cl.call.Ocr())
    && (cl.call.Backfill() ==>
        cl.pc.IncBackfill? || cl.pc.Holding? || cl.pc.Releasing? || cl.pc.Refused? || cl.pc.Done?)
    && (cl.pc.IncBackfill? ==> cl.call.Backfill())
    && (forall k :: Holds(cl, k) ==> cl.call.Needs(k))
    && (cl.pc.Undo? ==> Distinct(cl.pc.rest))
    && (cl.pc.Holding? ==> cl.pc.keys == cl.call.Keys())
    && (cl.pc.Releasing? ==> Distinct(cl.pc.rest))
  }

  datatype World = World(counters: Counters, clients: seq<Client>)

  datatype Action = Arrive(call: Call) | Turn(i: nat)

  /** One event: a new call arrives, or some call performs its next counter operation. */
  function Act(w: World, a: Action): World {
    match a
    case Arrive(call) => w.(clients := w.clients + [Entry(call)])
    case Turn(i) =>
      if i >= |w.clients| then w
      else
        var (d, cl) := Advance(w.counters, w.clients[i]);
        World(d, w.clients[i := cl])
  }

  function Run(actions: seq<Action>): World {
    if actions == [] then World(map[], []) else Act(Run(actions[..|actions| - 1]), actions[|actions| - 1])
  }

  /** How many calls hold key k. */
  function Holders(clients: seq<Client>, k: Key): nat {
    if clients == [] then 0
    else Holders(clients[..|clients| - 1], k) + One(Holds(clients[|clients| - 1], k))
  }

  lemma {:induction false} HoldersUpdate(clients: seq<Client>, i: nat, cl: Client, k: Key)
    requires i < |clients|
    ensures Holders(clients[i := cl], k) + One(Holds(clients[i], k)) == Holders(clients, k) + One(Holds(cl, k))
    ensures Holders(clients, k) >= One(Holds(clients[i], k))
  {
    var n := |clients| - 1;
    if i == n {
      assert clients[i := cl][..n] == clients[..n];
    } else {
      assert clients[i := cl][..n] == clients[..n][i := cl];
      HoldersUpdate(clients[..n], i, cl, k);
    }
  }

  /** Each counter is exactly the number of its holders, and every call is at a sensible point. */
  ghost predicate Inv(w: World) {
    && (forall k :: At(w.counters, k) == Holders(w.clients, k))
    && (forall i :: 0 <= i < |w.clients| ==> PcFits(w.clients[i]))
  }

  lemma TailMember(keys: seq<Key>, k: Key)
    requires keys != [] && Distinct(keys)
    ensures k in keys[1..] <==> k in keys && k != keys[0]
  {
  }

  lemma GiveBackFits(c: Counters, cl: Client, keys: seq<Key>)
    requires PcFits(cl) && Distinct(keys)
    requires cl.pc == Undo(keys) || cl.pc == Holding(keys) || cl.pc == Releasing(keys)
    ensures PcFits(Advance(c, cl).1)
  {
    if keys != [] {
      forall k { TailMember(keys, k); }
    }
  }

  lemma TakeFits(c: Counters, cl: Client)
    requires PcFits(cl) && !cl.pc.Undo? && !cl.pc.Holding? && !cl.pc.Releasing?
    ensures PcFits(Advance(c, cl).1)
  {
  }

  lemma AdvanceFits(c: Counters, cl: Client)
    requires PcFits(cl)
    ensures PcFits(Advance(c, cl).1)
  {
    match cl.pc
    case Undo(rest) => GiveBackFits(c, cl, rest);
    case Holding(keys) => GiveBackFits(c, cl, keys);
    case Releasing(rest) => GiveBackFits(c, cl, rest);
    case _ => TakeFits(c, cl);
  }

  lemma GiveBackEffect(c: Counters, cl: Client, keys: seq<Key>, k: Key)
    requires cl.pc == Undo(keys) || cl.pc == Holding(keys) || cl.pc == Releasing(keys)
    requires Distinct(keys)
    requires k in keys ==> At(c, k) >= 1
    ensures var (d, e) := Advance(c, cl); At(d, k) + One(Holds(cl, k)) == At(c, k) + One(Holds(e, k))
  {
    if keys != [] {
      TailMember(keys, k);
    }
  }

  lemma TakeEffect(c: Counters, cl: Client, k: Key)
    requires !cl.pc.Undo? && !cl.pc.Holding? && !cl.pc.Releasing?
    requires cl.pc.IncUpload? ==> cl.call.UploadGated()
    requires cl.pc.IncOcr? ==> cl.call.Ocr()
    requires cl.pc.IncBackfill? <==> cl.call.Backfill() && !cl.pc.Refused? && !cl.pc.Done?
    ensures var (d, e) := Advance(c, cl); At(d, k) + One(Holds(cl, k)) == At(c, k) + One(Holds(e, k))
  {
    var call := cl.call;
    match cl.pc
    case IncOrg => IncrementEffect(c, OrgBatch(call.org), call.orgLimit, k);
    case IncGlobal => IncrementEffect(c, GlobalBatch, GLOBAL_BATCH_LIMIT, k);
    case IncUpload => GatedTakeEffect(c, cl, k);
    case IncOcr => GatedTakeEffect(c, cl, k);
    case IncBackfill => IncrementEffect(c, BackfillGlobal, EMBED_BACKFILL_CAP, k);
    case _ =>
  }

  lemma GatedTakeEffect(c: Counters, cl: Client, k: Key)
    requires (cl.pc.IncUpload? && cl.call.UploadGated()) || (cl.pc.IncOcr? && cl.call.Ocr())
    ensures var (d, e) := Advance(c, cl); At(d, k) + One(Holds(cl, k)) == At(c, k) + One(Holds(e, k))
  {
    if cl.pc.IncUpload? {
      IncrementEffect(c, OrgUpload(cl.call.org), UPLOAD_LIMIT, k);
    } else {
      IncrementEffect(c, OcrPool, OCR_POOL_CEILING, k);
    }
  }

  lemma IncrementEffect(c: Counters, taken: Key, max: int, k: Key)
    ensures var (d, ok) := IncrementIfBelow(c, taken, max); At(d, k) == At(c, k) + One(ok && k == taken)
  {
  }

  /** One step changes the counter of a key by exactly the change in whether the call holds it. */
  lemma AdvanceEffect(c: Counters, cl: Client, k: Key)
    requires PcFits(cl)
    requires Holds(cl, k) ==> At(c, k) >= 1
    ensures var (d, e) := Advance(c, cl); At(d, k) + One(Holds(cl, k)) == At(c, k) + One(Holds(e, k))
  {
    match cl.pc
    case Undo(rest) => GiveBackEffect(c, cl, rest, k);
    case Holding(keys) => GiveBackEffect(c, cl, keys, k);
    case Releasing(rest) => GiveBackEffect(c, cl, rest, k);
    case _ => TakeEffect(c, cl, k);
  }

  lemma ActKeepsInv(w: World, a: Action)
    requires Inv(w)
    ensures Inv(Act(w, a))
  {
    var w' := Act(w, a);
    match a
    case Arrive(call) =>
      assert w'.clients[..|w.clients|] == w.clients;
      forall k ensures At(w'.counters, k) == Holders(w'.clients, k) { }
    case Turn(i) =>
      if i < |w.clients| {
        var cl := w.clients[i];
        var (d, e) := Advance(w.counters, cl);
        AdvanceFits(w.counters, cl);
        forall k ensures At(d, k) == Holders(w'.clients, k) {
          HoldersUpdate(w.clients, i, e, k);
          AdvanceEffect(w.counters, cl, k);
        }
      }
  }

  /** In every interleaving each counter equals the number of calls that hold it. */
  lemma {:induction false} CountersAreHolders(actions: seq<Action>)
    ensures Inv(Run(actions))
  {
    if actions != [] {
      CountersAreHolders(actions[..|actions| - 1]);
      ActKeepsInv(Run(actions[..|actions| - 1]), actions[|actions| - 1]);
    }
  }

  ghost predicate LimitedTo(call: Call, k: Key, max: nat) {
    call.Needs(k) ==> call.LimitOf(k) <= max
  }

  lemma AdvanceStaysBelow(c: Counters, cl: Client, k: Key, max: nat)
    requires PcFits(cl) && LimitedTo(cl.call, k, max)
    requires At(c, k) <= max
    ensures At(Advance(c, cl).0, k) <= max
  {
    assert cl.pc.IncOrg? ==> cl.call.Needs(OrgBatch(cl.call.org));
  }

  /** No counter ever exceeds the largest ceiling that the calls of the run apply to it. */
  lemma {:induction false} CounterNeverExceeds(actions: seq<Action>, k: Key, max: nat)
    requires forall i :: 0 <= i < |actions| && actions[i].Arrive? ==> LimitedTo(actions[i].call, k, max)
    ensures At(Run(actions).counters, k) <= max
    ensures forall i :: 0 <= i < |Run(actions).clients| ==> LimitedTo(Run(actions).clients[i].call, k, max)
  {
    if actions != [] {
      var prefix, a := actions[..|actions| - 1], actions[|actions| - 1];
      CounterNeverExceeds(prefix, k, max);
      CountersAreHolders(prefix);
      var w := Run(prefix);
      match a
      case Arrive(call) =>
      case Turn(i) =>
        if i < |w.clients| {
          AdvanceStaysBelow(w.counters, w.clients[i], k, max);
          assert Advance(w.counters, w.clients[i]).1.call == w.clients[i].call;
        }
    }
  }

  /** How many calls have been given a slot with key k and have not begun to release it. */
  function SlotsOut(clients: seq<Client>, k: Key): nat {
    if clients == [] then 0
    else var last := clients[|clients| - 1];
         SlotsOut(clients[..|clients| - 1], k) + One(last.pc.Holding? && k in last.pc.keys)
  }

  lemma {:induction false} SlotsOutAreHolders(clients: seq<Client>, k: Key)
    ensures SlotsOut(clients, k) <= Holders(clients, k)
  {
    if clients != [] {
      SlotsOutAreHolders(clients[..|clients| - 1], k);
    }
  }

  lemma SlotsNeverExceed(actions: seq<Action>, k: Key, max: nat)
    requires forall i :: 0 <= i < |actions| && actions[i].Arrive? ==> LimitedTo(actions[i].call, k, max)
    ensures SlotsOut(Run(actions).clients, k) <= At(Run(actions).counters, k) <= max
  {
    CountersAreHolders(actions);
    CounterNeverExceeds(actions, k, max);
    SlotsOutAreHolders(Run(actions).clients, k);
  }

  /** The fixed ceilings, in every interleaving: 40 batch slots, 4 OCR, 2 backfills, 5 uploads an organisation. */
  lemma CeilingsHold(actions: seq<Action>, org: string)
    ensures var w := Run(actions);
            && SlotsOut(w.clients, GlobalBatch) <= At(w.counters, GlobalBatch) <= 40
            && SlotsOut(w.clients, OcrPool) <= At(w.counters, OcrPool) <= 4
            && SlotsOut(w.clients, BackfillGlobal) <= At(w.counters, BackfillGlobal) <= 2
            && SlotsOut(w.clients, OrgUpload(org)) <= At(w.counters, OrgUpload(org)) <= 5
  {
    SlotsNeverExceed(actions, GlobalBatch, 40);
    SlotsNeverExceed(actions, OcrPool, 4);
    SlotsNeverExceed(actions, BackfillGlobal, 2);
    SlotsNeverExceed(actions, OrgUpload(org), 5);
  }

  /** An organisation never holds more batch slots than the largest limit its calls were given. */
  lemma OrgLimitHolds(actions: seq<Action>, org: string, limit: nat)
    requires forall i :: 0 <= i < |actions| && actions[i].Arrive? && actions[i].call.org == org ==>
      actions[i].call.orgLimit <= limit
    ensures SlotsOut(Run(actions).clients, OrgBatch(org)) <= At(Run(actions).counters, OrgBatch(org)) <= limit
  {
    SlotsNeverExceed(actions, OrgBatch(org), limit);
  }

  predicate Returned(cl: Client) { cl.pc.Refused? || cl.pc.Done? }

  lemma {:induction false} NobodyHolds(clients: seq<Client>, k: Key)
    requires forall i :: 0 <= i < |clients| ==> Returned(clients[i])
    ensures Holders(clients, k) == 0
  {
    if clients != [] {
      NobodyHolds(clients[..|clients| - 1], k);
    }
  }

  /** Refusals and releases leak nothing: once every call was refused or released, all counters are zero. */
  lemma QuiescentCountersAreZero(actions: seq<Action>, k: Key)
    requires forall i :: 0 <= i < |Run(actions).clients| ==> Returned(Run(actions).clients[i])
    ensures At(Run(actions).counters, k) == 0
  {
    CountersAreHolders(actions);
    NobodyHolds(Run(actions).clients, k);
  }

  /** The clamp in the decrement is never reached: what a call gives back is always counted. */
  lemma DecrementNeverClamps(actions: seq<Action>, i: nat, k: Key)
    requires i < |Run(actions).clients| && Holds(Run(actions).clients[i], k)
    ensures At(Run(actions).counters, k) >= 1
  {
    CountersAreHolders(actions);
    HoldersUpdate(Run(actions).clients, i, Run(actions).clients[i], k);
  }

  // ----- the two views agree -----

  /** Bounds the counter operations a call still has before it returns a slot or a refusal. */
  function Rank(pc: Pc): nat {
    match pc
    case ReadOrg => 20
    case ReadUpload => 19
    case ReadOcr => 18
    case IncOrg => 17
    case IncGlobal => 16
    case IncUpload => 15
    case IncOcr => 14
    case IncBackfill => 20
    case Undo(rest) => if |rest| <= 3 then |rest| + 1 else |rest| + 20
    case _ => 0
  }

  /** The call runs alone until tryAcquireImmediate returns. */
  function Solo(c: Counters, cl: Client): (Counters, Client)
    decreases Rank(cl.pc)
  {
    if Rank(cl.pc) == 0 then (c, cl)
    else
      var (d, e) := Advance(c, cl);
      Solo(d, e)
  }

  lemma SoloUndo(c: Counters, cl: Client)
    requires cl.pc.Undo? && Distinct(cl.pc.rest)
    requires forall k :: k in cl.pc.rest ==> At(c, k) >= 1
    ensures var (d, e) := Solo(c, cl);
            e == cl.(pc := Refused) && forall k :: At(c, k) == At(d, k) + One(k in cl.pc.rest)
    decreases |cl.pc.rest|
  {
    var rest := cl.pc.rest;
    var (d, e) := Advance(c, cl);
    assert Solo(c, cl) == Solo(d, e);
    if |rest| > 0 {
      forall k { TailMember(rest, k); }
    }
    if |rest| > 1 {
      SoloUndo(d, e);
    }
  }

  /** What tryAcquireImmediate promises of a call run alone from counters c. */
  ghost predicate SoloOutcome(c: Counters, d: Counters, e: Client) {
    && (e.pc == Holding(e.call.Keys()) <==> HasRoom(c, e.call))
    && (e.pc == Holding(e.call.Keys()) ==> TookOneEach(c, d, e.call))
    && (e.pc != Holding(e.call.Keys()) ==> e.pc == Refused && Same(c, d))
  }

  lemma SoloUndone(c: Counters, d: Counters, cl: Client, full: Key)
    requires cl.pc.Undo? && Distinct(cl.pc.rest)
    requires forall k :: At(d, k) == At(c, k) + One(k in cl.pc.rest)
    requires cl.call.Needs(full) && At(c, full) >= cl.call.LimitOf(full)
    ensures Solo(d, cl).1.call == cl.call && SoloOutcome(c, Solo(d, cl).0, Solo(d, cl).1)
  {
    SoloUndo(d, cl);
  }

  lemma SoloTook(c: Counters, d: Counters, cl: Client)
    requires cl.pc == Holding(cl.call.Keys()) && Ahead(c, d, cl) && HasRoom(c, cl.call)
    ensures Solo(d, cl).1.call == cl.call && SoloOutcome(c, Solo(d, cl).0, Solo(d, cl).1)
  {
  }

  /** The counters are ahead of c by what the call holds. */
  ghost predicate Ahead(c: Counters, d: Counters, cl: Client) {
    forall k :: At(d, k) == At(c, k) + One(Holds(cl, k))
  }

  lemma SoloStep(c: Counters, d: Counters, cl: Client)
    requires PcFits(cl) && Ahead(c, d, cl) && Rank(cl.pc) > 0
    ensures var (d', e) := Advance(d, cl); PcFits(e) && Ahead(c, d', e) && Solo(d, cl) == Solo(d', e)
  {
    AdvanceFits(d, cl);
    forall k { AdvanceEffect(d, cl, k); }
  }

  lemma SoloIncOcr(c: Counters, d: Counters, cl: Client)
    requires PcFits(cl) && cl.pc.IncOcr? && Ahead(c, d, cl)
    requires forall k :: Holds(cl, k) ==> At(c, k) < cl.call.LimitOf(k)
    ensures Solo(d, cl).1.call == cl.call && SoloOutcome(c, Solo(d, cl).0, Solo(d, cl).1)
  {
    var (d', e) := Advance(d, cl);
    SoloStep(c, d, cl);
    if e.pc.Undo? {
      SoloUndone(c, d', e, OcrPool);
    } else {
      SoloTook(c, d', e);
    }
  }

  lemma SoloIncUpload(c: Counters, d: Counters, cl: Client)
    requires PcFits(cl) && cl.pc.IncUpload? && Ahead(c, d, cl)
    requires forall k :: Holds(cl, k) ==> At(c, k) < cl.call.LimitOf(k)
    ensures Solo(d, cl).1.call == cl.call && SoloOutcome(c, Solo(d, cl).0, Solo(d, cl).1)
  {
    var (d', e) := Advance(d, cl);
    SoloStep(c, d, cl);
    if e.pc.Undo? {
      SoloUndone(c, d', e, OrgUpload(cl.call.org));
    } else if e.pc.IncOcr? {
      SoloIncOcr(c, d', e);
    } else {
      SoloTook(c, d', e);
    }
  }

  lemma SoloIncGlobal(c: Counters, d: Counters, cl: Client)
    requires PcFits(cl) && cl.pc.IncGlobal? && Ahead(c, d, cl)
    requires forall k :: Holds(cl, k) ==> At(c, k) < cl.call.LimitOf(k)
    ensures Solo(d, cl).1.call == cl.call && SoloOutcome(c, Solo(d, cl).0, Solo(d, cl).1)
  {
    var (d', e) := Advance(d, cl);
    SoloStep(c, d, cl);
    if e.pc.Undo? {
      SoloUndone(c, d', e, GlobalBatch);
    } else if e.pc.IncUpload? {
      SoloIncUpload(c, d', e);
    } else {
      SoloTook(c, d', e);
    }
  }

  lemma SoloIncOrg(c: Counters, cl: Client)
    requires PcFits(cl) && cl.pc.IncOrg?
    ensures Solo(c, cl).1.call == cl.call && SoloOutcome(c, Solo(c, cl).0, Solo(c, cl).1)
  {
    assert cl.call.Needs(OrgBatch(cl.call.org));
    var (d, e) := Advance(c, cl);
    SoloStep(c, c, cl);
    if e.pc.IncGlobal? {
      SoloIncGlobal(c, d, e);
    }
  }

  /** Run without interference, the step machine does what the service method promises. */
  lemma SoloIsTryAcquire(c: Counters, call: Call)
    ensures Solo(c, Entry(call)).1.call == call && SoloOutcome(c, Solo(c, Entry(call)).0, Solo(c, Entry(call)).1)
  {
    var cl := Entry(call);
    var (c1, e1) := Advance(c, cl);
    assert Solo(c, cl) == Solo(c1, e1);
    if call.Backfill() {
      assert call.Needs(BackfillGlobal);
    } else {
      assert call.Needs(OrgBatch(call.org)) && (call.UploadGated() ==> call.Needs(OrgUpload(call.org)));
      assert call.Ocr() ==> call.Needs(OcrPool);
      if e1.pc.IncOrg? {
        SoloIncOrg(c, e1);
      } else if e1.pc.ReadUpload? {
        var (c2, e2) := Advance(c1, e1);
        assert Solo(c1, e1) == Solo(c2, e2);
        if e2.pc.IncOrg? {
          SoloIncOrg(c, e2);
        } else if e2.pc.ReadOcr? {
          var (c3, e3) := Advance(c2, e2);
          assert Solo(c2, e2) == Solo(c3, e3);
          if e3.pc.IncOrg? {
            SoloIncOrg(c, e3);
          }
        }
      }
    }
  }
}

/** What the gate promises about calls, by queue and organisation: how many hold slots, and who gets one. */
module GateLaws {
  import opened ConcurrencyGate

  /** The calls that were given a slot and have not begun to release it. */
  function Out(clients: seq<Client>, p: Call -> bool): nat {
    if clients == [] then 0
    else
      var last := clients[|clients| - 1];
      Out(clients[..|clients| - 1], p) + One(last.pc.Holding? && p(last.call))
  }

  function Batch(): Call -> bool { (call: Call) => call.queue != "embed-backfill" }

  function BatchOf(org: string): Call -> bool { (call: Call) => call.queue != "embed-backfill" && call.org == org }

  function UploadOf(org: string): Call -> bool {
    (call: Call) => (call.queue == "extract" || call.queue == "ocr" || call.queue == "chunk") && call.org == org
  }

  function OnOcr(): Call -> bool { (call: Call) => call.queue == "ocr" }

  function OnBackfill(): Call -> bool { (call: Call) => call.queue == "embed-backfill" }

  /** The calls that a counter is there to count. */
  function Counted(k: Key): Call -> bool {
    match k
    case OrgBatch(org) => BatchOf(org)
    case GlobalBatch => Batch()
    case OrgUpload(org) => UploadOf(org)
    case OcrPool => OnOcr()
    case BackfillGlobal => OnBackfill()
  }

  lemma NeedsWhatCounts(call: Call, k: Key)
    ensures call.Needs(k) <==> Counted(k)(call)
  {
  }

  /** Every call out holds the keys that count it. */
  lemma {:induction false} OutHoldsKey(clients: seq<Client>, k: Key)
    requires forall i :: 0 <= i < |clients| ==> PcFits(clients[i])
    ensures Out(clients, Counted(k)) <= Holders(clients, k)
  {
    if clients != [] {
      var last := clients[|clients| - 1];
      OutHoldsKey(clients[..|clients| - 1], k);
      NeedsWhatCounts(last.call, k);
    }
  }

  lemma OutNeverExceeds(actions: seq<Action>, k: Key, max: nat)
    requires forall i :: 0 <= i < |actions| && actions[i].Arrive? ==> LimitedTo(actions[i].call, k, max)
    ensures Out(Run(actions).clients, Counted(k)) <= max
  {
    CountersAreHolders(actions);
    CounterNeverExceeds(actions, k, max);
    OutHoldsKey(Run(actions).clients, k);
  }

  /**
   In every interleaving at most 40 batch calls hold slots at the same time, 4 on the ocr queue,
   2 backfills, and for each organisation 5 on the queues extract, ocr and chunk together.
   */
  lemma CallsStayBelow(actions: seq<Action>, org: string)
    ensures Out(Run(actions).clients, Batch()) <= 40
    ensures Out(Run(actions).clients, OnOcr()) <= 4
    ensures Out(Run(actions).clients, OnBackfill()) <= 2
    ensures Out(Run(actions).clients, UploadOf(org)) <= 5
  {
    OutNeverExceeds(actions, GlobalBatch, 40);
    OutNeverExceeds(actions, OcrPool, 4);
    OutNeverExceeds(actions, BackfillGlobal, 2);
    OutNeverExceeds(actions, OrgUpload(org), 5);
  }

  /** An organisation never has more batch calls out than the largest limit its calls were given. */
  lemma OrgStaysBelow(actions: seq<Action>, org: string, limit: nat)
    requires forall i :: 0 <= i < |actions| && actions[i].Arrive? && actions[i].call.org == org ==>
      actions[i].call.orgLimit <= limit
    ensures Out(Run(actions).clients, BatchOf(org)) <= limit
  {
    OutNeverExceeds(actions, OrgBatch(org), limit);
  }

  // ----- when a call is granted -----

  /** No call is in the middle of acquiring or releasing. */
  ghost predicate Settled(clients: seq<Client>) {
    forall i :: 0 <= i < |clients| ==> clients[i].pc.Holding? || Returned(clients[i])
  }

  lemma {:induction false} SettledHolders(clients: seq<Client>, k: Key)
    requires Settled(clients) && forall i :: 0 <= i < |clients| ==> PcFits(clients[i])
    ensures Holders(clients, k) == Out(clients, Counted(k))
  {
    if clients != [] {
      var last := clients[|clients| - 1];
      SettledHolders(clients[..|clients| - 1], k);
      NeedsWhatCounts(last.call, k);
    }
  }

  /** There is room for a call of this organisation on this queue, counted in calls. */
  ghost predicate FewEnough(clients: seq<Client>, org: string, queue: string, orgLimit: int) {
    if queue == "embed-backfill" then Out(clients, OnBackfill()) < 2
    else
      && Out(clients, BatchOf(org)) < orgLimit && Out(clients, Batch()) < 40
      && (queue in {"extract", "ocr", "chunk"} ==> Out(clients, UploadOf(org)) < 5)
      && (queue == "ocr" ==> Out(clients, OnOcr()) < 4)
  }

  lemma RoomIff(c: Counters, clients: seq<Client>, call: Call)
    requires forall k :: At(c, k) == Out(clients, Counted(k))
    ensures HasRoom(c, call) <==> FewEnough(clients, call.org, call.queue, call.orgLimit)
  {
    if call.queue == "embed-backfill" {
      assert call.Needs(BackfillGlobal);
    } else {
      RoomOneByOne(c, call);
    }
  }

  /**
   After any run in which the calls so far hold their slots or have returned, the next call is
   given its slot exactly when few enough calls are out, and is refused otherwise.
   */
  lemma GrantedExactlyWhen(actions: seq<Action>, call: Call)
    requires Settled(Run(actions).clients)
    ensures var w := Run(actions);
      var pc := Solo(w.counters, Entry(call)).1.pc;
      && (pc.Holding? <==> FewEnough(w.clients, call.org, call.queue, call.orgLimit))
      && (!pc.Holding? ==> pc.Refused?)
  {
    var w := Run(actions);
    CountersAreHolders(actions);
    forall k ensures At(w.counters, k) == Out(w.clients, Counted(k)) {
      SettledHolders(w.clients, k);
    }
    RoomIff(w.counters, w.clients, call);
    SoloIsTryAcquire(w.counters, call);
  }
}

/**
 Two stores of running jobs: one keeps a map, the other keeps cache entries per organisation
 and a separate index of the active ones. Sequential calls; the cache loses nothing.
 */
module JobLiveness {
  import opened Common
  import opened OrderedMaps

  datatype JobRecord = JobRecord(
    queue: string,
    jobId: string,
    orgId: string,
    correlationId: string,
    startedAtMs: int,
    lastHeartbeatAtMs: int,
    stepType: Option<string>,
    payload: string)

  datatype IndexEntry = IndexEntry(orgId: string, key: string)

  const CACHE_PREFIX := "job-liveness:"

  function Key(queue: string, jobId: string): string { queue + ":" + jobId }

  function KeyOf(record: JobRecord): string { Key(record.queue, record.jobId) }

  /** buildLivenessCacheKey, from the key of the map store. */
  function CacheKey(key: string): string { CACHE_PREFIX + key }

  lemma CacheKeysDiffer(a: string, b: string)
    ensures CacheKey(a) == CacheKey(b) <==> a == b
  {
    if CacheKey(a) == CacheKey(b) {
      assert a == CacheKey(a)[|CACHE_PREFIX|..] && b == CacheKey(b)[|CACHE_PREFIX|..];
    }
  }

  // ----- the map store -----

  type Memory = OrderedMap<string, JobRecord>

  function MemoryGet(m: Memory, key: string): Option<JobRecord> {
    if key in m.entries then Some(m.entries[key]) else None
  }

  function MemoryRegister(m: Memory, record: JobRecord): Memory { m.Set(KeyOf(record), record) }

  function MemoryHeartbeat(m: Memory, key: string, atMs: int): Memory {
    if key in m.entries then m.Set(key, m.entries[key].(lastHeartbeatAtMs := atMs)) else m
  }

  class InMemoryJobLivenessStore {
    var records: Memory

    constructor ()
      ensures records == OrderedMap([], map[])
    {
      records := OrderedMap([], map[]);
    }

    method Register(record: JobRecord)
      modifies this
      ensures records == MemoryRegister(old(records), record)
    {
      records := records.Set(Key(record.queue, record.jobId), record);
    }

    method Heartbeat(queue: string, jobId: string, atMs: int) returns (r: Option<JobRecord>)
      modifies this
      ensures records == MemoryHeartbeat(old(records), Key(queue, jobId), atMs)
      ensures r == MemoryGet(records, Key(queue, jobId))
    {
      var key := Key(queue, jobId);
      if key !in records.entries {
        return None;
      }
      var existing := records.entries[key].(lastHeartbeatAtMs := atMs);
      records := records.Set(key, existing);
      return Some(existing);
    }

    method Get(queue: string, jobId: string) returns (r: Option<JobRecord>)
      ensures r == MemoryGet(records, Key(queue, jobId))
    {
      var key := Key(queue, jobId);
      r := if key !in records.entries then None else Some(records.entries[key]);
    }

    method Remove(queue: string, jobId: string)
      modifies this
      ensures records == old(records).Delete(Key(queue, jobId))
    {
      records := records.Delete(Key(queue, jobId));
    }

    method ListActive() returns (r: seq<JobRecord>)
      requires records.Valid()
      ensures r == records.Values()
    {
      r := records.Values();
    }
  }

  // ----- the cache store -----

  datatype Cached = Cached(index: seq<IndexEntry>, cache: map<(string, string), JobRecord>)

  /** The first index entry with the key. */
  function FindEntry(index: seq<IndexEntry>, key: string): Option<IndexEntry> {
    if index == [] then None else if index[0].key == key then Some(index[0]) else FindEntry(index[1..], key)
  }

  function Fetch(c: Cached, entry: IndexEntry): Option<JobRecord> {
    if (entry.orgId, entry.key) in c.cache then Some(c.cache[(entry.orgId, entry.key)]) else None
  }

  function FindByQueueJob(c: Cached, key: string): Option<JobRecord> {
    var entry := FindEntry(c.index, CacheKey(key));
    if entry.None? then None else Fetch(c, entry.value)
  }

  function WithEntry(index: seq<IndexEntry>, entry: IndexEntry): seq<IndexEntry> {
    if entry in index then index else index + [entry]
  }

  function CachedRegister(c: Cached, record: JobRecord): Cached {
    var key := CacheKey(KeyOf(record));
    Cached(WithEntry(c.index, IndexEntry(record.orgId, key)), c.cache[(record.orgId, key) := record])
  }

  function CachedHeartbeat(c: Cached, key: string, atMs: int): Cached {
    var found := FindByQueueJob(c, key);
    if found.None? then c
    else c.(cache := c.cache[(found.value.orgId, CacheKey(key)) := found.value.(lastHeartbeatAtMs := atMs)])
  }

  function CachedRemove(c: Cached, key: string): Cached {
    var found := FindByQueueJob(c, key);
    if found.None? then c
    else
      var entry := IndexEntry(found.value.orgId, CacheKey(key));
      Cached(Filter(c.index, Other(entry)), c.cache - {(entry.orgId, entry.key)})
  }

  /** The records behind the index, skipping entries whose record is gone. */
  function Listed(c: Cached, index: seq<IndexEntry>): seq<JobRecord> {
    if index == [] then []
    else
      var last := Fetch(c, index[|index| - 1]);
      Listed(c, index[..|index| - 1]) + if last.Some? then [last.value] else []
  }

  class RedisJobLivenessStore {
    var index: seq<IndexEntry>
    var cache: map<(string, string), JobRecord>

    ghost function State(): Cached
      reads this
    {
      Cached(index, cache)
    }

    constructor ()
      ensures State() == Cached([], map[])
    {
      index, cache := [], map[];
    }

    method Register(record: JobRecord)
      modifies this
      ensures State() == CachedRegister(old(State()), record)
    {
      var key := CacheKey(Key(record.queue, record.jobId));
      cache := cache[(record.orgId, key) := record];
      if IndexEntry(record.orgId, key) !in index {
        index := index + [IndexEntry(record.orgId, key)];
      }
    }

    method Get(queue: string, jobId: string) returns (r: Option<JobRecord>)
      ensures r == FindByQueueJob(State(), Key(queue, jobId))
    {
      var entry := FindEntry(index, CacheKey(Key(queue, jobId)));
      if entry.None? {
        return None;
      }
      return Fetch(Cached(index, cache), entry.value);
    }

    method Heartbeat(queue: string, jobId: string, atMs: int) returns (r: Option<JobRecord>)
      modifies this
      ensures State() == CachedHeartbeat(old(State()), Key(queue, jobId), atMs)
      ensures r == var found := old(FindByQueueJob(State(), Key(queue, jobId)));
        if found.None? then None else Some(found.value.(lastHeartbeatAtMs := atMs))
    {
      var existing := Get(queue, jobId);
      if existing.None? {
        return None;
      }
      var beaten := existing.value.(lastHeartbeatAtMs := atMs);
      cache := cache[(beaten.orgId, CacheKey(Key(queue, jobId))) := beaten];
      return Some(beaten);
    }

    method Remove(queue: string, jobId: string)
      modifies this
      ensures State() == CachedRemove(old(State()), Key(queue, jobId))
    {
      var existing := Get(queue, jobId);
      if existing.None? {
        return;
      }
      var entry := IndexEntry(existing.value.orgId, CacheKey(Key(queue, jobId)));
      cache := cache - {(entry.orgId, entry.key)};
      index := Filter(index, Other(entry));
    }

    method ListActive() returns (r: seq<JobRecord>)
      ensures r == Listed(State(), index)
    {
      r := [];
      for i := 0 to |index|
        invariant r == Listed(State(), index[..i])
      {
        assert index[..i + 1][..i] == index[..i];
        var raw := Fetch(Cached(index, cache), index[i]);
        if raw.Some? {
          r := r + [raw.value];
        }
      }
      TakeAll(index);
    }
  }

  // ----- refinement -----

  /** The index that lists these keys in order, each with the organisation of its record. */
  function Indexed(keys: seq<string>, entries: map<string, JobRecord>): (index: seq<IndexEntry>)
    requires forall k :: k in keys ==> k in entries
    ensures |index| == |keys|
    ensures forall i :: 0 <= i < |keys| ==> index[i] == IndexEntry(entries[keys[i]].orgId, CacheKey(keys[i]))
  {
    if keys == [] then []
    else [IndexEntry(entries[keys[0]].orgId, CacheKey(keys[0]))] + Indexed(keys[1..], entries)
  }

  /** The index lists the map's keys in order, and each record is cached under its organisation. */
  ghost predicate Refines(c: Cached, m: Memory) {
    && m.Valid()
    && c.index == Indexed(m.keys, m.entries)
    && forall k :: k in m.entries ==> Fetch(c, IndexEntry(m.entries[k].orgId, CacheKey(k))) == Some(m.entries[k])
  }

  lemma {:induction false} EntryAt(index: seq<IndexEntry>, i: nat)
    requires i < |index| && forall j :: 0 <= j < i ==> index[j].key != index[i].key
    ensures FindEntry(index, index[i].key) == Some(index[i])
  {
    if i > 0 { EntryAt(index[1..], i - 1); }
  }

  lemma {:induction false} NoEntry(index: seq<IndexEntry>, key: string)
    requires forall j :: 0 <= j < |index| ==> index[j].key != key
    ensures FindEntry(index, key) == None
  {
    if index != [] { NoEntry(index[1..], key); }
  }

  lemma IndexOfKey(c: Cached, m: Memory, i: nat, j: nat)
    requires Refines(c, m) && i < |m.keys| && j < |m.keys| && i != j
    ensures c.index[i].key != c.index[j].key
  {
    CacheKeysDiffer(m.keys[i], m.keys[j]);
  }

  lemma GetAgrees(c: Cached, m: Memory, key: string)
    requires Refines(c, m)
    ensures FindByQueueJob(c, key) == MemoryGet(m, key)
  {
    if key in m.entries {
      var i :| 0 <= i < |m.keys| && m.keys[i] == key;
      forall j | 0 <= j < i ensures c.index[j].key != c.index[i].key { IndexOfKey(c, m, i, j); }
      EntryAt(c.index, i);
    } else {
      forall j | 0 <= j < |c.index| ensures c.index[j].key != CacheKey(key) {
        assert m.keys[j] in m.keys;
        CacheKeysDiffer(m.keys[j], key);
      }
      NoEntry(c.index, CacheKey(key));
    }
  }

  lemma {:induction false} AllListed(c: Cached, index: seq<IndexEntry>, records: seq<JobRecord>)
    requires |index| == |records| && forall i :: 0 <= i < |index| ==> Fetch(c, index[i]) == Some(records[i])
    ensures Listed(c, index) == records
  {
    if index != [] {
      var n := |index| - 1;
      AllListed(c, index[..n], records[..n]);
      TakeAll(records);
    }
  }

  lemma ListAgrees(c: Cached, m: Memory)
    requires Refines(c, m)
    ensures Listed(c, c.index) == m.Values()
  {
    forall i | 0 <= i < |c.index| ensures Fetch(c, c.index[i]) == Some(m.Values()[i]) {
      assert m.keys[i] in m.entries;
    }
    AllListed(c, c.index, m.Values());
  }

  /** The job is not active under another organisation. */
  predicate SameOrg(m: Memory, record: JobRecord) {
    KeyOf(record) in m.entries ==> m.entries[KeyOf(record)].orgId == record.orgId
  }

  lemma EntryListed(c: Cached, m: Memory, key: string, orgId: string)
    requires Refines(c, m)
    ensures IndexEntry(orgId, CacheKey(key)) in c.index <==> key in m.entries && m.entries[key].orgId == orgId
  {
    var entry := IndexEntry(orgId, CacheKey(key));
    if entry in c.index {
      var i :| 0 <= i < |c.index| && c.index[i] == entry;
      CacheKeysDiffer(m.keys[i], key);
      assert m.keys[i] in m.keys;
    }
    if key in m.entries && m.entries[key].orgId == orgId {
      var i :| 0 <= i < |m.keys| && m.keys[i] == key;
      assert c.index[i] == entry;
    }
  }

  /** The records of all keys but one are untouched when that one's record is written. */
  lemma OthersKept(c: Cached, m: Memory, record: JobRecord)
    requires Refines(c, m)
    ensures forall k :: k in m.entries && k != KeyOf(record) ==>
      Fetch(CachedRegister(c, record), IndexEntry(m.entries[k].orgId, CacheKey(k))) == Some(m.entries[k])
  {
    forall k | k in m.entries && k != KeyOf(record)
      ensures Fetch(CachedRegister(c, record), IndexEntry(m.entries[k].orgId, CacheKey(k))) == Some(m.entries[k])
    {
      CacheKeysDiffer(k, KeyOf(record));
    }
  }

  lemma RegisterIndex(c: Cached, m: Memory, record: JobRecord)
    requires Refines(c, m) && SameOrg(m, record)
    ensures CachedRegister(c, record).index
      == Indexed(MemoryRegister(m, record).keys, MemoryRegister(m, record).entries)
  {
    var key := KeyOf(record);
    EntryListed(c, m, key, record.orgId);
    assert forall i :: 0 <= i < |m.keys| ==> m.keys[i] in m.keys;
  }

  lemma RegisterAgrees(c: Cached, m: Memory, record: JobRecord)
    requires Refines(c, m) && SameOrg(m, record)
    ensures Refines(CachedRegister(c, record), MemoryRegister(m, record))
  {
    RegisterIndex(c, m, record);
    RegisterValid(m, record);
    forall k | k in MemoryRegister(m, record).entries { RegisterFetch(c, m, record, k); }
  }

  lemma RegisterFetch(c: Cached, m: Memory, record: JobRecord, k: string)
    requires Refines(c, m) && k in MemoryRegister(m, record).entries
    ensures var r := MemoryRegister(m, record).entries[k];
      Fetch(CachedRegister(c, record), IndexEntry(r.orgId, CacheKey(k))) == Some(r)
  {
    OthersKept(c, m, record);
  }

  lemma RegisterValid(m: Memory, record: JobRecord)
    requires m.Valid()
    ensures MemoryRegister(m, record).Valid()
  {
  }

  /** Registering keeps the stores in step exactly when the job is not active under another organisation. */
  lemma RegisterAgreesIff(c: Cached, m: Memory, record: JobRecord)
    requires Refines(c, m)
    ensures Refines(CachedRegister(c, record), MemoryRegister(m, record)) <==> SameOrg(m, record)
  {
    if SameOrg(m, record) {
      RegisterAgrees(c, m, record);
    } else {
      EntryListed(c, m, KeyOf(record), record.orgId);
      assert |CachedRegister(c, record).index| == |MemoryRegister(m, record).keys| + 1;
    }
  }

  /** A job registered again under another organisation is listed twice: as it was, and as it is now. */
  lemma RegisteredTwice(c: Cached, m: Memory, record: JobRecord)
    requires Refines(c, m) && !SameOrg(m, record)
    ensures var c' := CachedRegister(c, record);
      Listed(c', c'.index) == m.Values() + [record]
  {
    var c' := CachedRegister(c, record);
    var records := m.Values() + [record];
    EntryListed(c, m, KeyOf(record), record.orgId);
    assert c'.index == c.index + [IndexEntry(record.orgId, CacheKey(KeyOf(record)))];
    forall i | 0 <= i < |c'.index| ensures Fetch(c', c'.index[i]) == Some(records[i]) {
      if i < |m.keys| {
        OldEntryKept(c, m, record, i);
      }
    }
    AllListed(c', c'.index, records);
  }

  lemma OldEntryKept(c: Cached, m: Memory, record: JobRecord, i: nat)
    requires Refines(c, m) && !SameOrg(m, record) && i < |m.keys|
    ensures Fetch(CachedRegister(c, record), c.index[i]) == Some(m.Values()[i])
  {
    var k := m.keys[i];
    CacheKeysDiffer(k, KeyOf(record));
    assert k in m.entries;
    assert Fetch(c, IndexEntry(m.entries[k].orgId, CacheKey(k))) == Some(m.entries[k]);
  }

  /** After a registration the two listings agree exactly when the job was not active under another organisation. */
  lemma ListingsAgreeIff(c: Cached, m: Memory, record: JobRecord)
    requires Refines(c, m)
    ensures MemoryRegister(m, record).Valid()
    ensures var c' := CachedRegister(c, record);
      Listed(c', c'.index) == MemoryRegister(m, record).Values() <==> SameOrg(m, record)
  {
    var c', m' := CachedRegister(c, record), MemoryRegister(m, record);
    RegisterValid(m, record);
    if SameOrg(m, record) {
      RegisterAgrees(c, m, record);
      ListAgrees(c', m');
    } else {
      RegisteredTwice(c, m, record);
      assert |Listed(c', c'.index)| == |m.keys| + 1 && |m'.Values()| == |m.keys|;
    }
  }

  lemma HeartbeatAgrees(c: Cached, m: Memory, key: string, atMs: int)
    requires Refines(c, m)
    ensures Refines(CachedHeartbeat(c, key, atMs), MemoryHeartbeat(m, key, atMs))
  {
    GetAgrees(c, m, key);
    if key in m.entries {
      var m' := MemoryHeartbeat(m, key, atMs);
      forall k | k in m.entries
        ensures Fetch(CachedHeartbeat(c, key, atMs), IndexEntry(m'.entries[k].orgId, CacheKey(k)))
          == Some(m'.entries[k])
      {
        BeatenFetch(c, m, key, atMs, k);
      }
      BeatenIndex(m, key, atMs);
    }
  }

  lemma BeatenIndex(m: Memory, key: string, atMs: int)
    requires m.Valid() && key in m.entries
    ensures var m' := MemoryHeartbeat(m, key, atMs);
      m'.Valid() && Indexed(m.keys, m.entries) == Indexed(m'.keys, m'.entries)
  {
  }

  lemma BeatenFetch(c: Cached, m: Memory, key: string, atMs: int, k: string)
    requires Refines(c, m) && key in m.entries && k in m.entries && FindByQueueJob(c, key) == Some(m.entries[key])
    ensures var m' := MemoryHeartbeat(m, key, atMs);
      Fetch(CachedHeartbeat(c, key, atMs), IndexEntry(m'.entries[k].orgId, CacheKey(k))) == Some(m'.entries[k])
  {
    CacheKeysDiffer(k, key);
    assert Fetch(c, IndexEntry(m.entries[k].orgId, CacheKey(k))) == Some(m.entries[k]);
  }

  lemma {:induction false} FilterIndexed(keys: seq<string>, entries: map<string, JobRecord>, key: string)
    requires key in entries && forall k :: k in keys ==> k in entries
    ensures var entry := IndexEntry(entries[key].orgId, CacheKey(key));
      Filter(Indexed(keys, entries), Other(entry))
        == Indexed(Filter(keys, Other(key)), entries - {key})
  {
    if keys != [] {
      CacheKeysDiffer(keys[0], key);
      FilterIndexed(keys[1..], entries, key);
      assert Indexed(keys, entries)[1..] == Indexed(keys[1..], entries);
      var kept := Filter(keys[1..], Other(key));
      if keys[0] != key {
        assert ([keys[0]] + kept)[1..] == kept;
      }
    }
  }

  lemma RemoveAgrees(c: Cached, m: Memory, key: string)
    requires Refines(c, m)
    ensures Refines(CachedRemove(c, key), m.Delete(key))
  {
    GetAgrees(c, m, key);
    DeleteValid(m, key);
    if key in m.entries {
      RemovedKept(c, m, key);
      FilterIndexed(m.keys, m.entries, key);
    }
  }

  lemma RemovedKept(c: Cached, m: Memory, key: string)
    requires Refines(c, m) && key in m.entries && FindByQueueJob(c, key) == Some(m.entries[key])
    ensures forall k :: k in m.entries && k != key ==>
      Fetch(CachedRemove(c, key), IndexEntry(m.entries[k].orgId, CacheKey(k))) == Some(m.entries[k])
  {
    forall k | k in m.entries && k != key
      ensures Fetch(CachedRemove(c, key), IndexEntry(m.entries[k].orgId, CacheKey(k))) == Some(m.entries[k])
    {
      CacheKeysDiffer(k, key);
    }
  }

  // ----- whole runs -----

  datatype Op =
    | Register(record: JobRecord)
    | Heartbeat(queue: string, jobId: string, atMs: int)
    | Get(queue: string, jobId: string)
    | Remove(queue: string, jobId: string)
    | ListActive

  datatype Answer = Done | One(record: Option<JobRecord>) | Many(records: seq<JobRecord>)

  function MemoryStep(m: Memory, op: Op): (r: (Memory, Answer))
    requires m.Valid()
  {
    match op
    case Register(record) => (MemoryRegister(m, record), Done)
    case Heartbeat(q, j, at) =>
      (MemoryHeartbeat(m, Key(q, j), at), One(MemoryGet(MemoryHeartbeat(m, Key(q, j), at), Key(q, j))))
    case Get(q, j) => (m, One(MemoryGet(m, Key(q, j))))
    case Remove(q, j) => (m.Delete(Key(q, j)), Done)
    case ListActive => (m, Many(m.Values()))
  }

  function CachedStep(c: Cached, op: Op): (Cached, Answer) {
    match op
    case Register(record) => (CachedRegister(c, record), Done)
    case Heartbeat(q, j, at) =>
      var found := FindByQueueJob(c, Key(q, j));
      (CachedHeartbeat(c, Key(q, j), at),
       One(if found.None? then None else Some(found.value.(lastHeartbeatAtMs := at))))
    case Get(q, j) => (c, One(FindByQueueJob(c, Key(q, j))))
    case Remove(q, j) => (CachedRemove(c, Key(q, j)), Done)
    case ListActive => (c, Many(Listed(c, c.index)))
  }

  lemma MemoryStepValid(m: Memory, op: Op)
    requires m.Valid()
    ensures MemoryStep(m, op).0.Valid()
  {
    if op.Remove? { DeleteValid(m, Key(op.queue, op.jobId)); }
  }

  /** A call does not register a job that is active under another organisation. */
  predicate Steady(m: Memory, op: Op) {
    op.Register? ==> SameOrg(m, op.record)
  }

  lemma BeatAgrees(c: Cached, m: Memory, q: string, j: string, at: int)
    requires Refines(c, m)
    ensures CachedStep(c, Heartbeat(q, j, at)).1 == MemoryStep(m, Heartbeat(q, j, at)).1
    ensures Refines(CachedStep(c, Heartbeat(q, j, at)).0, MemoryStep(m, Heartbeat(q, j, at)).0)
  {
    GetAgrees(c, m, Key(q, j));
    HeartbeatAgrees(c, m, Key(q, j), at);
  }

  lemma StepAgrees(c: Cached, m: Memory, op: Op)
    requires Refines(c, m) && Steady(m, op)
    ensures CachedStep(c, op).1 == MemoryStep(m, op).1 && Refines(CachedStep(c, op).0, MemoryStep(m, op).0)
  {
    match op
    case Register(record) => RegisterAgrees(c, m, record);
    case Heartbeat(q, j, at) => BeatAgrees(c, m, q, j, at);
    case Remove(q, j) => RemoveAgrees(c, m, Key(q, j));
    case _ => ReadAgrees(c, m, op);
  }

  lemma ReadAgrees(c: Cached, m: Memory, op: Op)
    requires Refines(c, m) && (op.Get? || op.ListActive?)
    ensures CachedStep(c, op).1 == MemoryStep(m, op).1 && CachedStep(c, op).0 == c && MemoryStep(m, op).0 == m
  {
    match op
    case Get(q, j) => GetAgrees(c, m, Key(q, j));
    case ListActive => ListAgrees(c, m);
  }

  function MemoryRun(m: Memory, ops: seq<Op>): seq<Answer>
    requires m.Valid()
    decreases |ops|
  {
    if ops == [] then []
    else
      MemoryStepValid(m, ops[0]);
      [MemoryStep(m, ops[0]).1] + MemoryRun(MemoryStep(m, ops[0]).0, ops[1..])
  }

  function CachedRun(c: Cached, ops: seq<Op>): seq<Answer>
    decreases |ops|
  {
    if ops == [] then [] else [CachedStep(c, ops[0]).1] + CachedRun(CachedStep(c, ops[0]).0, ops[1..])
  }

  predicate SteadyRun(m: Memory, ops: seq<Op>)
    requires m.Valid()
    decreases |ops|
  {
    ops == [] || (
      Steady(m, ops[0])
      && (MemoryStepValid(m, ops[0]); SteadyRun(MemoryStep(m, ops[0]).0, ops[1..])))
  }

  lemma {:induction false} RunAgrees(c: Cached, m: Memory, ops: seq<Op>)
    requires Refines(c, m) && SteadyRun(m, ops)
    ensures CachedRun(c, ops) == MemoryRun(m, ops)
    decreases |ops|
  {
    if ops != [] {
      StepAgrees(c, m, ops[0]);
      RunAgrees(CachedStep(c, ops[0]).0, MemoryStep(m, ops[0]).0, ops[1..]);
    }
  }

  /** A call after which the listings agree was steady. */
  lemma ListingShowsSteady(c: Cached, m: Memory, op: Op)
    requires Refines(c, m) && MemoryStep(m, op).0.Valid()
    requires var c' := CachedStep(c, op).0; Listed(c', c'.index) == MemoryStep(m, op).0.Values()
    ensures Steady(m, op)
  {
    if op.Register? { ListingsAgreeIff(c, m, op.record); }
  }

  /** The answers to the first n calls and to a listing after them are the same of both stores. */
  ghost predicate ListedAlike(c: Cached, m: Memory, ops: seq<Op>, n: nat)
    requires m.Valid() && n <= |ops|
  {
    CachedRun(c, ops[..n] + [ListActive]) == MemoryRun(m, ops[..n] + [ListActive])
  }

  lemma ListedAlikeStep(c: Cached, m: Memory, ops: seq<Op>, n: nat)
    requires n < |ops| && m.Valid() && MemoryStep(m, ops[0]).0.Valid() && ListedAlike(c, m, ops, n + 1)
    ensures ListedAlike(CachedStep(c, ops[0]).0, MemoryStep(m, ops[0]).0, ops[1..], n)
  {
    var run := ops[..n + 1] + [ListActive];
    assert run[0] == ops[0] && run[1..] == ops[1..][..n] + [ListActive];
    assert CachedRun(c, run)[1..] == CachedRun(CachedStep(c, ops[0]).0, run[1..]);
    assert MemoryRun(m, run)[1..] == MemoryRun(MemoryStep(m, ops[0]).0, run[1..]);
  }

  lemma ListedNow(c: Cached, m: Memory, ops: seq<Op>)
    requires m.Valid() && ListedAlike(c, m, ops, 0)
    ensures Listed(c, c.index) == m.Values()
  {
    assert ops[..0] + [ListActive] == [ListActive];
    assert CachedRun(c, [ListActive])[0] == Many(Listed(c, c.index));
    assert MemoryRun(m, [ListActive])[0] == Many(m.Values());
  }

  lemma {:induction false} AlikeIsSteady(c: Cached, m: Memory, ops: seq<Op>)
    requires Refines(c, m) && forall n :: 0 <= n <= |ops| ==> ListedAlike(c, m, ops, n)
    ensures SteadyRun(m, ops)
    decreases |ops|
  {
    if ops != [] {
      MemoryStepValid(m, ops[0]);
      var c', m' := CachedStep(c, ops[0]).0, MemoryStep(m, ops[0]).0;
      forall n | 0 <= n <= |ops[1..]| ensures ListedAlike(c', m', ops[1..], n) {
        assert ListedAlike(c, m, ops, n + 1);
        ListedAlikeStep(c, m, ops, n);
      }
      ListedNow(c', m', ops[1..]);
      ListingShowsSteady(c, m, ops[0]);
      StepAgrees(c, m, ops[0]);
      AlikeIsSteady(c', m', ops[1..]);
    }
  }

  lemma {:induction false} SteadyPrefix(m: Memory, ops: seq<Op>, n: nat)
    requires m.Valid() && SteadyRun(m, ops) && n <= |ops|
    ensures SteadyRun(m, ops[..n] + [ListActive])
    decreases n
  {
    var run := ops[..n] + [ListActive];
    MemoryStepValid(m, run[0]);
    if n == 0 {
      assert run[1..] == [];
    } else {
      assert run[0] == ops[0] && run[1..] == ops[1..][..n - 1] + [ListActive];
      SteadyPrefix(MemoryStep(m, ops[0]).0, ops[1..], n - 1);
    }
  }

  const NoJobs: Memory := OrderedMap([], map[])

  /** From empty stores, every answer of the cache store is the map store's, listings in the same order. */
  lemma CacheRefinesMap(ops: seq<Op>)
    requires SteadyRun(NoJobs, ops)
    ensures CachedRun(Cached([], map[]), ops) == MemoryRun(NoJobs, ops)
  {
    RunAgrees(Cached([], map[]), NoJobs, ops);
  }

  /**
   The cache store can be told from the map store exactly by a run that registers a job while it
   is active under another organisation: then, and only then, some listing along the run differs.
   */
  lemma CacheRefinesMapIff(ops: seq<Op>)
    ensures SteadyRun(NoJobs, ops) <==> forall n :: 0 <= n <= |ops| ==> ListedAlike(Cached([], map[]), NoJobs, ops, n)
  {
    if SteadyRun(NoJobs, ops) {
      forall n | 0 <= n <= |ops| ensures ListedAlike(Cached([], map[]), NoJobs, ops, n) {
        SteadyPrefix(NoJobs, ops, n);
        CacheRefinesMap(ops[..n] + [ListActive]);
      }
    }
    if forall n :: 0 <= n <= |ops| ==> ListedAlike(Cached([], map[]), NoJobs, ops, n) {
      AlikeIsSteady(Cached([], map[]), NoJobs, ops);
    }
  }

  lemma MovedJobListings(a: JobRecord, b: JobRecord)
    requires KeyOf(a) == KeyOf(b) && a.orgId != b.orgId
    ensures var c := CachedRegister(CachedRegister(Cached([], map[]), a), b);
      Listed(c, c.index) == [a, b]
    ensures var m := MemoryRegister(MemoryRegister(NoJobs, a), b);
      m.Valid() && m.Values() == [b]
  {
    FirstRegistered(a);
    var c, m := CachedRegister(Cached([], map[]), a), MemoryRegister(NoJobs, a);
    RegisteredTwice(c, m, b);
  }

  lemma FirstRegistered(a: JobRecord)
    ensures var c, m := CachedRegister(Cached([], map[]), a), MemoryRegister(NoJobs, a);
      Refines(c, m) && m.Values() == [a]
  {
    RegisterAgrees(Cached([], map[]), NoJobs, a);
  }

  /** Registered under one organisation and then another, a job is listed twice by the cache store, once by the map. */
  lemma MovedJobListedTwice(a: JobRecord, b: JobRecord, ops: seq<Op>)
    requires KeyOf(a) == KeyOf(b) && a.orgId != b.orgId && ops == [Register(a), Register(b), ListActive]
    ensures CachedRun(Cached([], map[]), ops) == [Done, Done, Many([a, b])]
    ensures MemoryRun(NoJobs, ops) == [Done, Done, Many([b])]
  {
    MovedJobListings(a, b);
    CachedRunOfThree(ops, Cached([], map[]));
    MemoryRunOfThree(ops, NoJobs);
  }

  lemma CachedRunOfThree(ops: seq<Op>, c: Cached)
    requires |ops| == 3 && ops[0].Register? && ops[1].Register? && ops[2].ListActive?
    ensures var c' := CachedRegister(CachedRegister(c, ops[0].record), ops[1].record);
      CachedRun(c, ops) == [Done, Done, Many(Listed(c', c'.index))]
  {
    var c1 := CachedRegister(c, ops[0].record);
    var c2 := CachedRegister(c1, ops[1].record);
    var last := ops[1..][1..];
    assert last[1..] == [];
    assert CachedRun(c2, last) == [Many(Listed(c2, c2.index))];
    assert CachedRun(c1, ops[1..]) == [Done] + CachedRun(c2, last);
  }

  lemma MemoryRunOfThree(ops: seq<Op>, m: Memory)
    requires |ops| == 3 && m.Valid() && ops[0].Register? && ops[1].Register? && ops[2].ListActive?
    ensures var m' := MemoryRegister(MemoryRegister(m, ops[0].record), ops[1].record);
      m'.Valid() && MemoryRun(m, ops) == [Done, Done, Many(m'.Values())]
  {
    var m1 := MemoryRegister(m, ops[0].record);
    var m2 := MemoryRegister(m1, ops[1].record);
    var last := ops[1..][1..];
    assert last[1..] == [];
    assert MemoryRun(m2, last) == [Many(m2.Values())];
    assert MemoryRun(m1, ops[1..]) == [Done] + MemoryRun(m2, last);
  }

  /** Any two registrations of a job name the same organisation. */
  ghost predicate OneOrgPerJob(ops: seq<Op>) {
    forall a, b :: a in ops && b in ops && a.Register? && b.Register? && KeyOf(a.record) == KeyOf(b.record) ==>
      a.record.orgId == b.record.orgId
  }

  /** Every active job is active under the organisation that all its registrations name. */
  ghost predicate OrgsFrom(m: Memory, ops: seq<Op>) {
    forall a :: a in ops && a.Register? && KeyOf(a.record) in m.entries ==>
      m.entries[KeyOf(a.record)].orgId == a.record.orgId
  }

  lemma {:induction false} OneOrgIsSteady(m: Memory, ops: seq<Op>)
    requires m.Valid() && OneOrgPerJob(ops) && OrgsFrom(m, ops)
    ensures SteadyRun(m, ops)
    decreases |ops|
  {
    if ops != [] {
      var next := MemoryStep(m, ops[0]).0;
      MemoryStepValid(m, ops[0]);
      assert forall a :: a in ops[1..] ==> a in ops;
      OneOrgIsSteady(next, ops[1..]);
    }
  }

  /** A job that always registers under one organisation is seen alike through both stores. */
  lemma OneOrgRefines(ops: seq<Op>)
    requires OneOrgPerJob(ops)
    ensures CachedRun(Cached([], map[]), ops) == MemoryRun(NoJobs, ops)
  {
    OneOrgIsSteady(NoJobs, ops);
    CacheRefinesMap(ops);
  }
}

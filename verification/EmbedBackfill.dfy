/**
 The embedding backfill: pages through a scope of chunks and writes one embedding row
 for each chunk that has none. Gateway calls succeed here and vectors are not modelled.
 */
module EmbedBackfill {
  import opened Common
  import opened OrderedMaps
  import opened EmbedBlocks

  const PAGE_SIZE := 500

  datatype Chunk = Chunk(chunkId: string, projectId: string, contentHash: string, text: string)

  /** The unique key of an embedding row. */
  datatype Key = Key(chunkId: string, modelVersion: string, contentHash: string)

  function KeyOf(c: Chunk, version: string): Key {
    Key(c.chunkId, version, c.contentHash)
  }

  /** The stored rows, each with whether its status is 'ok'. */
  type Rows = map<Key, bool>

  predicate DistinctIds(chunks: seq<Chunk>) {
    forall i, j :: 0 <= i < j < |chunks| ==> chunks[i].chunkId != chunks[j].chunkId
  }

  /** Insert with ON CONFLICT DO NOTHING. */
  function Added(rows: Rows, keys: set<Key>): (r: Rows)
    ensures r.Keys == rows.Keys + keys
    ensures forall k :: k in r ==> r[k] == if k in rows then rows[k] else true
  {
    (map k | k in keys :: true) + rows
  }

  function Keys(chunks: seq<Chunk>, version: string): set<Key> {
    if chunks == [] then {} else Keys(chunks[..|chunks| - 1], version) + {KeyOf(chunks[|chunks| - 1], version)}
  }

  lemma {:induction false} InKeys(chunks: seq<Chunk>, version: string, k: Key)
    ensures k in Keys(chunks, version) <==> exists c :: c in chunks && KeyOf(c, version) == k
  {
    if chunks != [] {
      var front, c := chunks[..|chunks| - 1], chunks[|chunks| - 1];
      InKeys(front, version, k);
      assert chunks == front + [c];
    }
  }

  predicate Embedded(rows: Rows, c: Chunk, version: string) {
    KeyOf(c, version) in rows && rows[KeyOf(c, version)]
  }

  /** A row is there, but not with status 'ok': the chunk is tried and the insert does nothing. */
  predicate Blocked(rows: Rows, c: Chunk, version: string) {
    KeyOf(c, version) in rows && !rows[KeyOf(c, version)]
  }

  function CountBlocked(rows: Rows, chunks: seq<Chunk>, version: string): nat {
    if chunks == [] then 0
    else
      var last := if Blocked(rows, chunks[|chunks| - 1], version) then 1 else 0;
      CountBlocked(rows, chunks[..|chunks| - 1], version) + last
  }

  function CountEmbedded(rows: Rows, chunks: seq<Chunk>, version: string): nat {
    if chunks == [] then 0
    else
      var last := if Embedded(rows, chunks[|chunks| - 1], version) then 1 else 0;
      CountEmbedded(rows, chunks[..|chunks| - 1], version) + last
  }

  /** What this code leaves behind: it writes rows with status 'ok' only. */
  ghost predicate AllOk(rows: Rows) {
    forall k :: k in rows ==> rows[k]
  }

  lemma {:induction false} NoneBlockedIff(rows: Rows, chunks: seq<Chunk>, version: string)
    ensures CountBlocked(rows, chunks, version) == 0 <==> forall c :: c in chunks ==> !Blocked(rows, c, version)
  {
    if chunks != [] {
      TakeAll(chunks);
      NoneBlockedIff(rows, chunks[..|chunks| - 1], version);
    }
  }

  /** Among rows that this code wrote nothing is blocked, and adding to them keeps it so. */
  lemma {:induction false} OkNeverBlocks(rows: Rows, chunks: seq<Chunk>, version: string)
    requires AllOk(rows)
    ensures CountBlocked(rows, chunks, version) == 0 && AllOk(Added(rows, Keys(chunks, version)))
  {
    NoneBlockedIff(rows, chunks, version);
  }

  lemma AddedTwice(rows: Rows, a: set<Key>, b: set<Key>)
    ensures Added(Added(rows, a), b) == Added(rows, a + b)
  {
    var twice, once := Added(Added(rows, a), b), Added(rows, a + b);
    assert twice.Keys == once.Keys;
    assert forall k :: k in once ==> twice[k] == once[k];
  }

  lemma AddedNothing(rows: Rows)
    ensures Added(rows, {}) == rows
  {
    assert Added(rows, {}).Keys == rows.Keys;
  }

  lemma AddedOne(rows: Rows, k: Key)
    ensures |Added(rows, {k})| == |rows| + if k in rows then 0 else 1
  {
    var r := Added(rows, {k});
    assert |r| == |r.Keys| && |rows| == |rows.Keys|;
    if k in rows {
      assert r.Keys == rows.Keys;
    }
  }

  lemma AddedGrows(rows: Rows, keys: set<Key>, k: Key)
    requires k !in keys
    ensures |Added(rows, keys + {k})| == |Added(rows, keys)| + if k in rows then 0 else 1
  {
    AddedTwice(rows, keys, {k});
    AddedOne(Added(rows, keys), k);
  }

  /** Inserting the keys of one more sequence of chunks. */
  lemma InsertStep(rows: Rows, done: seq<seq<Chunk>>, next: seq<Chunk>, version: string)
    ensures Added(Added(rows, Keys(Flatten(done), version)), Keys(next, version))
         == Added(rows, Keys(Flatten(done + [next]), version))
  {
    FlattenAppend(done, [next]);
    assert Flatten([next]) == next;
    KeysAppend(Flatten(done), next, version);
    AddedTwice(rows, Keys(Flatten(done), version), Keys(next, version));
  }

  lemma {:induction false} FreshKey(chunks: seq<Chunk>, c: Chunk, version: string)
    requires DistinctIds(chunks + [c])
    ensures KeyOf(c, version) !in Keys(chunks, version)
  {
    InKeys(chunks, version, KeyOf(c, version));
    forall x | x in chunks ensures x.chunkId != c.chunkId {
      var i :| 0 <= i < |chunks| && chunks[i] == x;
      assert (chunks + [c])[i] == x && (chunks + [c])[|chunks|] == c;
    }
  }

  /** The rows an insert adds are the chunks that had no row. */
  lemma {:induction false} AddedCount(rows: Rows, chunks: seq<Chunk>, version: string)
    requires DistinctIds(chunks)
    ensures |Added(rows, Keys(chunks, version))| - |rows|
         == |chunks| - CountEmbedded(rows, chunks, version) - CountBlocked(rows, chunks, version)
  {
    if chunks == [] {
      AddedNothing(rows);
    } else {
      var front, c := chunks[..|chunks| - 1], chunks[|chunks| - 1];
      TakeAll(chunks);
      AddedCount(rows, front, version);
      FreshKey(front, c, version);
      AddedGrows(rows, Keys(front, version), KeyOf(c, version));
    }
  }

  /** The counts of a page do not depend on rows of other chunks. */
  lemma {:induction false} CountsLocal(rows: Rows, other: set<Key>, chunks: seq<Chunk>, version: string)
    requires Keys(chunks, version) !! other
    ensures CountBlocked(Added(rows, other), chunks, version) == CountBlocked(rows, chunks, version)
    ensures CountEmbedded(Added(rows, other), chunks, version) == CountEmbedded(rows, chunks, version)
  {
    if chunks != [] {
      var n := |chunks| - 1;
      assert KeyOf(chunks[n], version) in Keys(chunks, version);
      assert Keys(chunks[..n], version) <= Keys(chunks, version);
      CountsLocal(rows, other, chunks[..n], version);
    }
  }

  lemma {:induction false} CountsAppend(rows: Rows, a: seq<Chunk>, b: seq<Chunk>, version: string)
    ensures CountBlocked(rows, a + b, version) == CountBlocked(rows, a, version) + CountBlocked(rows, b, version)
    ensures CountEmbedded(rows, a + b, version) == CountEmbedded(rows, a, version) + CountEmbedded(rows, b, version)
  {
    if b == [] {
      assert a + b == a;
    } else {
      assert (a + b)[..|a + b| - 1] == a + b[..|b| - 1];
      CountsAppend(rows, a, b[..|b| - 1], version);
    }
  }

  function Pending(rows: Rows, chunks: seq<Chunk>, version: string): seq<Chunk> {
    Filter(chunks, (c: Chunk) => !Embedded(rows, c, version))
  }

  lemma {:induction false} PendingCount(rows: Rows, chunks: seq<Chunk>, version: string)
    ensures |Pending(rows, chunks, version)| + CountEmbedded(rows, chunks, version) == |chunks|
  {
    if chunks != [] {
      var front, c := chunks[..|chunks| - 1], chunks[|chunks| - 1];
      PendingCount(rows, front, version);
      assert chunks == front + [c];
      FilterAppend(front, [c], (x: Chunk) => !Embedded(rows, x, version));
    }
  }

  /** Inserting the pending chunks is inserting all of them: the others have a row. */
  lemma AddedPending(rows: Rows, chunks: seq<Chunk>, version: string)
    ensures Added(rows, Keys(Pending(rows, chunks, version), version)) == Added(rows, Keys(chunks, version))
  {
    var pending := Pending(rows, chunks, version);
    forall k ensures k in rows || (k in Keys(pending, version) <==> k in Keys(chunks, version)) {
      InKeys(pending, version, k);
      InKeys(chunks, version, k);
    }
    assert Added(rows, Keys(pending, version)).Keys == Added(rows, Keys(chunks, version)).Keys;
  }

  /** Every chunk has a row for its text under this model version; older rows stay, and new ones are ok. */
  ghost predicate Fills(before: Rows, after: Rows, scope: seq<Chunk>, version: string) {
    && (forall c :: c in scope ==> Key(c.chunkId, version, c.contentHash) in after)
    && (forall k :: k in before ==> k in after && after[k] == before[k])
    && (forall k :: k in after && k !in before ==>
          after[k] && exists c :: c in scope && k == Key(c.chunkId, version, c.contentHash))
  }

  /** The chunk has an ok row for just this text and this model version. */
  function HasOkRow(rows: Rows, version: string): Chunk -> bool {
    (c: Chunk) => var k := Key(c.chunkId, version, c.contentHash); k in rows && rows[k]
  }

  lemma {:induction false} EmbeddedCount(rows: Rows, scope: seq<Chunk>, version: string)
    ensures CountEmbedded(rows, scope, version) == |Filter(scope, HasOkRow(rows, version))|
  {
    if scope != [] {
      var n := |scope| - 1;
      EmbeddedCount(rows, scope[..n], version);
      TakeAll(scope);
      FilterAppend(scope[..n], [scope[n]], HasOkRow(rows, version));
      assert [scope[n]][1..] == [];
    }
  }

  lemma RunFills(rows: Rows, scope: seq<Chunk>, version: string)
    ensures Fills(rows, Added(rows, Keys(scope, version)), scope, version)
    ensures CountEmbedded(rows, scope, version) == |Filter(scope, HasOkRow(rows, version))|
  {
    EmbeddedCount(rows, scope, version);
    forall k ensures k in Keys(scope, version) <==> exists c :: c in scope && KeyOf(c, version) == k {
      InKeys(scope, version, k);
    }
    forall c | c in scope ensures Key(c.chunkId, version, c.contentHash) in Keys(scope, version) {
      InKeys(scope, version, KeyOf(c, version));
    }
  }

  datatype WriteResult = WriteResult(written: int, skipped: int)

  datatype Outcome = Outcome(scanned: int, written: int, skipped: int)

  /** The cursor after n chunks of the scope. */
  function Cursor(scope: seq<Chunk>, n: nat): Option<string>
    requires n <= |scope|
  {
    if n == 0 then None else Some(scope[n - 1].chunkId)
  }

  /** What has been done when the first n chunks of the scope have been visited. */
  ghost predicate Progress(start: Rows, rows: Rows, scope: seq<Chunk>, version: string, r: Outcome, n: nat) {
    && n <= |scope| && r.scanned == n
    && rows == Added(start, Keys(scope[..n], version))
    && r.skipped == CountEmbedded(start, scope[..n], version)
    && r.scanned == r.written + r.skipped + CountBlocked(start, scope[..n], version)
  }

  /** And these chunks have been handed on, in the order of the scope. */
  ghost predicate Reached(start: Rows, rows: Rows, before: seq<Chunk>, visited: seq<Chunk>,
                          requests: seq<seq<Chunk>>, scope: seq<Chunk>, version: string, r: Outcome, n: nat)
  {
    Progress(start, rows, scope, version, r, n) && visited == before + scope[..n] && AllOneProject(requests)
  }

  /** The page is the next stretch of the scope, and its counts are still those of the start. */
  ghost predicate IsNext(start: Rows, rows: Rows, scope: seq<Chunk>, version: string, n: nat, page: seq<Chunk>) {
    && n + |page| <= |scope| && page == scope[n..n + |page|] && DistinctIds(page)
    && CountEmbedded(rows, page, version) == CountEmbedded(start, page, version)
    && CountBlocked(rows, page, version) == CountBlocked(start, page, version)
  }

  lemma ProgressStep(start: Rows, rows: Rows, scope: seq<Chunk>, version: string, r: Outcome, n: nat,
                     page: seq<Chunk>, w: WriteResult)
    requires Progress(start, rows, scope, version, r, n) && IsNext(start, rows, scope, version, n, page)
    requires w.skipped == CountEmbedded(start, page, version)
    requires w.written == |page| - w.skipped - CountBlocked(start, page, version)
    ensures Progress(start, Added(rows, Keys(page, version)), scope, version,
                     Outcome(r.scanned + |page|, r.written + w.written, r.skipped + w.skipped), n + |page|)
  {
    assert scope[..n] + page == scope[..n + |page|];
    RowsStep(start, scope[..n], page, version);
    CountsAppend(start, scope[..n], page, version);
  }

  lemma RowsStep(start: Rows, before: seq<Chunk>, page: seq<Chunk>, version: string)
    ensures Added(Added(start, Keys(before, version)), Keys(page, version))
         == Added(start, Keys(before + page, version))
  {
    KeysAppend(before, page, version);
    AddedTwice(start, Keys(before, version), Keys(page, version));
  }

  lemma NextPage(start: Rows, rows: Rows, scope: seq<Chunk>, version: string, r: Outcome, n: nat, page: seq<Chunk>)
    requires DistinctIds(scope) && Progress(start, rows, scope, version, r, n)
    requires page == Page(scope, Cursor(scope, n), PAGE_SIZE)
    ensures IsNext(start, rows, scope, version, n, page)
    ensures |page| < PAGE_SIZE ==> n + |page| == |scope|
    ensures page != [] ==> Cursor(scope, n + |page|) == Some(page[|page| - 1].chunkId)
  {
    PageAt(scope, n, PAGE_SIZE);
    KeysApart(scope, n, page, version);
    CountsLocal(start, Keys(scope[..n], version), page, version);
    NextCursor(scope, n, page);
  }

  lemma NextCursor(scope: seq<Chunk>, n: nat, page: seq<Chunk>)
    requires n + |page| <= |scope| && page == scope[n..n + |page|]
    ensures page != [] ==> Cursor(scope, n + |page|) == Some(page[|page| - 1].chunkId)
  {
  }

  lemma ProgressStart(rows: Rows, scope: seq<Chunk>, version: string)
    ensures Progress(rows, rows, scope, version, Outcome(0, 0, 0), 0)
  {
    assert scope[..0] == [];
    AddedNothing(rows);
  }

  /** A request to the embedding gateway: within its caps, and of one project only. */
  ghost predicate OneProject(request: seq<Chunk>) {
    && Sendable(request, TextOf)
    && forall c, d :: c in request && d in request ==> c.projectId == d.projectId
  }

  ghost predicate AllOneProject(requests: seq<seq<Chunk>>) {
    forall b :: b in requests ==> OneProject(b)
  }

  function TextOf(c: Chunk): string { c.text }

  lemma RequestSent(requests: seq<seq<Chunk>>, request: seq<Chunk>)
    requires AllOneProject(requests) && OneProject(request)
    ensures AllOneProject(requests + [request])
  {
  }

  /** A request cut from one project's chunks. */
  lemma CutFromGroup(batches: seq<seq<Chunk>>, group: seq<Chunk>, i: nat)
    requires IsPartition(batches, group, TextOf) && i < |batches|
    requires forall c, d :: c in group && d in group ==> c.projectId == d.projectId
    ensures OneProject(batches[i])
  {
    SendableIff(batches[i], TextOf);
    forall c | c in batches[i] ensures c in group { InFlatten(batches, i, c); }
  }

  lemma MembersOneProject(chunks: seq<Chunk>, p: string)
    ensures forall c, d ::
      c in Members(chunks, ProjectOf, p) && d in Members(chunks, ProjectOf, p) ==> c.projectId == d.projectId
  {
    forall c { IsMember(chunks, ProjectOf, p, c); }
  }

  class EmbeddingStore {
    const scope: seq<Chunk>
    var rows: Rows

    /** Every request made to the embedding gateway, in order. */
    ghost var requests: seq<seq<Chunk>>

    /** Every chunk handed to the embedding service, in order. */
    ghost var visited: seq<Chunk>

    constructor (scope: seq<Chunk>, rows: Rows)
      ensures this.scope == scope && this.rows == rows && visited == [] && requests == []
    {
      this.scope, this.rows, visited, requests := scope, rows, [], [];
    }

    /** The chunks of the scope after the cursor, at most limit of them. */
    method ListChunksInScope(afterChunkId: Option<string>, limit: nat) returns (page: seq<Chunk>)
      ensures page == Page(scope, afterChunkId, limit)
    {
      page := Page(scope, afterChunkId, limit);
    }

    /** One request and the insert of its rows. Returns how many rows were actually written. */
    method EmbedBatch(batch: seq<Chunk>, version: string) returns (count: int)
      modifies this`rows, this`requests
      ensures requests == old(requests) + [batch]
      ensures rows == Added(old(rows), Keys(batch, version))
      ensures count == |rows| - |old(rows)|
    {
      requests := requests + [batch];
      var before := |rows|;
      rows := Added(rows, Keys(batch, version));
      count := |rows| - before;
    }

    /** The batches of one project's pending chunks. */
    method EmbedGroup(group: seq<Chunk>, version: string) returns (written: int)
      requires forall c, d :: c in group && d in group ==> c.projectId == d.projectId
      requires AllOneProject(requests)
      modifies this`rows, this`requests
      ensures AllOneProject(requests)
      ensures rows == Added(old(rows), Keys(group, version))
      ensures written == |rows| - |old(rows)|
    {
      var batches := PlanEmbedBatches(group, TextOf);
      written := 0;
      AddedNothing(rows);
      for i := 0 to |batches|
        invariant AllOneProject(requests)
        invariant rows == Added(old(rows), Keys(Flatten(batches[..i]), version))
        invariant written == |rows| - |old(rows)|
      {
        CutFromGroup(batches, group, i);
        RequestSent(requests, batches[i]);
        var count := EmbedBatch(batches[i], version);
        written := written + count;
        TakeOneMore(batches, i);
        InsertStep(old(rows), batches[..i], batches[i], version);
      }
      TakeAll(batches);
    }

    /** The groups of pending chunks, project by project. */
    method EmbedPending(pending: seq<Chunk>, version: string) returns (written: int)
      requires AllOneProject(requests)
      modifies this`rows, this`requests
      ensures AllOneProject(requests)
      ensures rows == Added(old(rows), Keys(pending, version))
      ensures written == |rows| - |old(rows)|
    {
      var groups := GroupByProject(pending, ProjectOf);
      written := 0;
      AddedNothing(rows);
      for i := 0 to |groups|
        invariant AllOneProject(requests)
        invariant rows == Added(old(rows), Keys(Flatten(groups[..i]), version))
        invariant written == |rows| - |old(rows)|
      {
        MembersOneProject(pending, FirstSeen(Map(pending, ProjectOf))[i]);
        var count := EmbedGroup(groups[i], version);
        written := written + count;
        TakeOneMore(groups, i);
        InsertStep(old(rows), groups[..i], groups[i], version);
      }
      TakeAll(groups);
      GroupsCover(groups, pending, version);
    }

    /** Embeds the chunks of a page that have no good row yet. */
    method EmbedChunks(chunks: seq<Chunk>, version: string) returns (r: WriteResult)
      requires DistinctIds(chunks)
      requires AllOneProject(requests)
      modifies this
      ensures AllOneProject(requests)
      ensures visited == old(visited) + chunks
      ensures rows == Added(old(rows), Keys(chunks, version))
      ensures r.written
        == |chunks| - CountEmbedded(old(rows), chunks, version) - CountBlocked(old(rows), chunks, version)
      ensures r.skipped == CountEmbedded(old(rows), chunks, version)
      ensures AllOk(old(rows)) ==> AllOk(rows) && r.written + r.skipped == |chunks|
    {
      visited := visited + chunks;
      if AllOk(rows) { OkNeverBlocks(rows, chunks, version); }
      PendingCount(rows, chunks, version);
      AddedPending(rows, chunks, version);
      AddedCount(rows, chunks, version);
      var pending := Pending(rows, chunks, version);
      var skipped := |chunks| - |pending|;
      var written := EmbedPending(pending, version);
      r := WriteResult(written, skipped);
    }

    /**
     The backfill visits every chunk of the scope exactly once, in order. Every chunk it
     scanned was written, skipped, or blocked by a row that is not 'ok'; on rows that this
     code wrote, written and skipped add up to the scope.
     */
    method Run(version: string) returns (r: Outcome)
      requires DistinctIds(scope)
      requires AllOneProject(requests)
      modifies this
      ensures AllOneProject(requests)
      ensures visited == old(visited) + scope && r.scanned == |scope|
      ensures rows == Added(old(rows), Keys(scope, version))
      ensures r.skipped == CountEmbedded(old(rows), scope, version)
      ensures r.scanned == r.written + r.skipped + CountBlocked(old(rows), scope, version)
      ensures r.scanned == r.written + r.skipped <==> forall c :: c in scope ==> !Blocked(old(rows), c, version)
      ensures AllOk(old(rows)) ==> AllOk(rows) && r.scanned == r.written + r.skipped == |scope|
      ensures Fills(old(rows), rows, scope, version) && r.skipped == |Filter(scope, HasOkRow(old(rows), version))|
    {
      RunFills(rows, scope, version);
      NoneBlockedIff(rows, scope, version);
      if AllOk(rows) { OkNeverBlocks(rows, scope, version); }
      TakeAll(scope);
      r := RunPages(version, rows, visited);
    }

    /** One page embedded and added to the counts. */
    method EmbedPage(page: seq<Chunk>, version: string, sofar: Outcome,
                     ghost n: nat, ghost start: Rows, ghost before: seq<Chunk>)
      returns (r: Outcome)
      requires Reached(start, rows, before, visited, requests, scope, version, sofar, n)
      requires IsNext(start, rows, scope, version, n, page)
      modifies this
      ensures Reached(start, rows, before, visited, requests, scope, version, r, n + |page|)
    {
      ProgressStep(start, rows, scope, version, sofar, n, page,
                   WriteResult(|page| - CountEmbedded(start, page, version) - CountBlocked(start, page, version),
                               CountEmbedded(start, page, version)));
      JoinPage(before, scope, n, page);
      var result := EmbedChunks(page, version);
      r := Outcome(sofar.scanned + |page|, sofar.written + result.written, sofar.skipped + result.skipped);
    }

    /** The page behind the cursor, embedded unless it is empty. */
    method NextPageEmbedded(afterChunkId: Option<string>, version: string, sofar: Outcome,
                            ghost n: nat, ghost start: Rows, ghost before: seq<Chunk>)
      returns (r: Outcome, page: seq<Chunk>)
      requires DistinctIds(scope) && n <= |scope| && afterChunkId == Cursor(scope, n)
      requires Reached(start, rows, before, visited, requests, scope, version, sofar, n)
      modifies this
      ensures n + |page| <= |scope| && (|page| < PAGE_SIZE ==> n + |page| == |scope|)
      ensures page != [] ==> Cursor(scope, n + |page|) == Some(page[|page| - 1].chunkId)
      ensures Reached(start, rows, before, visited, requests, scope, version, r, n + |page|)
    {
      r := sofar;
      page := ListChunksInScope(afterChunkId, PAGE_SIZE);
      NextPage(start, rows, scope, version, r, n, page);
      if |page| != 0 {
        r := EmbedPage(page, version, r, n, start, before);
      }
    }

    /** The loop over the pages. */
    method RunPages(version: string, ghost start: Rows, ghost before: seq<Chunk>) returns (r: Outcome)
      requires DistinctIds(scope) && rows == start && visited == before && AllOneProject(requests)
      modifies this
      ensures Reached(start, rows, before, visited, requests, scope, version, r, |scope|)
    {
      var afterChunkId: Option<string> := None;
      r := Outcome(0, 0, 0);
      ghost var n := 0;
      ProgressStart(rows, scope, version);
      while true
        invariant n <= |scope| && afterChunkId == Cursor(scope, n)
        invariant Reached(start, rows, before, visited, requests, scope, version, r, n)
        decreases |scope| - n
      {
        var page;
        r, page := NextPageEmbedded(afterChunkId, version, r, n, start, before);
        n := n + |page|;
        if |page| < PAGE_SIZE {
          break;
        }
        afterChunkId := Some(page[|page| - 1].chunkId);
      }
    }

    /** A second run writes nothing and changes nothing. */
    method RunTwice(version: string) returns (first: Outcome, second: Outcome)
      requires DistinctIds(scope)
      requires AllOneProject(requests)
      modifies this
      ensures AllOneProject(requests)
      ensures second.written == 0 && second.scanned == first.scanned == |scope|
      ensures rows == Added(old(rows), Keys(scope, version))
    {
      first := Run(version);
      AddedTwice(old(rows), Keys(scope, version), Keys(scope, version));
      AddedCount(rows, scope, version);
      assert Keys(scope, version) + Keys(scope, version) == Keys(scope, version);
      second := Run(version);
    }
  }

  /** A chunk whose only row has another status is scanned, but neither written nor skipped. */
  method BlockedChunkUncounted(c: Chunk, version: string) returns (r: Outcome)
    ensures r.scanned == 1 && r.written == 0 && r.skipped == 0
  {
    var store := new EmbeddingStore([c], map[KeyOf(c, version) := false]);
    OneBlocked(store.rows, store.scope, c, version);
    r := store.Run(version);
  }

  lemma JoinPage(before: seq<Chunk>, scope: seq<Chunk>, n: nat, page: seq<Chunk>)
    requires n + |page| <= |scope| && page == scope[n..n + |page|]
    ensures before + scope[..n] + page == before + scope[..n + |page|]
  {
    assert scope[..n] + page == scope[..n + |page|];
  }

  lemma OneBlocked(rows: Rows, scope: seq<Chunk>, c: Chunk, version: string)
    requires scope == [c] && Blocked(rows, c, version)
    ensures CountBlocked(rows, scope, version) == 1 && CountEmbedded(rows, scope, version) == 0
  {
    assert scope[..0] == [];
  }

  lemma {:induction false} KeysAppend(a: seq<Chunk>, b: seq<Chunk>, version: string)
    ensures Keys(a + b, version) == Keys(a, version) + Keys(b, version)
  {
    if b == [] {
      assert a + b == a;
    } else {
      assert (a + b)[..|a + b| - 1] == a + b[..|b| - 1];
      KeysAppend(a, b[..|b| - 1], version);
    }
  }

  function ProjectOf(c: Chunk): string { c.projectId }

  /** Grouping by project loses no chunk and adds none. */
  lemma GroupsCover(groups: seq<seq<Chunk>>, pending: seq<Chunk>, version: string)
    requires |groups| == |FirstSeen(Map(pending, ProjectOf))|
    requires forall i :: 0 <= i < |groups| ==>
               groups[i] == Members(pending, ProjectOf, FirstSeen(Map(pending, ProjectOf))[i])
    ensures Keys(Flatten(groups), version) == Keys(pending, version)
  {
    forall c | c in pending ensures c in Flatten(groups) {
      var j := ProjectIndex(pending, c);
      assert c in groups[j];
      InFlatten(groups, j, c);
    }
    forall c | c in Flatten(groups) ensures c in pending {
      var j := FlattenFrom(groups, c);
    }
    forall k ensures k in Keys(Flatten(groups), version) <==> k in Keys(pending, version) {
      InKeys(pending, version, k);
      InKeys(Flatten(groups), version, k);
    }
  }

  lemma ProjectIndex(chunks: seq<Chunk>, c: Chunk) returns (j: nat)
    requires c in chunks
    ensures j < |FirstSeen(Map(chunks, ProjectOf))| && FirstSeen(Map(chunks, ProjectOf))[j] == c.projectId
  {
    var i :| 0 <= i < |chunks| && chunks[i] == c;
    assert Map(chunks, ProjectOf)[i] == c.projectId;
    assert c.projectId in FirstSeen(Map(chunks, ProjectOf));
    j :| 0 <= j < |FirstSeen(Map(chunks, ProjectOf))| && FirstSeen(Map(chunks, ProjectOf))[j] == c.projectId;
  }

  lemma {:induction false} InFlatten<T>(ss: seq<seq<T>>, j: nat, x: T)
    requires j < |ss| && x in ss[j]
    ensures x in Flatten(ss)
  {
    if j > 0 {
      InFlatten(ss[1..], j - 1, x);
    }
  }

  lemma {:induction false} FlattenFrom<T>(ss: seq<seq<T>>, x: T) returns (j: nat)
    requires x in Flatten(ss)
    ensures j < |ss| && x in ss[j]
  {
    if x in ss[0] {
      j := 0;
    } else {
      j := FlattenFrom(ss[1..], x);
      j := j + 1;
    }
  }

  /** Where the cursor stands: just behind the chunk with that id. */
  function Position(scope: seq<Chunk>, id: string): (p: nat)
    ensures p <= |scope|
  {
    if scope == [] then 0 else if scope[0].chunkId == id then 1
    else
      var p := Position(scope[1..], id);
      if p == 0 then 0 else p + 1
  }

  function Page(scope: seq<Chunk>, after: Option<string>, limit: nat): seq<Chunk> {
    match after
    case None => if |scope| <= limit then scope else scope[..limit]
    case Some(id) =>
      var p := Position(scope, id);
      if p == 0 then [] else if |scope| - p <= limit then scope[p..] else scope[p..p + limit]
  }

  lemma {:induction false} PositionAt(scope: seq<Chunk>, i: nat)
    requires DistinctIds(scope) && i < |scope|
    ensures Position(scope, scope[i].chunkId) == i + 1
  {
    if i > 0 {
      assert scope[0].chunkId != scope[i].chunkId;
      PositionAt(scope[1..], i - 1);
    }
  }

  /** After n chunks, the next page is the following stretch of the scope. */
  lemma PageAt(scope: seq<Chunk>, n: nat, limit: nat)
    requires DistinctIds(scope) && n <= |scope|
    ensures var page := Page(scope, Cursor(scope, n), limit);
            && n + |page| <= |scope| && page == scope[n..n + |page|] && scope[..n] + page == scope[..n + |page|]
            && (|page| < limit ==> n + |page| == |scope|)
  {
    var page := Page(scope, Cursor(scope, n), limit);
    if n > 0 {
      PositionAt(scope, n - 1);
    }
    assert page == scope[n..n + |page|];
  }

  lemma KeysApart(scope: seq<Chunk>, n: nat, page: seq<Chunk>, version: string)
    requires DistinctIds(scope) && n + |page| <= |scope| && page == scope[n..n + |page|]
    ensures DistinctIds(page) && Keys(page, version) !! Keys(scope[..n], version)
  {
    forall k | k in Keys(page, version) ensures k !in Keys(scope[..n], version) {
      InKeys(page, version, k);
      InKeys(scope[..n], version, k);
      forall c, d | c in page && d in scope[..n] ensures c.chunkId != d.chunkId {
        var i :| 0 <= i < |page| && page[i] == c;
        var j :| 0 <= j < n && scope[j] == d;
        assert page[i] == scope[n + i];
      }
    }
  }
}

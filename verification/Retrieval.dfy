/**
 The retrieval pipeline after the two searches: fuse, rerank, recheck the project, attach
 evidence, filter by quality, keep the first k. BM25 and the evidence lookup are parameters.
 */
module Retrieval {
  import opened Common
  import opened Candidates
  import opened EvidenceTypes
  import opened OrderedMaps
  import opened Sorting
  import opened Rrf

  const QUALITY_MIN := 0.5
  const K_MAX := 100

  // ----- evidence rows -----

  datatype EvidenceRow = EvidenceRow(
    id: string,
    chunkId: string,
    sourceId: string,
    stance: Stance,
    qualityScore: real,
    kind: Kind)

  datatype SourceRow = SourceRow(id: string, documentId: string)

  datatype Lookup = Lookup(evidence: seq<EvidenceRow>, sources: seq<SourceRow>)

  function RowChunk(row: EvidenceRow): string { row.chunkId }

  function RowId(row: EvidenceRow): string { row.id }

  predicate IsBodyGrounded(row: EvidenceRow) { row.kind.BodyGrounded? }

  /** The evidence rows of a chunk, in order. */
  function Rows(found: Lookup, chunkId: string): seq<EvidenceRow> {
    Members(found.evidence, RowChunk, chunkId)
  }

  /** The last source listed for a document. */
  function SourceOf(sources: seq<SourceRow>, documentId: string): Option<string> {
    if sources == [] then None
    else if sources[|sources| - 1].documentId == documentId then Some(sources[|sources| - 1].id)
    else SourceOf(sources[..|sources| - 1], documentId)
  }

  // ----- mapEvidence -----

  function AnnotationOf(rows: seq<EvidenceRow>): Kind {
    if Filter(rows, IsBodyGrounded) != [] then BodyGrounded else MetadataOnly
  }

  /** The source of the chunk's first evidence, else of its document, else the document. */
  function SourceFor(x: Ranked, found: Lookup): string {
    var rows := Rows(found, x.fused.chunkId);
    var source := SourceOf(found.sources, x.fused.documentId);
    if rows != [] then rows[0].sourceId else if source.Some? then source.value else x.fused.documentId
  }

  /** A ranked candidate with its source and all its evidence; without evidence it counts as body grounded. */
  function Mapped(x: Ranked, found: Lookup): SearchHit {
    var rows := Rows(found, x.fused.chunkId);
    SearchHit(x,
              SourceFor(x, found),
              Map(rows, RowId),
              if rows == [] then BodyGrounded else AnnotationOf(rows))
  }

  method SourcesByDocument(sources: seq<SourceRow>) returns (byDocument: map<string, string>)
    ensures forall d :: d in byDocument <==> SourceOf(sources, d).Some?
    ensures forall d :: d in byDocument ==> byDocument[d] == SourceOf(sources, d).value
  {
    byDocument := map[];
    for i := 0 to |sources|
      invariant forall d :: d in byDocument <==> SourceOf(sources[..i], d).Some?
      invariant forall d :: d in byDocument ==> byDocument[d] == SourceOf(sources[..i], d).value
    {
      assert sources[..i + 1][..i] == sources[..i];
      byDocument := byDocument[sources[i].documentId := sources[i].id];
    }
    TakeAll(sources);
  }

  function Bucket(byChunk: OrderedMap<string, seq<EvidenceRow>>, chunkId: string): seq<EvidenceRow> {
    if chunkId in byChunk.entries then byChunk.entries[chunkId] else []
  }

  lemma BucketIsRows(byChunk: OrderedMap<string, seq<EvidenceRow>>, found: Lookup, chunkId: string)
    requires Grouped(byChunk, found.evidence, RowChunk)
    ensures Bucket(byChunk, chunkId) == Rows(found, chunkId)
  {
    if chunkId !in byChunk.entries {
      assert chunkId !in byChunk.keys;
      NoMembers(found.evidence, RowChunk, chunkId);
    }
  }

  method MapHit(hit: Ranked, byChunk: OrderedMap<string, seq<EvidenceRow>>, sources: map<string, string>,
                ghost found: Lookup)
    returns (mapped: SearchHit)
    requires Grouped(byChunk, found.evidence, RowChunk)
    requires forall d :: d in sources <==> SourceOf(found.sources, d).Some?
    requires forall d :: d in sources ==> sources[d] == SourceOf(found.sources, d).value
    ensures mapped == Mapped(hit, found)
  {
    BucketIsRows(byChunk, found, hit.fused.chunkId);
    var rows := Bucket(byChunk, hit.fused.chunkId);
    var sourceId := if rows != [] then rows[0].sourceId
                    else if hit.fused.documentId in sources then sources[hit.fused.documentId]
                    else hit.fused.documentId;
    var annotation := if rows == [] then BodyGrounded else AnnotationOf(rows);
    mapped := SearchHit(hit, sourceId, Map(rows, RowId), annotation);
  }

  method MapEvidence(hits: seq<Ranked>, found: Lookup) returns (mapped: seq<SearchHit>)
    ensures mapped == Map(hits, (x: Ranked) => Mapped(x, found))
  {
    var byChunk := GroupBy(found.evidence, RowChunk);
    var sources := SourcesByDocument(found.sources);
    mapped := [];
    for i := 0 to |hits|
      invariant |mapped| == i && forall j :: 0 <= j < i ==> mapped[j] == Mapped(hits[j], found)
    {
      var hit := MapHit(hits[i], byChunk, sources, found);
      mapped := mapped + [hit];
    }
  }

  // ----- applyQualityFilter -----

  predicate Passes(row: EvidenceRow, includeUnresolved: bool, minScore: real) {
    row.qualityScore >= minScore && (row.stance.Unresolved? ==> includeUnresolved)
  }

  function PassingRows(rows: seq<EvidenceRow>, includeUnresolved: bool, minScore: real): seq<EvidenceRow> {
    Filter(rows, (row: EvidenceRow) => Passes(row, includeUnresolved, minScore))
  }

  /** A chunk is kept when it has no evidence at all, or some that passes. */
  predicate Keeps(chunkId: string, found: Lookup, includeUnresolved: bool, minScore: real) {
    Rows(found, chunkId) == [] || PassingRows(Rows(found, chunkId), includeUnresolved, minScore) != []
  }

  /** What is left of a kept hit: its passing evidence and their annotation. */
  function Passed(hit: SearchHit, found: Lookup, includeUnresolved: bool, minScore: real): SearchHit {
    var rows := PassingRows(Rows(found, hit.ChunkId()), includeUnresolved, minScore);
    if Rows(found, hit.ChunkId()) == [] then hit
    else hit.(evidenceRefs := Map(rows, RowId), annotation := AnnotationOf(rows))
  }

  function QualityFiltered(hits: seq<SearchHit>, found: Lookup, includeUnresolved: bool, minScore: real)
    : seq<SearchHit>
  {
    Map(Filter(hits, (h: SearchHit) => Keeps(h.ChunkId(), found, includeUnresolved, minScore)),
        (h: SearchHit) => Passed(h, found, includeUnresolved, minScore))
  }

  lemma FilterOneMore(hits: seq<SearchHit>, x: SearchHit, found: Lookup, includeUnresolved: bool, minScore: real)
    ensures QualityFiltered(hits + [x], found, includeUnresolved, minScore)
      == QualityFiltered(hits, found, includeUnresolved, minScore)
        + if Keeps(x.ChunkId(), found, includeUnresolved, minScore) then [Passed(x, found, includeUnresolved, minScore)]
          else []
  {
    var keeps := (h: SearchHit) => Keeps(h.ChunkId(), found, includeUnresolved, minScore);
    FilterAppend(hits, [x], keeps);
    FilterOne(x, keeps);
    MapConcat(Filter(hits, keeps), if keeps(x) then [x] else [],
              (h: SearchHit) => Passed(h, found, includeUnresolved, minScore));
  }

  lemma FilterOne<T>(x: T, p: T -> bool)
    ensures Filter([x], p) == if p(x) then [x] else []
  {
    assert [x][1..] == [];
  }

  lemma MapConcat<T, U>(a: seq<T>, b: seq<T>, f: T -> U)
    ensures Map(a + b, f) == Map(a, f) + Map(b, f)
  {
  }

  /** One turn of the loop: the hit, trimmed to its passing evidence, or nothing. */
  method FilterHit(hit: SearchHit, byChunk: OrderedMap<string, seq<EvidenceRow>>, ghost found: Lookup,
                   includeUnresolved: bool, minScore: real)
    returns (kept: seq<SearchHit>)
    requires Grouped(byChunk, found.evidence, RowChunk)
    ensures kept
      == if Keeps(hit.ChunkId(), found, includeUnresolved, minScore)
         then [Passed(hit, found, includeUnresolved, minScore)] else []
  {
    BucketIsRows(byChunk, found, hit.ChunkId());
    var rows := Bucket(byChunk, hit.ChunkId());
    if rows == [] {
      return [hit];
    }
    var surviving := PassingRows(rows, includeUnresolved, minScore);
    if surviving == [] {
      return [];
    }
    return [hit.(evidenceRefs := Map(surviving, RowId), annotation := AnnotationOf(surviving))];
  }

  method ApplyQualityFilter(hits: seq<SearchHit>, found: Lookup, includeUnresolved: bool, minScore: real := QUALITY_MIN)
    returns (kept: seq<SearchHit>)
    ensures kept == QualityFiltered(hits, found, includeUnresolved, minScore)
  {
    var byChunk := GroupBy(found.evidence, RowChunk);
    kept := [];
    for i := 0 to |hits|
      invariant kept == QualityFiltered(hits[..i], found, includeUnresolved, minScore)
    {
      TakeOneMore(hits, i);
      FilterOneMore(hits[..i], hits[i], found, includeUnresolved, minScore);
      var left := FilterHit(hits[i], byChunk, found, includeUnresolved, minScore);
      kept := kept + left;
    }
    TakeAll(hits);
  }

  // ----- rerankFused -----

  /** What the model answered, if it answered. */
  datatype RerankReply = Failed | Reply(byModel: bool, scores: seq<real>)

  datatype Method = Llm | Deterministic

  function TextsOf(fused: seq<Fused>): seq<string> {
    Map(fused, (c: Fused) => c.text)
  }

  /** The model's scores are used only for the API role and only when there is one per candidate. */
  predicate UsesModel(api: bool, fused: seq<Fused>, reply: RerankReply) {
    fused != [] && api && reply.Reply? && reply.byModel && |reply.scores| == |fused|
  }

  function ScoresUsed(api: bool, fused: seq<Fused>, reply: RerankReply, bm25: seq<string> -> seq<real>): seq<real> {
    if UsesModel(api, fused, reply) then reply.scores else bm25(TextsOf(fused))
  }

  method RerankFused(api: bool, fused: seq<Fused>, reply: RerankReply, bm25: seq<string> -> seq<real>,
                     less: (string, string) -> bool)
    returns (hits: seq<Ranked>, how: Method)
    ensures hits == OrderByScores(fused, ScoresUsed(api, fused, reply, bm25), less)
    ensures how.Llm? <==> UsesModel(api, fused, reply)
  {
    if |fused| == 0 {
      return [], Deterministic;
    }
    if !api {
      return OrderByScores(fused, bm25(TextsOf(fused)), less), Deterministic;
    }
    if reply.Reply? {
      if reply.byModel && |reply.scores| == |fused| {
        return OrderByScores(fused, reply.scores, less), Llm;
      }
    }
    return OrderByScores(fused, bm25(TextsOf(fused)), less), Deterministic;
  }

  // ----- retrieve -----

  function AuthzRecheck(hits: seq<Ranked>, projectId: string): seq<Ranked> {
    Filter(hits, (x: Ranked) => x.fused.projectId == projectId)
  }

  datatype Fallback = VectorFallback | FtsFallback | RerankFallback

  datatype Retrieved =
    | InvalidK
    | Unavailable
    | BoundaryError
    | Found(hits: seq<SearchHit>, shortfall: nat, how: Method, fallbacksUsed: seq<Fallback>)

  datatype Request = Request(projectId: string, k: int, api: bool, includeUnresolved: bool)

  function RankedChunk(x: Ranked): string { x.fused.chunkId }

  function RankedDocument(x: Ranked): string { x.fused.documentId }

  /** A reranked candidate that reaches the answer unless k cuts it off. */
  predicate Survives(x: Ranked, request: Request, found: Lookup) {
    x.fused.projectId == request.projectId && Keeps(x.fused.chunkId, found, request.includeUnresolved, QUALITY_MIN)
  }

  function RankedOf(hit: SearchHit): Ranked { hit.ranked }

  /** The hits carry exactly the evidence of their chunk that passes. */
  ghost predicate CarriesPassing(hit: SearchHit, request: Request, found: Lookup) {
    var rows := PassingRows(Rows(found, hit.ChunkId()), request.includeUnresolved, QUALITY_MIN);
    && hit.sourceId == SourceFor(hit.ranked, found)
    && hit.evidenceRefs == Map(rows, RowId)
    && (hit.annotation.BodyGrounded? <==>
        Rows(found, hit.ChunkId()) == [] || exists row :: row in rows && row.kind.BodyGrounded?)
  }

  function Take<T>(s: seq<T>, k: int): (r: seq<T>)
    requires k >= 0
    ensures |r| <= k && r <= s
  {
    if k < |s| then s[..k] else s
  }

  /** The answer: the first k of the reranked candidates that survive, in order, each with its passing evidence. */
  ghost predicate IsAnswer(hits: seq<SearchHit>, reranked: seq<Ranked>, request: Request, found: Lookup)
    requires request.k >= 0
  {
    && Map(hits, RankedOf) == Take(Filter(reranked, (x: Ranked) => Survives(x, request, found)), request.k)
    && AllCarryPassing(hits, request, found)
  }

  function Inside(fused: seq<Fused>, projectId: string): seq<Fused> {
    Filter(fused, (c: Fused) => c.projectId == projectId)
  }

  /** What is found after fusion. */
  ghost predicate IsRun(r: Retrieved, request: Request, fused: seq<Fused>, reranked: seq<Ranked>, found: Lookup)
    requires request.k >= 0
  {
    && r.Found?
    && IsAnswer(r.hits, reranked, request, found)
    && r.shortfall == |fused| - |Inside(fused, request.projectId)|
  }

  /** What the evidence lookup is asked: the surviving chunks, and their documents once each. */
  ghost predicate IsLookup(found: Lookup, reranked: seq<Ranked>, projectId: string,
                           lookup: (seq<string>, seq<string>) -> Lookup)
  {
    var surviving := AuthzRecheck(reranked, projectId);
    found == lookup(Map(surviving, RankedChunk), FirstSeen(Map(surviving, RankedDocument)))
  }

  /** The method says whether the model ranked, and a fallback is reported when it should have and did not. */
  ghost predicate Reports(r: Retrieved, request: Request, fused: seq<Fused>, fallbacks: seq<Fallback>,
                          reply: RerankReply)
  {
    && r.Found?
    && (r.how.Llm? <==> UsesModel(request.api, fused, reply))
    && r.fallbacksUsed
      == fallbacks + if request.api && fused != [] && r.how.Deterministic? then [RerankFallback] else []
  }

  method RankAndAnswer(request: Request, fused: seq<Fused>, fallbacks: seq<Fallback>,
                       reply: RerankReply, bm25: seq<string> -> seq<real>,
                       lookup: (seq<string>, seq<string>) -> Lookup, less: (string, string) -> bool)
    returns (r: Retrieved, reranked: seq<Ranked>, found: Lookup)
    requires StrictWeakOrder(less) && request.k >= 1
    ensures reranked == OrderByScores(fused, ScoresUsed(request.api, fused, reply, bm25), less)
    ensures IsLookup(found, reranked, request.projectId, lookup) && IsRun(r, request, fused, reranked, found)
    ensures Reports(r, request, fused, fallbacks, reply)
  {
    var how;
    reranked, how := RerankFused(request.api, fused, reply, bm25, less);
    var fallbacksUsed := fallbacks;
    if request.api && |fused| > 0 && how != Llm {
      fallbacksUsed := fallbacksUsed + [RerankFallback];
    }
    RerankPermutes(fused, ScoresUsed(request.api, fused, reply, bm25), less);
    var hits, shortfall;
    hits, shortfall, found := Answer(request, fused, reranked, lookup);
    r := Found(hits, shortfall, how, fallbacksUsed);
  }

  function ArmFallbacks(vectorArm: bool, ftsArm: bool): seq<Fallback> {
    (if vectorArm then [] else [VectorFallback]) + if ftsArm then [] else [FtsFallback]
  }

  /** An arm is None when it was unavailable. */
  method Retrieve(request: Request, vectorArm: Option<seq<Candidate>>, ftsArm: Option<seq<Candidate>>,
                  reply: RerankReply, bm25: seq<string> -> seq<real>,
                  lookup: (seq<string>, seq<string>) -> Lookup, less: (string, string) -> bool)
    returns (r: Retrieved, ghost fused: seq<Fused>, ghost reranked: seq<Ranked>, ghost found: Lookup)
    requires StrictWeakOrder(less)
    ensures r.InvalidK? <==> !(1 <= request.k <= 100)
    ensures r.Unavailable? <==> 1 <= request.k <= 100 && vectorArm.None? && ftsArm.None?
    ensures r.BoundaryError? <==>
      && 1 <= request.k <= 100
      && (vectorArm.Some? || ftsArm.Some?)
      && !Identified(vectorArm.GetOr([]) + ftsArm.GetOr([]))
    ensures r.Found? ==>
      && IsFusion(fused, vectorArm.GetOr([]), ftsArm.GetOr([]), less)
      && reranked == OrderByScores(fused, ScoresUsed(request.api, fused, reply, bm25), less)
      && IsLookup(found, reranked, request.projectId, lookup)
      && IsRun(r, request, fused, reranked, found)
      && Reports(r, request, fused, ArmFallbacks(vectorArm.Some?, ftsArm.Some?), reply)
      && |r.hits| <= request.k && Sound(Map(r.hits, RankedOf), request.projectId, fused, less)
  {
    fused, reranked, found := [], [], Lookup([], []);
    if !(1 <= request.k <= K_MAX) {
      return InvalidK, fused, reranked, found;
    }
    var fallbacksUsed := [];
    if vectorArm.None? { fallbacksUsed := fallbacksUsed + [VectorFallback]; }
    if ftsArm.None? { fallbacksUsed := fallbacksUsed + [FtsFallback]; }
    assert fallbacksUsed == ArmFallbacks(vectorArm.Some?, ftsArm.Some?);
    if vectorArm.None? && ftsArm.None? {
      return Unavailable, fused, reranked, found;
    }
    var fusion := FuseRrf(vectorArm.GetOr([]), ftsArm.GetOr([]), less);
    if fusion.None? {
      return BoundaryError, fused, reranked, found;
    }
    fused := fusion.value;
    r, reranked, found := RankAndAnswer(request, fusion.value, fallbacksUsed, reply, bm25, lookup, less);
    HitsAreSound(r, request, vectorArm.GetOr([]), ftsArm.GetOr([]), less, ScoresUsed(request.api, fused, reply, bm25),
                 fused, found);
  }

  method Answer(request: Request, fused: seq<Fused>, reranked: seq<Ranked>,
                lookup: (seq<string>, seq<string>) -> Lookup)
    returns (hits: seq<SearchHit>, shortfall: nat, found: Lookup)
    requires request.k >= 1 && multiset(Map(reranked, FusedOf)) == multiset(fused)
    ensures IsLookup(found, reranked, request.projectId, lookup)
    ensures IsAnswer(hits, reranked, request, found)
    ensures shortfall == |fused| - |Inside(fused, request.projectId)|
  {
    var surviving := AuthzRecheck(reranked, request.projectId);
    shortfall := if |fused| > |surviving| then |fused| - |surviving| else 0;
    SameInside(reranked, fused, request.projectId);
    found := lookup(Map(surviving, RankedChunk), FirstSeen(Map(surviving, RankedDocument)));
    var mapped := MapEvidence(surviving, found);
    var filtered := ApplyQualityFilter(mapped, found, request.includeUnresolved);
    hits := Take(filtered, request.k);
    TakenIsAnswer(reranked, request, found);
  }

  lemma TakenIsAnswer(reranked: seq<Ranked>, request: Request, found: Lookup)
    requires request.k >= 0
    ensures IsAnswer(Take(All(reranked, request, found), request.k), reranked, request, found)
  {
    var all := All(reranked, request, found);
    AllAreSurvivors(reranked, request, found);
    AllCarry(reranked, request, found);
    MapTake(all, request.k, RankedOf);
    assert forall i :: 0 <= i < |Take(all, request.k)| ==> Take(all, request.k)[i] == all[i];
  }

  lemma MapTake<T, U>(s: seq<T>, k: int, f: T -> U)
    requires k >= 0
    ensures Map(Take(s, k), f) == Take(Map(s, f), k)
  {
  }

  function All(reranked: seq<Ranked>, request: Request, found: Lookup): seq<SearchHit> {
    QualityFiltered(Map(AuthzRecheck(reranked, request.projectId), (x: Ranked) => Mapped(x, found)), found,
                    request.includeUnresolved, QUALITY_MIN)
  }

  lemma AllOneMore(reranked: seq<Ranked>, x: Ranked, request: Request, found: Lookup)
    ensures All(reranked + [x], request, found) == All(reranked, request, found)
      + if Survives(x, request, found)
        then [Passed(Mapped(x, found), found, request.includeUnresolved, QUALITY_MIN)]
        else []
  {
    FilterAppend(reranked, [x], (y: Ranked) => y.fused.projectId == request.projectId);
    var map' := (y: Ranked) => Mapped(y, found);
    var before := AuthzRecheck(reranked, request.projectId);
    if x.fused.projectId == request.projectId {
      assert AuthzRecheck(reranked + [x], request.projectId) == before + [x];
      assert Map(before + [x], map') == Map(before, map') + [Mapped(x, found)];
      FilterOneMore(Map(before, map'), Mapped(x, found), found, request.includeUnresolved, QUALITY_MIN);
    } else {
      assert AuthzRecheck(reranked + [x], request.projectId) == before;
    }
  }

  lemma PassedCarriesPassing(x: Ranked, request: Request, found: Lookup)
    requires Survives(x, request, found)
    ensures CarriesPassing(Passed(Mapped(x, found), found, request.includeUnresolved, QUALITY_MIN), request, found)
  {
    var rows := PassingRows(Rows(found, x.fused.chunkId), request.includeUnresolved, QUALITY_MIN);
    var grounded := Filter(rows, IsBodyGrounded);
    if grounded != [] { assert grounded[0] in grounded; }
  }

  ghost predicate AllCarryPassing(hits: seq<SearchHit>, request: Request, found: Lookup) {
    forall i :: 0 <= i < |hits| ==> CarriesPassing(hits[i], request, found)
  }

  lemma {:induction false} AllAreSurvivors(reranked: seq<Ranked>, request: Request, found: Lookup)
    ensures Map(All(reranked, request, found), RankedOf) == Filter(reranked, (x: Ranked) => Survives(x, request, found))
  {
    if reranked != [] {
      var n := |reranked| - 1;
      var x := reranked[n];
      TakeAll(reranked);
      AllAreSurvivors(reranked[..n], request, found);
      AllOneMore(reranked[..n], x, request, found);
      FilterAppend(reranked[..n], [x], (y: Ranked) => Survives(y, request, found));
      if Survives(x, request, found) {
        MapRanked(All(reranked[..n], request, found),
                  Passed(Mapped(x, found), found, request.includeUnresolved, QUALITY_MIN));
      }
    }
  }

  lemma MapRanked(hits: seq<SearchHit>, hit: SearchHit)
    ensures Map(hits + [hit], RankedOf) == Map(hits, RankedOf) + [hit.ranked]
  {
  }

  lemma {:induction false} AllCarry(reranked: seq<Ranked>, request: Request, found: Lookup)
    ensures AllCarryPassing(All(reranked, request, found), request, found)
  {
    if reranked != [] {
      var n := |reranked| - 1;
      TakeAll(reranked);
      AllCarry(reranked[..n], request, found);
      AllOneMore(reranked[..n], reranked[n], request, found);
      if Survives(reranked[n], request, found) {
        PassedCarriesPassing(reranked[n], request, found);
        CarryOneMore(All(reranked[..n], request, found),
                     Passed(Mapped(reranked[n], found), found, request.includeUnresolved, QUALITY_MIN), request, found);
      }
    }
  }

  lemma CarryOneMore(hits: seq<SearchHit>, hit: SearchHit, request: Request, found: Lookup)
    requires AllCarryPassing(hits, request, found) && CarriesPassing(hit, request, found)
    ensures AllCarryPassing(hits + [hit], request, found)
  {
  }

  lemma {:induction false} FilterCounts<T>(s: seq<T>, p: T -> bool, x: T)
    ensures multiset(Filter(s, p))[x] == if p(x) then multiset(s)[x] else 0
  {
    if s != [] {
      FilterCounts(s[1..], p, x);
      assert s == [s[0]] + s[1..];
    }
  }

  lemma {:induction false} RecheckIsInside(reranked: seq<Ranked>, projectId: string)
    ensures Map(AuthzRecheck(reranked, projectId), FusedOf) == Inside(Map(reranked, FusedOf), projectId)
  {
    if reranked != [] {
      RecheckIsInside(reranked[1..], projectId);
      assert Map(reranked, FusedOf)[1..] == Map(reranked[1..], FusedOf);
    }
  }

  lemma SameInside(reranked: seq<Ranked>, fused: seq<Fused>, projectId: string)
    requires multiset(Map(reranked, FusedOf)) == multiset(fused)
    ensures |AuthzRecheck(reranked, projectId)| == |Inside(fused, projectId)| <= |fused|
  {
    var a, b := Inside(Map(reranked, FusedOf), projectId), Inside(fused, projectId);
    RecheckIsInside(reranked, projectId);
    forall x ensures multiset(a)[x] == multiset(b)[x] {
      FilterCounts(Map(reranked, FusedOf), (c: Fused) => c.projectId == projectId, x);
      FilterCounts(fused, (c: Fused) => c.projectId == projectId, x);
    }
    assert multiset(a) == multiset(b);
    assert |a| == |multiset(a)| == |multiset(b)| == |b|;
  }

  // ----- what the caller can rely on -----

  lemma {:induction false} FilterKeepsDistinct<T, U>(s: seq<T>, p: T -> bool, f: T -> U)
    requires Distinct(Map(s, f))
    ensures Distinct(Map(Filter(s, p), f))
  {
    if s != [] {
      var rest, ids := Filter(s[1..], p), Map(s, f);
      assert Map(s[1..], f) == ids[1..];
      FilterKeepsDistinct(s[1..], p, f);
      forall i | 0 <= i < |rest| ensures f(rest[i]) != f(s[0]) {
        assert rest[i] in s[1..];
        var j :| 1 <= j < |s| && s[j] == rest[i];
        assert ids[j] != ids[0];
      }
    }
  }

  lemma RerankedDistinct(fused: seq<Fused>, reranked: seq<Ranked>)
    requires Distinct(Map(fused, IdOf)) && multiset(Map(reranked, FusedOf)) == multiset(fused)
    ensures Distinct(Map(reranked, RankedChunk))
  {
    MapPermuted(Map(reranked, FusedOf), fused, IdOf);
    PermutationDistinct(Map(fused, IdOf), Map(Map(reranked, FusedOf), IdOf));
    assert Map(Map(reranked, FusedOf), IdOf) == Map(reranked, RankedChunk);
  }

  lemma InFused(x: Ranked, reranked: seq<Ranked>, fused: seq<Fused>)
    requires x in reranked && multiset(Map(reranked, FusedOf)) == multiset(fused)
    ensures x.fused in fused
  {
    SameMembers(Map(reranked, FusedOf), fused);
    var j :| 0 <= j < |reranked| && reranked[j] == x;
    assert Map(reranked, FusedOf)[j] == x.fused;
  }

  /** The survivors are distinct chunks of the project, in order, and each is a fused candidate. */
  ghost predicate Sound(xs: seq<Ranked>, projectId: string, fused: seq<Fused>, less: (string, string) -> bool) {
    && Distinct(Map(xs, RankedChunk))
    && Sorted(xs, RankedOrder(less))
    && forall x :: x in xs ==> x.fused.projectId == projectId && x.fused in fused
  }

  lemma SurvivorsAreSound(fused: seq<Fused>, scores: seq<real>, less: (string, string) -> bool, request: Request,
                          found: Lookup)
    requires StrictWeakOrder(less) && Distinct(Map(fused, IdOf))
    ensures Sound(Filter(OrderByScores(fused, scores, less), (x: Ranked) => Survives(x, request, found)),
                  request.projectId, fused, less)
  {
    var reranked := OrderByScores(fused, scores, less);
    var p := (x: Ranked) => Survives(x, request, found);
    RerankPermutes(fused, scores, less);
    RerankedDistinct(fused, reranked);
    FilterKeepsDistinct(reranked, p, RankedChunk);
    FilterKeepsSorted(reranked, p, RankedOrder(less));
    forall x | x in Filter(reranked, p) ensures x.fused.projectId == request.projectId && x.fused in fused {
      InFused(x, reranked, fused);
    }
  }

  lemma PrefixIsSound(xs: seq<Ranked>, ys: seq<Ranked>, projectId: string, fused: seq<Fused>,
                      less: (string, string) -> bool)
    requires Sound(ys, projectId, fused, less) && xs <= ys
    ensures Sound(xs, projectId, fused, less)
  {
    var ids := Map(ys, RankedChunk);
    forall i, j | 0 <= i < j < |xs| ensures RankedChunk(xs[i]) != RankedChunk(xs[j]) {
      assert ids[i] != ids[j];
    }
  }

  /**
   Whichever scores reranking used: at most k hits, distinct chunks, all of the requested
   project, in order of rerank score; and each is one of the fused candidates.
   */
  lemma HitsAreSound(r: Retrieved, request: Request, vectorHits: seq<Candidate>, ftsHits: seq<Candidate>,
                     less: (string, string) -> bool, scores: seq<real>, fused: seq<Fused>, found: Lookup)
    requires StrictWeakOrder(less) && request.k >= 0
    requires IsFusion(fused, vectorHits, ftsHits, less)
    requires IsRun(r, request, fused, OrderByScores(fused, scores, less), found)
    ensures |r.hits| <= request.k && Sound(Map(r.hits, RankedOf), request.projectId, fused, less)
  {
    var all := Filter(OrderByScores(fused, scores, less), (x: Ranked) => Survives(x, request, found));
    SurvivorsAreSound(fused, scores, less, request, found);
    PrefixIsSound(Take(all, request.k), all, request.projectId, fused, less);
    assert |r.hits| == |Map(r.hits, RankedOf)|;
  }
}

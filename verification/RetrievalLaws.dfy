/**
 What a caller sees of retrieval, told from the two arms' hits, the evidence rows and the
 scores: which fields a fused candidate has, which hits come back, and what they show.
 */
module RetrievalLaws {
  import opened Common
  import opened Candidates
  import opened EvidenceTypes
  import opened OrderedMaps
  import opened Sorting
  import opened Rrf
  import opened Retrieval

  // ----- the fields of a fused candidate -----

  /** The i-th hit is the first that satisfies p. */
  ghost predicate FirstAt(hits: seq<Candidate>, p: Candidate -> bool, i: nat) {
    i < |hits| && p(hits[i]) && forall j :: 0 <= j < i ==> !p(hits[j])
  }

  ghost predicate NoneOf(hits: seq<Candidate>, p: Candidate -> bool) {
    forall j :: 0 <= j < |hits| ==> !p(hits[j])
  }

  function IsChunk(id: string): Candidate -> bool { (c: Candidate) => c.chunkId == id }

  function HasText(id: string): Candidate -> bool { (c: Candidate) => c.chunkId == id && c.text != "" }

  function HasVectorScore(id: string): Candidate -> bool {
    (c: Candidate) => c.chunkId == id && c.arm == VectorArm && c.vectorScore.Some?
  }

  function HasFtsScore(id: string): Candidate -> bool {
    (c: Candidate) => c.chunkId == id && c.arm == FtsArm && c.ftsScore.Some?
  }

  /** Ids from the first hit; text and scores from the first hit that has one. */
  ghost predicate FieldsFrom(c: Fused, hits: seq<Candidate>) {
    && (exists i: nat :: FirstAt(hits, IsChunk(c.chunkId), i)
          && c.projectId == hits[i].projectId && c.documentId == hits[i].documentId)
    && (if NoneOf(hits, HasText(c.chunkId)) then c.text == ""
        else exists i: nat :: FirstAt(hits, HasText(c.chunkId), i) && c.text == hits[i].text)
    && (if NoneOf(hits, HasVectorScore(c.chunkId)) then c.vectorScore == None
        else exists i: nat :: FirstAt(hits, HasVectorScore(c.chunkId), i) && c.vectorScore == hits[i].vectorScore)
    && (if NoneOf(hits, HasFtsScore(c.chunkId)) then c.ftsScore == None
        else exists i: nat :: FirstAt(hits, HasFtsScore(c.chunkId), i) && c.ftsScore == hits[i].ftsScore)
  }

  /** What a hit of the chunk has of its own is what FirstSome looks for. */
  ghost predicate Finds<T(!new)>(own: Place -> Option<T>, id: string, p: Candidate -> bool) {
    forall x: Place :: p(x.hit) <==> x.hit.chunkId == id && own(x).Some?
  }

  lemma {:induction false} FirstOwn<T(!new)>(ps: seq<Place>, hits: seq<Candidate>, id: string,
                                             own: Place -> Option<T>, p: Candidate -> bool) returns (i: nat)
    requires |ps| == |hits| && (forall k :: 0 <= k < |ps| ==> ps[k].hit == hits[k]) && Finds(own, id, p)
    ensures var first := FirstSome(Map(Members(ps, ChunkOf, id), own));
      if NoneOf(hits, p) then first.None? else FirstAt(hits, p, i) && first == own(ps[i])
  {
    i := 0;
    if ps != [] {
      MembersStep(ps, ChunkOf, id);
      i := FirstOwn(ps[1..], hits[1..], id, own, p);
      var rest := Members(ps[1..], ChunkOf, id);
      if ps[0].hit.chunkId == id {
        assert Map([ps[0]] + rest, own)[0] == own(ps[0]) && Map([ps[0]] + rest, own)[1..] == Map(rest, own);
      } else {
        assert [] + rest == rest;
      }
      if p(hits[0]) {
        i := 0;
      } else {
        FirstBehind(hits, p, i);
        i := i + 1;
      }
    }
  }

  lemma FirstBehind(hits: seq<Candidate>, p: Candidate -> bool, i: nat)
    requires hits != [] && !p(hits[0])
    ensures NoneOf(hits, p) <==> NoneOf(hits[1..], p)
    ensures FirstAt(hits[1..], p, i) ==> FirstAt(hits, p, i + 1) && hits[i + 1] == hits[1..][i]
  {
    if NoneOf(hits[1..], p) {
      forall j | 0 < j < |hits| ensures !p(hits[j]) { assert hits[1..][j - 1] == hits[j]; }
    }
    if NoneOf(hits, p) {
      forall j | 0 <= j < |hits| - 1 ensures !p(hits[1..][j]) { assert hits[j + 1] == hits[1..][j]; }
    }
    if FirstAt(hits[1..], p, i) {
      forall j | 0 < j < i + 1 ensures !p(hits[j]) { assert hits[1..][j - 1] == hits[j]; }
    }
  }

  function Itself(p: Place): Option<Candidate> { Some(p.hit) }

  lemma {:induction false} FirstMember(ps: seq<Place>, id: string)
    ensures var own := FirstSome(Map(Members(ps, ChunkOf, id), Itself));
      Members(ps, ChunkOf, id) != [] ==> own == Some(Members(ps, ChunkOf, id)[0].hit)
  {
  }

  /** Every fused candidate takes its fields from the hits of its chunk, the vector arm's first. */
  lemma FusedFields(r: seq<Fused>, vectorHits: seq<Candidate>, ftsHits: seq<Candidate>, less: (string, string) -> bool,
                    c: Fused)
    requires IsFusion(r, vectorHits, ftsHits, less) && c in r
    ensures FieldsFrom(c, vectorHits + ftsHits)
  {
    var hits, ps, id := vectorHits + ftsHits, Places(vectorHits) + Places(ftsHits), c.chunkId;
    var i := FirstOwn(ps, hits, id, Itself, IsChunk(id));
    FirstMember(ps, id);
    var j := FirstOwn(ps, hits, id, OwnText, HasText(id));
    var k := FirstOwn(ps, hits, id, OwnVectorScore, HasVectorScore(id));
    var l := FirstOwn(ps, hits, id, OwnFtsScore, HasFtsScore(id));
  }

  // ----- which hits come back, and what they show -----

  /** Evidence of the chunk that scores at least one half and is resolved, unless unresolved evidence is asked for. */
  predicate Counts(row: EvidenceRow, chunkId: string, includeUnresolved: bool) {
    row.chunkId == chunkId && row.qualityScore >= 0.5 && (row.stance != Unresolved || includeUnresolved)
  }

  function Counting(chunkId: string, includeUnresolved: bool): EvidenceRow -> bool {
    (row: EvidenceRow) => Counts(row, chunkId, includeUnresolved)
  }

  predicate HasRows(found: Lookup, chunkId: string) {
    exists row | row in found.evidence :: row.chunkId == chunkId
  }

  /** A candidate of the project whose chunk has no evidence, or some that counts. */
  predicate Returnable(x: Ranked, request: Request, found: Lookup) {
    && x.fused.projectId == request.projectId
    && (HasRows(found, x.fused.chunkId) ==>
          exists row | row in found.evidence :: Counts(row, x.fused.chunkId, request.includeUnresolved))
  }

  /** The source of the chunk's first evidence; without any, the last one listed for its document, or the document. */
  ghost predicate SourceShown(hit: SearchHit, found: Lookup) {
    if HasRows(found, hit.ChunkId()) then
      exists i: nat :: FirstRow(found.evidence, hit.ChunkId(), i) && hit.sourceId == found.evidence[i].sourceId
    else if exists s :: s in found.sources && s.documentId == hit.DocumentId() then
      exists i: nat :: LastSource(found.sources, hit.DocumentId(), i) && hit.sourceId == found.sources[i].id
    else hit.sourceId == hit.DocumentId()
  }

  ghost predicate FirstRow(rows: seq<EvidenceRow>, chunkId: string, i: nat) {
    i < |rows| && rows[i].chunkId == chunkId && forall j :: 0 <= j < i ==> rows[j].chunkId != chunkId
  }

  ghost predicate LastSource(sources: seq<SourceRow>, documentId: string, i: nat) {
    && i < |sources| && sources[i].documentId == documentId
    && forall j :: i < j < |sources| ==> sources[j].documentId != documentId
  }

  /** A hit lists exactly its chunk's evidence that counts, in order, and is called by what that evidence is. */
  ghost predicate Shows(hit: SearchHit, request: Request, found: Lookup) {
    && hit.evidenceRefs == Map(Filter(found.evidence, Counting(hit.ChunkId(), request.includeUnresolved)), RowId)
    && (hit.annotation == BodyGrounded <==>
          || !HasRows(found, hit.ChunkId())
          || exists row :: row in found.evidence && row.kind == BodyGrounded
                        && Counts(row, hit.ChunkId(), request.includeUnresolved))
    && SourceShown(hit, found)
  }

  lemma {:induction false} FilterTwice<T>(s: seq<T>, p: T -> bool, q: T -> bool, both: T -> bool)
    requires forall x | x in s :: both(x) <==> p(x) && q(x)
    ensures Filter(Filter(s, p), q) == Filter(s, both)
  {
    if s != [] {
      FilterTwice(s[1..], p, q, both);
      assert s[0] in s;
      FilterAppend(if p(s[0]) then [s[0]] else [], Filter(s[1..], p), q);
      assert [s[0]][1..] == [];
    }
  }

  lemma {:induction false} SameFilter<T>(s: seq<T>, p: T -> bool, q: T -> bool)
    requires forall x | x in s :: p(x) <==> q(x)
    ensures Filter(s, p) == Filter(s, q)
  {
    if s != [] {
      assert s[0] in s;
      SameFilter(s[1..], p, q);
    }
  }

  lemma MembersAre<T, K>(items: seq<T>, key: T -> K, k: K, p: T -> bool)
    requires forall x | x in items :: p(x) <==> key(x) == k
    ensures Members(items, key, k) == Filter(items, p)
  {
    var ofKey := (x: T) => key(x) == k;
    assert Members(items, key, k) == Filter(items, ofKey);
    SameFilter(items, ofKey, p);
  }

  lemma PassingIsCounting(found: Lookup, chunkId: string, includeUnresolved: bool)
    ensures PassingRows(Rows(found, chunkId), includeUnresolved, QUALITY_MIN)
         == Filter(found.evidence, Counting(chunkId, includeUnresolved))
  {
    var ofChunk := (row: EvidenceRow) => RowChunk(row) == chunkId;
    var passes := (row: EvidenceRow) => Passes(row, includeUnresolved, QUALITY_MIN);
    MembersAre(found.evidence, RowChunk, chunkId, ofChunk);
    assert PassingRows(Rows(found, chunkId), includeUnresolved, QUALITY_MIN) == Filter(Rows(found, chunkId), passes);
    FilterTwice(found.evidence, ofChunk, passes, Counting(chunkId, includeUnresolved));
  }

  lemma RowsOfChunk(found: Lookup, chunkId: string)
    ensures Rows(found, chunkId) != [] <==> HasRows(found, chunkId)
  {
    if Rows(found, chunkId) != [] {
      IsMember(found.evidence, RowChunk, chunkId, Rows(found, chunkId)[0]);
    }
    forall row | row in found.evidence && row.chunkId == chunkId ensures Rows(found, chunkId) != [] {
      IsMember(found.evidence, RowChunk, chunkId, row);
    }
  }

  lemma SurvivesIff(x: Ranked, request: Request, found: Lookup)
    ensures Survives(x, request, found) <==> Returnable(x, request, found)
  {
    var id := x.fused.chunkId;
    RowsOfChunk(found, id);
    PassingIsCounting(found, id, request.includeUnresolved);
    var counting := Filter(found.evidence, Counting(id, request.includeUnresolved));
    if counting != [] { assert counting[0] in counting; }
    forall row | row in found.evidence && Counts(row, id, request.includeUnresolved) ensures counting != [] {
      assert Counting(id, request.includeUnresolved)(row);
      assert row in counting;
    }
  }

  lemma {:induction false} FirstOfMembers(rows: seq<EvidenceRow>, chunkId: string) returns (i: nat)
    requires Members(rows, RowChunk, chunkId) != []
    ensures FirstRow(rows, chunkId, i) && Members(rows, RowChunk, chunkId)[0] == rows[i]
  {
    i := 0;
    MembersStep(rows, RowChunk, chunkId);
    if rows[0].chunkId != chunkId {
      assert [] + Members(rows[1..], RowChunk, chunkId) == Members(rows[1..], RowChunk, chunkId);
      i := FirstOfMembers(rows[1..], chunkId);
      assert forall j :: 0 < j < |rows| ==> rows[j] == rows[1..][j - 1];
      i := i + 1;
    }
  }

  lemma {:induction false} SourceIsLast(sources: seq<SourceRow>, documentId: string) returns (i: nat)
    ensures SourceOf(sources, documentId).Some? ==>
      LastSource(sources, documentId, i) && SourceOf(sources, documentId).value == sources[i].id
    ensures SourceOf(sources, documentId).Some? <==> exists s :: s in sources && s.documentId == documentId
  {
    i := 0;
    if sources != [] {
      var n := |sources| - 1;
      TakeAll(sources);
      if sources[n].documentId == documentId {
        i := n;
      } else {
        i := SourceIsLast(sources[..n], documentId);
      }
    }
  }

  lemma SourceIsShown(hit: SearchHit, found: Lookup)
    requires hit.sourceId == SourceFor(hit.ranked, found)
    ensures SourceShown(hit, found)
  {
    RowsOfChunk(found, hit.ChunkId());
    if HasRows(found, hit.ChunkId()) {
      var i := FirstOfMembers(found.evidence, hit.ChunkId());
    } else {
      var i := SourceIsLast(found.sources, hit.DocumentId());
    }
  }

  lemma CarriesIsShows(hit: SearchHit, request: Request, found: Lookup)
    requires CarriesPassing(hit, request, found)
    ensures Shows(hit, request, found)
  {
    var counting := Filter(found.evidence, Counting(hit.ChunkId(), request.includeUnresolved));
    PassingIsCounting(found, hit.ChunkId(), request.includeUnresolved);
    RowsOfChunk(found, hit.ChunkId());
    SourceIsShown(hit, found);
    forall row | row in found.evidence && Counts(row, hit.ChunkId(), request.includeUnresolved)
      ensures row in counting
    {
      assert Counting(hit.ChunkId(), request.includeUnresolved)(row);
    }
  }

  function ReturnableOf(request: Request, found: Lookup): Ranked -> bool {
    (x: Ranked) => Returnable(x, request, found)
  }

  /** The first k candidates that can be returned, or all if there are fewer, each with its evidence. */
  ghost predicate FirstReturnable(hits: seq<SearchHit>, reranked: seq<Ranked>, request: Request, found: Lookup) {
    var all := Filter(reranked, ReturnableOf(request, found));
    && |hits| == (if request.k < |all| then request.k else |all|)
    && (forall i :: 0 <= i < |hits| ==> hits[i].ranked == all[i] && Shows(hits[i], request, found))
  }

  lemma AnswerShows(hits: seq<SearchHit>, reranked: seq<Ranked>, request: Request, found: Lookup)
    requires request.k >= 0 && IsAnswer(hits, reranked, request, found)
    ensures FirstReturnable(hits, reranked, request, found)
  {
    var survives := (x: Ranked) => Survives(x, request, found);
    forall x | x in reranked ensures survives(x) <==> ReturnableOf(request, found)(x) {
      SurvivesIff(x, request, found);
    }
    SameFilter(reranked, survives, ReturnableOf(request, found));
    var all := Filter(reranked, ReturnableOf(request, found));
    assert |hits| == |Map(hits, RankedOf)| == |Take(all, request.k)|;
    forall i | 0 <= i < |hits| ensures hits[i].ranked == all[i] && Shows(hits[i], request, found) {
      assert Map(hits, RankedOf)[i] == hits[i].ranked == Take(all, request.k)[i];
      CarriesIsShows(hits[i], request, found);
    }
  }

  // ----- the ranking -----

  function TextOf(c: Fused): string { c.text }

  /** The model's scores, if the role is served by an API and it gave one for each candidate; else the lexical ones. */
  ghost predicate ScoresAre(scores: seq<real>, api: bool, fused: seq<Fused>, reply: RerankReply,
                            bm25: seq<string> -> seq<real>)
  {
    if fused != [] && api && reply.Reply? && reply.byModel && |reply.scores| == |fused| then scores == reply.scores
    else scores == bm25(Map(fused, TextOf))
  }

  /** Higher rerank scores first, then higher fused scores, then the lesser id. */
  ghost predicate InRankOrder(xs: seq<Ranked>, less: (string, string) -> bool) {
    forall i, j :: 0 <= i < j < |xs| ==>
      var a, b := xs[i], xs[j];
      && a.rerankScore >= b.rerankScore
      && (a.rerankScore == b.rerankScore ==> a.fused.rrfScore >= b.fused.rrfScore)
      && (a.rerankScore == b.rerankScore && a.fused.rrfScore == b.fused.rrfScore ==>
            !less(b.fused.chunkId, a.fused.chunkId))
  }

  /** The fused candidates, each once, in the order of the scores at their places, 0 where there is none. */
  ghost predicate RankedBy(reranked: seq<Ranked>, fused: seq<Fused>, scores: seq<real>,
                           less: (string, string) -> bool)
  {
    && multiset(Map(reranked, FusedOf)) == multiset(fused)
    && InRankOrder(reranked, less)
    && forall x :: x in reranked ==> exists i ::
         0 <= i < |fused| && x.fused == fused[i] && x.rerankScore == if i < |scores| then scores[i] else 0.0
  }

  lemma OrderIsRankOrder(xs: seq<Ranked>, less: (string, string) -> bool)
    requires Sorted(xs, RankedOrder(less))
    ensures InRankOrder(xs, less)
  {
    forall i, j | 0 <= i < j < |xs| ensures !RankedBefore(xs[j], xs[i], less) {
      assert !RankedOrder(less)(xs[j], xs[i]);
    }
  }

  lemma RankedAsScored(api: bool, fused: seq<Fused>, reply: RerankReply, bm25: seq<string> -> seq<real>,
                       less: (string, string) -> bool)
    requires StrictWeakOrder(less)
    ensures var scores := ScoresUsed(api, fused, reply, bm25);
      ScoresAre(scores, api, fused, reply, bm25) && RankedBy(OrderByScores(fused, scores, less), fused, scores, less)
  {
    var scores := ScoresUsed(api, fused, reply, bm25);
    RerankPermutes(fused, scores, less);
    OrderIsRankOrder(OrderByScores(fused, scores, less), less);
    assert TextsOf(fused) == Map(fused, TextOf);
  }

  function Elsewhere(projectId: string): Fused -> bool { (c: Fused) => c.projectId != projectId }

  lemma {:induction false} OutsideCount(fused: seq<Fused>, projectId: string)
    ensures |fused| - |Inside(fused, projectId)| == |Filter(fused, Elsewhere(projectId))|
  {
    if fused != [] { OutsideCount(fused[1..], projectId); }
  }

  /** What the report of a run says. */
  ghost predicate ReportIs(r: Retrieved, request: Request, fused: seq<Fused>, reply: RerankReply,
                           vectorArm: Option<seq<Candidate>>, ftsArm: Option<seq<Candidate>>)
    requires r.Found?
  {
    && (r.how == Llm <==> fused != [] && request.api && reply.Reply? && reply.byModel && |reply.scores| == |fused|)
    && (VectorFallback in r.fallbacksUsed <==> vectorArm == None)
    && (FtsFallback in r.fallbacksUsed <==> ftsArm == None)
    && (RerankFallback in r.fallbacksUsed <==> request.api && fused != [] && r.how == Deterministic)
    && r.shortfall == |Filter(fused, Elsewhere(request.projectId))|
  }

  function InProject(projectId: string): Ranked -> bool { (x: Ranked) => x.fused.projectId == projectId }

  function IdOfChunk(x: Ranked): string { x.fused.chunkId }

  function IdOfDocument(x: Ranked): string { x.fused.documentId }

  /** Evidence is looked up for the chunks of the project's candidates, in rank order, and for each document once. */
  ghost predicate AskedFor(found: Lookup, reranked: seq<Ranked>, projectId: string,
                           lookup: (seq<string>, seq<string>) -> Lookup)
  {
    var inside := Filter(reranked, InProject(projectId));
    found == lookup(Map(inside, IdOfChunk), FirstSeen(Map(inside, IdOfDocument)))
  }

  lemma LookupAskedFor(found: Lookup, reranked: seq<Ranked>, projectId: string,
                       lookup: (seq<string>, seq<string>) -> Lookup)
    requires IsLookup(found, reranked, projectId, lookup)
    ensures AskedFor(found, reranked, projectId, lookup)
  {
    SameFilter(reranked, (x: Ranked) => x.fused.projectId == projectId, InProject(projectId));
    var inside := Filter(reranked, InProject(projectId));
    assert inside == AuthzRecheck(reranked, projectId);
    assert Map(inside, IdOfChunk) == Map(inside, RankedChunk);
    assert Map(inside, IdOfDocument) == Map(inside, RankedDocument);
  }

  lemma ReportAsIs(r: Retrieved, request: Request, fused: seq<Fused>, reranked: seq<Ranked>, found: Lookup,
                   reply: RerankReply, vectorArm: Option<seq<Candidate>>, ftsArm: Option<seq<Candidate>>)
    requires request.k >= 0 && IsRun(r, request, fused, reranked, found)
    requires Reports(r, request, fused, ArmFallbacks(vectorArm.Some?, ftsArm.Some?), reply)
    ensures ReportIs(r, request, fused, reply, vectorArm, ftsArm)
  {
    OutsideCount(fused, request.projectId);
  }

  /** Retrieval as its caller sees it: fields, ranking, hits with their evidence, and the report. */
  method RetrieveShows(request: Request, vectorArm: Option<seq<Candidate>>, ftsArm: Option<seq<Candidate>>,
                       reply: RerankReply, bm25: seq<string> -> seq<real>,
                       lookup: (seq<string>, seq<string>) -> Lookup, less: (string, string) -> bool)
    returns (r: Retrieved, ghost fused: seq<Fused>, ghost reranked: seq<Ranked>, ghost found: Lookup,
             ghost scores: seq<real>)
    requires StrictWeakOrder(less)
    ensures r.Found? ==> forall c :: c in fused ==> FieldsFrom(c, vectorArm.GetOr([]) + ftsArm.GetOr([]))
    ensures r.Found? ==> ScoresAre(scores, request.api, fused, reply, bm25) && RankedBy(reranked, fused, scores, less)
    ensures r.Found? ==> AskedFor(found, reranked, request.projectId, lookup)
    ensures r.Found? ==> FirstReturnable(r.hits, reranked, request, found)
    ensures r.Found? ==> ReportIs(r, request, fused, reply, vectorArm, ftsArm)
  {
    r, fused, reranked, found := Retrieve(request, vectorArm, ftsArm, reply, bm25, lookup, less);
    scores := ScoresUsed(request.api, fused, reply, bm25);
    if r.Found? {
      AllFields(fused, vectorArm.GetOr([]), ftsArm.GetOr([]), less);
      RankedAsScored(request.api, fused, reply, bm25, less);
      LookupAskedFor(found, reranked, request.projectId, lookup);
      AnswerShows(r.hits, reranked, request, found);
      ReportAsIs(r, request, fused, reranked, found, reply, vectorArm, ftsArm);
    }
  }

  lemma AllFields(fused: seq<Fused>, vectorHits: seq<Candidate>, ftsHits: seq<Candidate>,
                  less: (string, string) -> bool)
    requires IsFusion(fused, vectorHits, ftsHits, less)
    ensures forall c :: c in fused ==> FieldsFrom(c, vectorHits + ftsHits)
  {
    forall c | c in fused { FusedFields(fused, vectorHits, ftsHits, less, c); }
  }
}

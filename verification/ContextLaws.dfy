/** What an assembled chat context shows, told from the hits, the lengths of their texts and the caps. */
module ContextLaws {
  import opened Common
  import opened Candidates
  import opened OrderedMaps
  import opened Sorting
  import opened ChatContext

  // ----- what a chunk of the context says -----

  /** The chunk repeats its hit. */
  ghost predicate Repeats(chunk: ContextChunk, hit: SearchHit) {
    && chunk.chunkId == hit.ranked.fused.chunkId && chunk.documentId == hit.ranked.fused.documentId
    && chunk.text == hit.ranked.fused.text && chunk.sourceId == hit.sourceId
    && chunk.evidenceIds == hit.evidenceRefs && chunk.annotation == hit.annotation
  }

  /** The chunks repeat the first hits of the line-up; the evidence ids are all theirs, each once. */
  ghost predicate Cites(context: Context, line: seq<SearchHit>) {
    && |context.chunks| <= |line|
    && (forall i :: 0 <= i < |context.chunks| ==> Repeats(context.chunks[i], line[i]))
    && Distinct(context.evidenceIds)
    && forall id :: id in context.evidenceIds <==>
         exists i :: 0 <= i < |context.chunks| && id in line[i].evidenceRefs
  }

  lemma {:induction false} InFlattened(ss: seq<seq<string>>, id: string)
    ensures id in Flatten(ss) <==> exists i :: 0 <= i < |ss| && id in ss[i]
  {
    if ss != [] {
      InFlattened(ss[1..], id);
      if i :| 0 <= i < |ss[1..]| && id in ss[1..][i] { assert id in ss[i + 1]; }
      if i :| 0 < i < |ss| && id in ss[i] { assert id in ss[1..][i - 1]; }
    }
  }

  lemma ContextCites(context: Context, line: seq<SearchHit>, maxChunks: int, tokenBudget: int)
    requires IsContext(context, line, maxChunks, tokenBudget)
    ensures Cites(context, line)
  {
    var lists := Map(context.chunks, EvidenceOf);
    forall id
      ensures id in context.evidenceIds <==> exists i :: 0 <= i < |context.chunks| && id in line[i].evidenceRefs
    {
      InFlattened(lists, id);
      assert forall i :: 0 <= i < |lists| ==> lists[i] == line[i].evidenceRefs;
    }
  }

  // ----- the caps -----

  /** The tokens of a text: one for every four characters begun, and one for the empty text. */
  function Tokens(text: string): nat { if text == "" then 1 else (|text| + 3) / 4 }

  function TokensTo(line: seq<SearchHit>, n: nat): nat
    requires n <= |line|
  {
    if n == 0 then 0 else TokensTo(line, n - 1) + Tokens(line[n - 1].ranked.fused.text)
  }

  lemma {:induction false} CostIsTokens(line: seq<SearchHit>, n: nat)
    requires n <= |line|
    ensures Cost(line[..n]) == TokensTo(line, n)
  {
    if n > 0 {
      assert line[..n][..n - 1] == line[..n - 1];
      CostIsTokens(line, n - 1);
    }
  }

  /** Within the caps, unless it is a single chunk; and the next hit would break one of them. */
  ghost predicate Filled(line: seq<SearchHit>, n: nat, maxChunks: int, tokenBudget: int) {
    && n <= |line|
    && (n > 0 ==> n <= maxChunks) && (n > 1 ==> TokensTo(line, n) <= tokenBudget)
    && (n < |line| ==> n >= maxChunks || (n > 0 && TokensTo(line, n + 1) > tokenBudget))
  }

  lemma ContextFilled(context: Context, line: seq<SearchHit>, maxChunks: int, tokenBudget: int)
    requires IsContext(context, line, maxChunks, tokenBudget)
    ensures Filled(line, |context.chunks|, maxChunks, tokenBudget)
    ensures maxChunks >= 0 ==> (context.truncated <==> |context.chunks| < |line|)
  {
    var n := |context.chunks|;
    CostIsTokens(line, n);
    if n < |line| {
      CostIsTokens(line, n + 1);
      assert !Fits(line, maxChunks, tokenBudget, n + 1);
    }
  }

  /** Without other options a context has at most 8 chunks and, unless it is one chunk, 3000 tokens. */
  method ContextByDefault(hits: seq<SearchHit>, less: (string, string) -> bool) returns (context: Context)
    ensures Cites(context, Lineup(hits, less)) && Filled(Lineup(hits, less), |context.chunks|, 8, 3000)
    ensures context.truncated <==> |context.chunks| < |Lineup(hits, less)|
  {
    context := AssembleChatContext(hits, less);
    ContextCites(context, Lineup(hits, less), 8, 3000);
    ContextFilled(context, Lineup(hits, less), 8, 3000);
  }

  // ----- the line-up -----

  /** Every hit offered has evidence. */
  lemma LineupHasEvidence(hits: seq<SearchHit>, less: (string, string) -> bool)
    ensures forall h :: h in Lineup(hits, less) ==> h in hits && |h.evidenceRefs| > 0
  {
    LineupIsGrounded(hits, less);
  }

  /** Each chunk that has a hit with evidence is offered, at a score at least as high. */
  lemma LineupCovers(hits: seq<SearchHit>, less: (string, string) -> bool, hit: SearchHit) returns (best: SearchHit)
    requires StrictWeakOrder(less) && hit in hits && |hit.evidenceRefs| > 0
    ensures best in Lineup(hits, less) && best.ranked.fused.chunkId == hit.ranked.fused.chunkId
    ensures best.ranked.rerankScore >= hit.ranked.rerankScore
  {
    best := LineupHasBest(hits, less, hit);
  }

  lemma {:induction false} DedupedSorted(s: seq<SearchHit>, before: (SearchHit, SearchHit) -> bool)
    requires Sorted(s, before)
    ensures Sorted(Deduped(s), before)
  {
    if s != [] {
      var n := |s| - 1;
      DedupedSorted(s[..n], before);
      DedupedFrom(s[..n]);
      forall h | h in Deduped(s[..n]) ensures !before(s[n], h) {
        var i :| 0 <= i < n && s[i] == h;
      }
    }
  }

  /** The hits of one document. */
  function OfDocument(line: seq<SearchHit>, d: string): seq<SearchHit> {
    Filter(line, (h: SearchHit) => h.ranked.fused.documentId == d)
  }

  /** The better score first, and of equal scores the lesser id. */
  ghost predicate BestFirst(hits: seq<SearchHit>, less: (string, string) -> bool) {
    forall i, j :: 0 <= i < j < |hits| ==>
      var a, b := hits[i].ranked, hits[j].ranked;
      a.rerankScore > b.rerankScore
      || (a.rerankScore == b.rerankScore && !less(b.fused.chunkId, a.fused.chunkId))
  }

  lemma {:induction false} OfDocumentIsMembers(line: seq<SearchHit>, d: string)
    ensures OfDocument(line, d) == Members(line, DocumentOf, d)
  {
    if line != [] {
      MembersStep(line, DocumentOf, d);
      OfDocumentIsMembers(line[1..], d);
    }
  }

  /** Each document's hits are offered best first. */
  lemma LineupBestFirst(hits: seq<SearchHit>, less: (string, string) -> bool, d: string)
    requires StrictWeakOrder(less)
    ensures BestFirst(OfDocument(Lineup(hits, less), d), less)
  {
    var order := HitOrder(less);
    var deduped := Deduped(Sort(Filter(hits, Grounded), order));
    HitOrderIsOrder(less);
    SortSorted(Filter(hits, Grounded), order);
    DedupedSorted(Sort(Filter(hits, Grounded), order), order);
    DiversifyIsFair(deduped);
    OfDocumentIsMembers(Lineup(hits, less), d);
    OfDocumentIsMembers(deduped, d);
    FilterKeepsSorted(deduped, (h: SearchHit) => h.ranked.fused.documentId == d, order);
    SortedBestFirst(OfDocument(deduped, d), less);
  }

  lemma SortedBestFirst(hits: seq<SearchHit>, less: (string, string) -> bool)
    requires Sorted(hits, HitOrder(less))
    ensures BestFirst(hits, less)
  {
    forall i, j | 0 <= i < j < |hits| ensures !HitBefore(hits[j], hits[i], less) {
      assert !HitOrder(less)(hits[j], hits[i]);
    }
  }
}

/** The records that retrieval passes along: arm hits, fused and reranked candidates, final hits. */
module Candidates {
  import opened Common
  import opened EvidenceTypes

  datatype Arm = VectorArm | FtsArm

  datatype Candidate = Candidate(
    chunkId: string,
    projectId: string,
    documentId: string,
    text: string,
    arm: Arm,
    vectorScore: Option<real>,
    ftsScore: Option<real>)

  datatype Fused = Fused(
    chunkId: string,
    projectId: string,
    documentId: string,
    text: string,
    rrfScore: real,
    vectorScore: Option<real>,
    ftsScore: Option<real>)

  datatype Ranked = Ranked(fused: Fused, rerankScore: real)

  datatype SearchHit = SearchHit(
    ranked: Ranked,
    sourceId: string,
    evidenceRefs: seq<string>,
    annotation: Kind)
  {
    function ChunkId(): string { ranked.fused.chunkId }
    function DocumentId(): string { ranked.fused.documentId }
    function Text(): string { ranked.fused.text }
  }
}

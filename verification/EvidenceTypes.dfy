/** What evidence is and says, as retrieval and admission both see it. */
module EvidenceTypes {

  datatype Stance = Supports | Contradicts | Neutral | Unresolved

  datatype Kind = BodyGrounded | MetadataOnly
}

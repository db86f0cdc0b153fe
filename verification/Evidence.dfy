/** Admission of evidence, and the walk from a citation back to its records. */
module Evidence {
  import opened Common
  import opened EvidenceTypes
  import opened Quotes

  // Body-grounded evidence is checked against its chunk, block and source before it is
  // stored. Rows are looked up by id in maps; ids of new rows are parameters.

  // ----- records -----

  datatype Document = Document(projectId: string, deleted: bool, capability: Capability)

  datatype Capability = Unrestricted | Allowed | Forbidden

  datatype Version = Version(documentId: string, versionNo: int)

  datatype Chunk = Chunk(projectId: string, versionId: string, text: string, blockIds: seq<string>)

  datatype Block = Block(versionId: string, page: int)

  datatype Source = Source(projectId: string, documentId: Option<string>, isDocument: bool)

  datatype Locator = Locator(versionId: string, blockId: string, page: real)

  datatype ExtractionMethod = Llm | Deterministic | Human

  datatype Row = Row(
    projectId: string,
    sourceId: string,
    chunkId: Option<string>,
    locator: Locator,
    text: string,
    stance: Stance,
    polarity: Option<int>,
    qualityScore: real,
    extraction: ExtractionMethod,
    aiExecutionId: Option<string>,
    kind: Kind,
    supersededById: Option<string>)

  /** The tables that admission reads and never writes. */
  datatype Library = Library(
    documents: map<string, Document>,
    versions: map<string, Version>,
    chunks: map<string, Chunk>,
    blocks: map<string, Block>,
    sources: map<string, Source>)
  {
    /** Foreign keys point at rows. */
    ghost predicate References() {
      && (forall id :: id in versions ==> versions[id].documentId in documents)
      && (forall id :: id in chunks ==> chunks[id].versionId in versions)
    }

    function ProjectOfVersion(id: string): string
      requires id in versions && versions[id].documentId in documents
    {
      documents[versions[id].documentId].projectId
    }

    /** A chunk is filed under the project of its document. */
    ghost predicate Intact() {
      && References()
      && forall id :: id in chunks ==> chunks[id].projectId == ProjectOfVersion(chunks[id].versionId)
    }

    function ChunkInProject(id: string, projectId: string): Option<Chunk> {
      if id in chunks && chunks[id].projectId == projectId then Some(chunks[id]) else None
    }
  }

  // ----- ids and locators -----

  predicate IsHex(c: char) { '0' <= c <= '9' || 'a' <= c <= 'f' || 'A' <= c <= 'F' }

  predicate IsUuid(s: string) {
    |s| == 36 && forall i :: 0 <= i < 36 ==> if i in {8, 13, 18, 23} then s[i] == '-' else IsHex(s[i])
  }

  /** A locator as it arrives; a field of another type counts as absent. */
  datatype RawLocator =
    | NotAnObject  // or an object without fields
    | Fields(blockId: Option<string>, versionId: Option<string>, page: Option<real>)

  function ParseStructureLocator(raw: RawLocator): Option<Locator> {
    if raw.NotAnObject? then None
    else if raw.blockId.None? || !IsUuid(raw.blockId.value) then None
    else if raw.versionId.None? || !IsUuid(raw.versionId.value) then None
    else if raw.page.None? || raw.page.value.Floor as real != raw.page.value || raw.page.value < 1.0 then None
    else Some(Locator(raw.versionId.value, raw.blockId.value, raw.page.value))
  }

  /** The locator as it is read back: absent fields are empty. */
  function ReadLocator(raw: RawLocator): Locator {
    if raw.NotAnObject? then Locator("", "", 0.0)
    else Locator(raw.versionId.GetOr(""), raw.blockId.GetOr(""), raw.page.GetOr(0.0))
  }

  datatype Resolution = Resolved | NoSuchBlock | WrongPage

  function LocatorPointsAtBlock(locator: Locator, block: Option<Block>): Resolution {
    if block.None? || block.value.versionId != locator.versionId then NoSuchBlock
    else if block.value.page as real != locator.page then WrongPage
    else Resolved
  }

  // ----- admission -----

  datatype Input = Input(
    sourceId: string,
    kind: Kind,
    extraction: ExtractionMethod,
    text: string,
    locator: RawLocator,
    chunkId: Option<string>,
    aiExecutionId: Option<string>,
    stance: Option<Stance>,
    qualityScore: Option<real>,  // None when it is not a finite number
    polarity: Option<int>)

  datatype Reason =
    | MissingLocator
    | UnresolvedLocator
    | PageMismatch
    | QuoteMismatch
    | CrossProjectChunk
    | BodyGroundedWithoutChunk
    | LlmWithoutExecution
    | MetadataMasquerade
    | ForbiddenBody

  datatype Created = Ok(row: Row) | Rejected(reason: Reason) | Invalid | NotFound

  /** bodyRights: a document that is gone forbids its body. */
  function BodyRights(lib: Library, documentId: string): Capability {
    if documentId in lib.documents && !lib.documents[documentId].deleted then lib.documents[documentId].capability
    else Forbidden
  }

  function SourceInProject(lib: Library, id: string, projectId: string): Option<Source> {
    if IsUuid(id) && id in lib.sources && lib.sources[id].projectId == projectId then Some(lib.sources[id]) else None
  }

  predicate WellFormed(input: Input) {
    && Trim(input.text) != ""
    && input.qualityScore.Some?
    && (input.polarity.Some? ==> -1 <= input.polarity.value <= 1)
    && (input.extraction.Llm? ==> input.aiExecutionId.Some? && IsUuid(input.aiExecutionId.value))
  }

  /** The body may be quoted, the chunk is the source's, the block is the chunk's, and the chunk holds the quote. */
  ghost predicate Grounded(lib: Library, projectId: string, source: Source, input: Input)
    requires lib.References()
  {
    && source.documentId.Some?
    && !BodyRights(lib, source.documentId.value).Forbidden?
    && input.chunkId.Some? && IsUuid(input.chunkId.value)
    && ParseStructureLocator(input.locator).Some?
    && var locator := ParseStructureLocator(input.locator).value;
    && var chunk := lib.ChunkInProject(input.chunkId.value, projectId);
    && chunk.Some?
    && lib.versions[chunk.value.versionId].documentId == source.documentId.value
    && chunk.value.versionId == locator.versionId
    && locator.blockId in chunk.value.blockIds
    && locator.blockId in lib.blocks
    && lib.blocks[locator.blockId].versionId == locator.versionId
    && lib.blocks[locator.blockId].page as real == locator.page
    && QuotedTextMatches(input.text, chunk.value.text)
  }

  /** There is a locator; a chunk, if named, may be quoted and is the project's. */
  ghost predicate Described(lib: Library, projectId: string, source: Source, input: Input) {
    && !input.locator.NotAnObject?
    && (input.chunkId.Some? && input.chunkId.value != "" ==>
      && (source.documentId.Some? ==> !BodyRights(lib, source.documentId.value).Forbidden?)
      && IsUuid(input.chunkId.value)
      && lib.ChunkInProject(input.chunkId.value, projectId).Some?)
  }

  ghost predicate Admissible(lib: Library, projectId: string, input: Input)
    requires lib.References()
  {
    && WellFormed(input)
    && var source := SourceInProject(lib, input.sourceId, projectId);
    && source.Some?
    && (if input.kind.BodyGrounded? then Grounded(lib, projectId, source.value, input)
        else Described(lib, projectId, source.value, input))
  }

  /** A rejection names something that is wrong with the input. */
  ghost predicate Explains(reason: Reason, lib: Library, projectId: string, source: Source, input: Input)
    requires lib.References()
  {
    var locator := ParseStructureLocator(input.locator);
    var chunk := if input.chunkId.Some? then lib.ChunkInProject(input.chunkId.value, projectId) else None;
    match reason
    case MissingLocator => locator.None?
    case ForbiddenBody => source.documentId.None?
    case MetadataMasquerade => source.documentId.Some? && BodyRights(lib, source.documentId.value).Forbidden?
    case BodyGroundedWithoutChunk => input.chunkId.None? || !IsUuid(input.chunkId.value)
    case CrossProjectChunk =>
      || !IsUuid(input.chunkId.GetOr(""))
      || chunk.None?
      || source.documentId != Some(lib.versions[chunk.value.versionId].documentId)
    case UnresolvedLocator =>
      && locator.Some? && chunk.Some?
      && (chunk.value.versionId == locator.value.versionId && locator.value.blockId in chunk.value.blockIds ==>
          locator.value.blockId !in lib.blocks
          || lib.blocks[locator.value.blockId].versionId != locator.value.versionId)
    case PageMismatch =>
      && locator.Some? && locator.value.blockId in lib.blocks
      && lib.blocks[locator.value.blockId].page as real != locator.value.page
    case QuoteMismatch => chunk.Some? && !QuotedTextMatches(input.text, chunk.value.text)
    case LlmWithoutExecution => false
  }

  /** The row that an admitted input becomes. */
  function Stored(projectId: string, input: Input): Row
    requires input.qualityScore.Some?
    requires input.kind.BodyGrounded? ==> ParseStructureLocator(input.locator).Some?
  {
    Row(projectId,
        input.sourceId,
        input.chunkId,
        if input.kind.BodyGrounded? then ParseStructureLocator(input.locator).value else ReadLocator(input.locator),
        input.text,
        input.stance.GetOr(Unresolved),
        input.polarity,
        input.qualityScore.value,
        input.extraction,
        if input.aiExecutionId.Some? && IsUuid(input.aiExecutionId.value) then input.aiExecutionId else None,
        input.kind,
        None)
  }

  datatype Validation = Accept(locator: Locator) | Refuse(reason: Reason)

  method ValidateBodyGrounded(lib: Library, projectId: string, source: Source, input: Input) returns (v: Validation)
    requires lib.References()
    ensures v.Accept? <==> Grounded(lib, projectId, source, input)
    ensures v.Accept? ==> ParseStructureLocator(input.locator) == Some(v.locator) && QuoteStands(lib, input)
    ensures v.Refuse? ==> Explains(v.reason, lib, projectId, source, input)
  {
    if source.documentId.None? { return Refuse(ForbiddenBody); }
    if BodyRights(lib, source.documentId.value).Forbidden? { return Refuse(MetadataMasquerade); }
    if input.chunkId.None? || !IsUuid(input.chunkId.value) { return Refuse(BodyGroundedWithoutChunk); }
    var parsed := ParseStructureLocator(input.locator);
    if parsed.None? { return Refuse(MissingLocator); }
    var locator := parsed.value;
    var found := lib.ChunkInProject(input.chunkId.value, projectId);
    if found.None? { return Refuse(CrossProjectChunk); }
    var chunk := found.value;
    if lib.versions[chunk.versionId].documentId != source.documentId.value { return Refuse(CrossProjectChunk); }
    if chunk.versionId != locator.versionId { return Refuse(UnresolvedLocator); }
    if locator.blockId !in chunk.blockIds { return Refuse(UnresolvedLocator); }
    var block := if locator.blockId in lib.blocks then Some(lib.blocks[locator.blockId]) else None;
    match LocatorPointsAtBlock(locator, block) {
      case Resolved =>
      case WrongPage => return Refuse(PageMismatch);
      case NoSuchBlock => return Refuse(UnresolvedLocator);
    }
    if !QuotedTextMatches(input.text, chunk.text) { return Refuse(QuoteMismatch); }
    GroundedQuotes(lib, projectId, source, input);
    return Accept(locator);
  }

  method ValidateMetadataOnly(lib: Library, projectId: string, source: Source, input: Input) returns (v: Validation)
    requires lib.References()
    ensures v.Accept? <==> Described(lib, projectId, source, input)
    ensures v.Accept? ==> v.locator == ReadLocator(input.locator)
    ensures v.Refuse? ==> Explains(v.reason, lib, projectId, source, input)
  {
    if input.locator.NotAnObject? { return Refuse(MissingLocator); }
    var capability := if source.documentId.None? then Unrestricted else BodyRights(lib, source.documentId.value);
    if input.chunkId.Some? && input.chunkId.value != "" {
      if capability.Forbidden? { return Refuse(MetadataMasquerade); }
      if !IsUuid(input.chunkId.value) { return Refuse(CrossProjectChunk); }
      if lib.ChunkInProject(input.chunkId.value, projectId).None? { return Refuse(CrossProjectChunk); }
    }
    return Accept(ReadLocator(input.locator));
  }

  // ----- admission in the records' own terms -----

  predicate HexOfLength(s: string, n: nat) { |s| == n && forall i :: 0 <= i < n ==> IsHex(s[i]) }

  /** A UUID is five groups of hexadecimal digits joined by dashes. */
  lemma UuidGroups(s: string)
    ensures IsUuid(s) <==>
      exists a, b, c, d, e :: s == Dashed(a, b, c, d, e) && HexOfLength(a, 8) && HexOfLength(b, 4)
        && HexOfLength(c, 4) && HexOfLength(d, 4) && HexOfLength(e, 12)
  {
    if IsUuid(s) {
      assert s == Dashed(s[..8], s[9..13], s[14..18], s[19..23], s[24..]);
      assert HexOfLength(s[..8], 8) && HexOfLength(s[9..13], 4) && HexOfLength(s[14..18], 4);
      assert HexOfLength(s[19..23], 4) && HexOfLength(s[24..], 12);
    }
  }

  function Dashed(a: string, b: string, c: string, d: string, e: string): string {
    a + "-" + b + "-" + c + "-" + d + "-" + e
  }

  /** The source's document is there and may be quoted. */
  ghost predicate MayQuote(lib: Library, source: Source, documentId: string) {
    && source.documentId == Some(documentId) && documentId in lib.documents
    && !lib.documents[documentId].deleted && lib.documents[documentId].capability != Forbidden
  }

  /** The locator names a block, its version, and the page it is on. */
  ghost predicate Locates(lib: Library, raw: RawLocator, blockId: string, versionId: string, page: int) {
    && raw == Fields(Some(blockId), Some(versionId), Some(page as real))
    && IsUuid(blockId) && IsUuid(versionId) && page >= 1
    && blockId in lib.blocks && lib.blocks[blockId] == Block(versionId, page)
  }

  /** The chunk is the project's, of that version of the document, and holds the block. */
  ghost predicate Holds(lib: Library, projectId: string, chunkId: string, documentId: string, versionId: string,
                        blockId: string)
  {
    && IsUuid(chunkId) && chunkId in lib.chunks && lib.chunks[chunkId].projectId == projectId
    && lib.chunks[chunkId].versionId == versionId && blockId in lib.chunks[chunkId].blockIds
    && versionId in lib.versions && lib.versions[versionId].documentId == documentId
  }

  /** One document, version, chunk, block and page fit together, and the chunk's text has the quote. */
  ghost predicate FitsTogether(lib: Library, projectId: string, source: Source, input: Input,
                               documentId: string, versionId: string, chunkId: string, blockId: string, page: int)
  {
    && MayQuote(lib, source, documentId)
    && Locates(lib, input.locator, blockId, versionId, page)
    && input.chunkId == Some(chunkId)
    && Holds(lib, projectId, chunkId, documentId, versionId, blockId)
    && QuotedTextMatches(input.text, lib.chunks[chunkId].text)
  }

  /** Body-grounded evidence is admitted exactly when its records fit together. */
  lemma GroundedIff(lib: Library, projectId: string, source: Source, input: Input)
    requires lib.References()
    ensures Grounded(lib, projectId, source, input) <==>
      exists documentId, versionId, chunkId, blockId, page ::
        FitsTogether(lib, projectId, source, input, documentId, versionId, chunkId, blockId, page)
  {
    if Grounded(lib, projectId, source, input) {
      var locator := ParseStructureLocator(input.locator).value;
      GroundedFits(lib, projectId, source, input, locator);
      assert FitsTogether(lib, projectId, source, input, source.documentId.value, locator.versionId,
                          input.chunkId.value, locator.blockId, locator.page.Floor);
    }
    forall d, v, c, b, page | FitsTogether(lib, projectId, source, input, d, v, c, b, page)
      ensures Grounded(lib, projectId, source, input)
    {
      FitsGrounded(lib, projectId, source, input, d, v, c, b, page);
    }
  }

  lemma GroundedFits(lib: Library, projectId: string, source: Source, input: Input, locator: Locator)
    requires lib.References() && Grounded(lib, projectId, source, input)
    requires ParseStructureLocator(input.locator) == Some(locator)
    ensures FitsTogether(lib, projectId, source, input, source.documentId.value, locator.versionId,
                         input.chunkId.value, locator.blockId, locator.page.Floor)
  {
  }

  lemma FitsGrounded(lib: Library, projectId: string, source: Source, input: Input,
                     documentId: string, versionId: string, chunkId: string, blockId: string, page: int)
    requires lib.References()
    requires FitsTogether(lib, projectId, source, input, documentId, versionId, chunkId, blockId, page)
    ensures Grounded(lib, projectId, source, input)
  {
  }

  /** Metadata-only evidence: a locator with fields; a chunk, if named, is the project's and may be quoted. */
  lemma DescribedIff(lib: Library, projectId: string, source: Source, input: Input)
    ensures Described(lib, projectId, source, input) <==>
      && input.locator.Fields?
      && forall id :: input.chunkId == Some(id) && id != "" ==>
           && IsUuid(id) && id in lib.chunks && lib.chunks[id].projectId == projectId
           && forall d :: source.documentId == Some(d) ==> MayQuote(lib, source, d)
  {
  }

  /** The quote of grounded evidence stands, white space apart, in one stretch of its chunk's text. */
  ghost predicate QuoteStands(lib: Library, input: Input) {
    && input.chunkId.Some? && input.chunkId.value in lib.chunks
    && Ink(input.text) != "" && StretchOf(Ink(input.text), Ink(lib.chunks[input.chunkId.value].text))
  }

  lemma GroundedQuotes(lib: Library, projectId: string, source: Source, input: Input)
    requires lib.References() && Grounded(lib, projectId, source, input)
    ensures QuoteStands(lib, input)
  {
    MatchIsStretch(input.text, lib.chunks[input.chunkId.value].text);
  }

  /** The rest of what is asked of an input: ink, a finite score, a polarity in range, and the model's run. */
  lemma WellFormedIff(input: Input)
    ensures WellFormed(input) <==>
      && Ink(input.text) != "" && input.qualityScore.Some?
      && (forall p :: input.polarity == Some(p) ==> p in {-1, 0, 1})
      && (input.extraction == Llm ==> exists id :: input.aiExecutionId == Some(id) && IsUuid(id))
  {
    TrimmedAway(input.text);
  }

  /** What is stored says what the input said; without a stance it is unresolved. */
  lemma StoredSays(projectId: string, input: Input)
    requires input.qualityScore.Some? && (input.kind.BodyGrounded? ==> ParseStructureLocator(input.locator).Some?)
    ensures var row := Stored(projectId, input);
      && row.projectId == projectId && row.sourceId == input.sourceId && row.text == input.text
      && row.kind == input.kind && Some(row.qualityScore) == input.qualityScore && row.polarity == input.polarity
      && row.extraction == input.extraction && row.chunkId == input.chunkId && row.supersededById == None
      && (input.stance == None ==> row.stance == Unresolved)
      && (input.stance != None ==> input.stance == Some(row.stance))
      && (forall id :: row.aiExecutionId == Some(id) <==> input.aiExecutionId == Some(id) && IsUuid(id))
  {
  }

  // ----- projection -----

  datatype Hop = EvidenceHop | LocatorHop | ChunkHop | DocumentVersionHop | SourceHop | AiExecutionHop

  datatype Chain =
    | Complete(
        quality: Kind,
        locator: Locator,
        chunk: Option<string>,
        versionId: string,
        documentId: string,
        versionNo: int,
        sourceId: string,
        aiExecutionId: Option<string>)
    | Broken(missing: seq<Hop>)

  predicate IsLocatorResolvable(locator: Locator) {
    locator.versionId != "" && locator.blockId != "" && locator.page >= 1.0
  }

  /** The hop cannot be followed from the row. */
  predicate HopMissing(lib: Library, row: Row, projectId: string, hop: Hop)
    requires forall id :: id in lib.versions ==> lib.versions[id].documentId in lib.documents
  {
    match hop
    case EvidenceHop => row.projectId != projectId
    case LocatorHop => !IsLocatorResolvable(row.locator)
    case ChunkHop =>
      if row.kind.MetadataOnly? then row.chunkId.Some? && lib.ChunkInProject(row.chunkId.value, projectId).None?
      else
        || row.chunkId.None?
        || lib.ChunkInProject(row.chunkId.value, projectId).None?
        || var chunk := lib.ChunkInProject(row.chunkId.value, projectId).value;
           chunk.versionId != row.locator.versionId || row.locator.blockId !in chunk.blockIds
    case DocumentVersionHop =>
      || !IsLocatorResolvable(row.locator)
      || row.locator.versionId !in lib.versions
      || lib.ProjectOfVersion(row.locator.versionId) != projectId
    case SourceHop =>
      || row.sourceId !in lib.sources
      || lib.sources[row.sourceId].projectId != projectId
      || (IsLocatorResolvable(row.locator) && row.locator.versionId in lib.versions
          && lib.sources[row.sourceId].isDocument
          && lib.sources[row.sourceId].documentId != Some(lib.versions[row.locator.versionId].documentId))
    case AiExecutionHop => row.extraction.Llm? && (row.aiExecutionId.None? || row.aiExecutionId.value == "")
  }

  ghost predicate Projects(lib: Library, row: Row, projectId: string)
    requires lib.References()
  {
    forall hop :: !HopMissing(lib, row, projectId, hop)
  }

  /** What body-grounded admission left behind when its checks passed. */
  lemma GroundedProjectsIff(lib: Library, projectId: string, input: Input)
    requires lib.References() && Admissible(lib, projectId, input) && input.kind.BodyGrounded?
    ensures Projects(lib, Stored(projectId, input), projectId)
      <==> lib.ProjectOfVersion(lib.chunks[input.chunkId.value].versionId) == projectId
  {
    var row := Stored(projectId, input);
    var ok := lib.ProjectOfVersion(lib.chunks[input.chunkId.value].versionId) == projectId;
    assert HopMissing(lib, row, projectId, DocumentVersionHop) <==> !ok;
    forall hop | hop != DocumentVersionHop ensures !HopMissing(lib, row, projectId, hop) {
      match hop
      case EvidenceHop =>
      case LocatorHop =>
      case ChunkHop =>
      case SourceHop =>
      case AiExecutionHop =>
      case DocumentVersionHop =>
    }
  }

  /** The records that a complete chain goes through. */
  ghost predicate Traced(lib: Library, row: Row, projectId: string) {
    var locator := row.locator;
    && row.projectId == projectId
    && locator.versionId != "" && locator.blockId != "" && locator.page >= 1.0
    && locator.versionId in lib.versions
    && var documentId := lib.versions[locator.versionId].documentId;
    && documentId in lib.documents && lib.documents[documentId].projectId == projectId
    && row.sourceId in lib.sources && lib.sources[row.sourceId].projectId == projectId
    && (lib.sources[row.sourceId].isDocument ==> lib.sources[row.sourceId].documentId == Some(documentId))
    && (row.kind == BodyGrounded ==> exists id ::
          && row.chunkId == Some(id) && id in lib.chunks && lib.chunks[id].projectId == projectId
          && lib.chunks[id].versionId == locator.versionId && locator.blockId in lib.chunks[id].blockIds)
    && (row.kind == MetadataOnly ==> forall id :: row.chunkId == Some(id) ==>
          id in lib.chunks && lib.chunks[id].projectId == projectId)
    && (row.extraction == Llm ==> exists id :: row.aiExecutionId == Some(id) && id != "")
  }

  /** No hop is missing exactly when every record is there, is the project's, and fits the next. */
  lemma ProjectsIff(lib: Library, row: Row, projectId: string)
    requires lib.References()
    ensures Projects(lib, row, projectId) <==> Traced(lib, row, projectId)
  {
    if Projects(lib, row, projectId) {
      assert forall hop :: !HopMissing(lib, row, projectId, hop);
      ProjectsTraced(lib, row, projectId);
    }
    if Traced(lib, row, projectId) {
      forall hop ensures !HopMissing(lib, row, projectId, hop) { }
    }
  }

  lemma ProjectsTraced(lib: Library, row: Row, projectId: string)
    requires lib.References()
    requires !HopMissing(lib, row, projectId, EvidenceHop) && !HopMissing(lib, row, projectId, LocatorHop)
    requires !HopMissing(lib, row, projectId, ChunkHop) && !HopMissing(lib, row, projectId, DocumentVersionHop)
    requires !HopMissing(lib, row, projectId, SourceHop) && !HopMissing(lib, row, projectId, AiExecutionHop)
    ensures Traced(lib, row, projectId)
  {
  }

  class EvidenceRepository {
    var library: Library
    var evidence: map<string, Row>

    /** Every stored body-grounded row projects completely. */
    ghost predicate Valid()
      reads this
    {
      && library.Intact()
      && forall id :: id in evidence && evidence[id].kind.BodyGrounded? ==>
        Projects(library, evidence[id], evidence[id].projectId)
    }

    constructor (library: Library)
      requires library.Intact()
      ensures Valid() && this.library == library && evidence == map[]
    {
      this.library, evidence := library, map[];
    }

    method Create(projectId: string, input: Input, newId: string) returns (r: Created)
      requires Valid() && newId !in evidence
      modifies this`evidence
      ensures Valid()
      ensures r.Ok? <==> Admissible(library, projectId, input)
      ensures r.Invalid? ==> input.qualityScore.None? || (input.polarity.Some? && !(-1 <= input.polarity.value <= 1))
      ensures r.NotFound? ==> WellFormed(input) && SourceInProject(library, input.sourceId, projectId).None?
      ensures r.Rejected? ==>
        || (r.reason == QuoteMismatch && Trim(input.text) == "")
        || (r.reason == LlmWithoutExecution && input.extraction.Llm? && !IsUuid(input.aiExecutionId.GetOr("")))
        || (SourceInProject(library, input.sourceId, projectId).Some?
            && Explains(r.reason, library, projectId, library.sources[input.sourceId], input))
      ensures r.Ok? ==> r.row == Stored(projectId, input) && evidence == old(evidence)[newId := r.row]
      ensures r.Ok? && input.kind.BodyGrounded? ==> QuoteStands(library, input)
      ensures !r.Ok? ==> evidence == old(evidence)
    {
      if Trim(input.text) == "" { return Rejected(QuoteMismatch); }
      if input.qualityScore.None? { return Invalid; }
      if input.polarity.Some? && input.polarity.value !in {-1, 0, 1} { return Invalid; }
      if input.extraction.Llm? && (input.aiExecutionId.None? || !IsUuid(input.aiExecutionId.value)) {
        return Rejected(LlmWithoutExecution);
      }
      var source := SourceInProject(library, input.sourceId, projectId);
      if source.None? { return NotFound; }
      var v: Validation;
      match input.kind {
        case BodyGrounded => v := ValidateBodyGrounded(library, projectId, source.value, input);
        case MetadataOnly => v := ValidateMetadataOnly(library, projectId, source.value, input);
      }
      if v.Refuse? { return Rejected(v.reason); }
      var executed := input.aiExecutionId.Some? && IsUuid(input.aiExecutionId.value);
      var row := Row(projectId, input.sourceId, input.chunkId, v.locator, input.text, input.stance.GetOr(Unresolved),
                     input.polarity, input.qualityScore.value, input.extraction,
                     if executed then input.aiExecutionId else None, input.kind, None);
      if input.kind.BodyGrounded? { GroundedProjectsIff(library, projectId, input); }
      evidence := evidence[newId := row];
      return Ok(row);
    }

    /** Stores a replacement and points the previous row of the project at it. */
    method Supersede(projectId: string, previousId: string, input: Input, newId: string) returns (r: Created)
      requires Valid() && newId !in evidence
      modifies this`evidence
      ensures Valid()
      ensures r.Ok? <==>
        && IsUuid(previousId) && previousId in old(evidence) && old(evidence)[previousId].projectId == projectId
        && Admissible(library, projectId, input)
      ensures r.Ok? ==>
        var previous := old(evidence)[previousId].(supersededById := Some(newId));
        evidence == old(evidence)[newId := Stored(projectId, input)][previousId := previous]
      ensures !r.Ok? ==> evidence == old(evidence)
    {
      if !IsUuid(previousId) || previousId !in evidence || evidence[previousId].projectId != projectId {
        return NotFound;
      }
      r := Create(projectId, input, newId);
      if r.Ok? {
        ghost var was := evidence[previousId];
        evidence := evidence[previousId := evidence[previousId].(supersededById := Some(newId))];
        SupersededProjects(library, was, newId);
      }
    }

    /** The chunk hop: the chunk of the row, or that it is missing. */
    method FindChunk(row: Row, projectId: string) returns (chunk: Option<string>, missing: bool)
      requires library.References()
      ensures missing <==> HopMissing(library, row, projectId, ChunkHop)
      ensures !missing ==> chunk == row.chunkId
    {
      chunk, missing := None, false;
      if row.kind.BodyGrounded? {
        if row.chunkId.None? {
          missing := true;
        } else {
          var found := library.ChunkInProject(row.chunkId.value, projectId);
          if found.None? || found.value.versionId != row.locator.versionId
             || row.locator.blockId !in found.value.blockIds {
            missing := true;
          } else {
            chunk := row.chunkId;
          }
        }
      } else if row.chunkId.Some? {
        if library.ChunkInProject(row.chunkId.value, projectId).None? {
          missing := true;
        } else {
          chunk := row.chunkId;
        }
      }
    }

    /** The source hop, given the version that the locator resolved to. */
    method FindSource(row: Row, projectId: string, version: Option<Version>)
      returns (source: Option<Source>, missing: bool)
      requires library.References()
      requires version == if IsLocatorResolvable(row.locator) && row.locator.versionId in library.versions
        then Some(library.versions[row.locator.versionId]) else None
      ensures missing <==> HopMissing(library, row, projectId, SourceHop)
      ensures !missing ==> source.Some?
    {
      source := if row.sourceId in library.sources then Some(library.sources[row.sourceId]) else None;
      missing := false;
      if source.None? || source.value.projectId != projectId {
        missing := true;
      } else if version.Some? && source.value.isDocument && source.value.documentId != Some(version.value.documentId) {
        missing := true;
      }
    }

    method WalkChain(evidenceId: string, projectId: string) returns (chain: Chain)
      requires library.References()
      ensures evidenceId !in evidence || evidence[evidenceId].projectId != projectId ==>
        chain == Broken([EvidenceHop, LocatorHop, ChunkHop, DocumentVersionHop, SourceHop, AiExecutionHop])
      ensures evidenceId in evidence && evidence[evidenceId].projectId == projectId ==>
        && (chain.Complete? <==> Projects(library, evidence[evidenceId], projectId))
        && (chain.Broken? ==> chain.missing == MissingHops(library, evidence[evidenceId], projectId))
        && (chain.Complete? ==> IsChain(chain, library, evidence[evidenceId]))
    {
      if evidenceId !in evidence || evidence[evidenceId].projectId != projectId {
        return Broken([EvidenceHop, LocatorHop, ChunkHop, DocumentVersionHop, SourceHop, AiExecutionHop]);
      }
      var row := evidence[evidenceId];
      var locatorOk := IsLocatorResolvable(row.locator);
      var missing: seq<Hop> := Pushed([], LocatorHop, !locatorOk);
      var chunk, noChunk := FindChunk(row, projectId);
      missing := Pushed(missing, ChunkHop, noChunk);
      var version: Option<Version> := None;
      if locatorOk && row.locator.versionId in library.versions {
        version := Some(library.versions[row.locator.versionId]);
      }
      var noVersion := version.None? || library.documents[version.value.documentId].projectId != projectId;
      missing := Pushed(missing, DocumentVersionHop, noVersion);
      var source, noSource := FindSource(row, projectId, version);
      missing := Pushed(missing, SourceHop, noSource);
      var noExecution := row.extraction.Llm? && (row.aiExecutionId.None? || row.aiExecutionId.value == "");
      missing := Pushed(missing, AiExecutionHop, noExecution);
      assert missing == MissingHops(library, row, projectId);
      MissingHopsAre(library, row, projectId);
      if missing != [] {
        return Broken(missing);
      }
      if version.None? || source.None? {
        assert false;
      }
      return Complete(row.kind, row.locator, chunk, row.locator.versionId, version.value.documentId,
                      version.value.versionNo, row.sourceId, row.aiExecutionId);
    }
  }

  function Pushed(missing: seq<Hop>, hop: Hop, push: bool): (r: seq<Hop>)
    ensures forall h :: h in r <==> h in missing || (push && h == hop)
    ensures r == [] <==> missing == [] && !push
  {
    if push then missing + [hop] else missing
  }

  /** The missing hops in the order in which the walk meets them. */
  function MissingHops(lib: Library, row: Row, projectId: string): seq<Hop>
    requires forall id :: id in lib.versions ==> lib.versions[id].documentId in lib.documents
  {
    var a := Pushed([], LocatorHop, HopMissing(lib, row, projectId, LocatorHop));
    var b := Pushed(a, ChunkHop, HopMissing(lib, row, projectId, ChunkHop));
    var c := Pushed(b, DocumentVersionHop, HopMissing(lib, row, projectId, DocumentVersionHop));
    var d := Pushed(c, SourceHop, HopMissing(lib, row, projectId, SourceHop));
    Pushed(d, AiExecutionHop, HopMissing(lib, row, projectId, AiExecutionHop))
  }

  /** A row of the project projects exactly when it misses no hop. */
  lemma MissingHopsAre(lib: Library, row: Row, projectId: string)
    requires lib.References() && row.projectId == projectId
    ensures forall hop :: hop in MissingHops(lib, row, projectId) <==> HopMissing(lib, row, projectId, hop)
    ensures MissingHops(lib, row, projectId) == [] <==> Projects(lib, row, projectId)
  {
    var missing := MissingHops(lib, row, projectId);
    if missing != [] {
      assert HopMissing(lib, row, projectId, missing[0]);
    }
  }

  /** The chain names the records that the row refers to. */
  ghost predicate IsChain(chain: Chain, lib: Library, row: Row) {
    && chain.Complete?
    && chain.quality == row.kind
    && chain.locator == row.locator
    && chain.chunk == row.chunkId
    && chain.versionId == row.locator.versionId
    && chain.versionId in lib.versions
    && chain.documentId == lib.versions[chain.versionId].documentId
    && chain.versionNo == lib.versions[chain.versionId].versionNo
    && chain.sourceId == row.sourceId
    && chain.aiExecutionId == row.aiExecutionId
  }

  lemma SupersededProjects(lib: Library, row: Row, newId: string)
    requires lib.References()
    ensures Projects(lib, row.(supersededById := Some(newId)), row.projectId) <==> Projects(lib, row, row.projectId)
  {
    forall hop
      ensures HopMissing(lib, row.(supersededById := Some(newId)), row.projectId, hop)
        <==> HopMissing(lib, row, row.projectId, hop)
    {
    }
  }
}

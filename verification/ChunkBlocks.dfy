/** The chunker: packs ordered text blocks into chunks, and splits a block that is too long into windows. */
module ChunkBlocks {
  import opened Common
  import opened Sorting

  // Texts are sequences of UTF-16 units; chunk ids and content hashes come from outside
  // and are not modelled.

  const TARGET_CHUNK_TOKENS := 400
  const MAX_CHUNK_TOKENS := 500
  const CHARS_PER_TOKEN := 4
  const TARGET_CHARS := TARGET_CHUNK_TOKENS * CHARS_PER_TOKEN
  const BLOCK_JOINER := "\n"

  datatype Block = Block(id: string, text: string, ordinal: int, page: Option<int>)

  datatype Span = Span(start: nat, end: nat)

  datatype Chunk = Chunk(
    ordinal: nat,
    blockIds: seq<string>,
    charSpan: Span,
    text: string,
    tokenCount: nat,
    page: Option<int>
  )

  /** Math.ceil(text.length / 4) */
  function EstimateTokens(text: string): nat {
    (|text| + CHARS_PER_TOKEN - 1) / CHARS_PER_TOKEN
  }

  /** texts.join('\n') */
  function Join(texts: seq<string>): string {
    if texts == [] then ""
    else if |texts| == 1 then texts[0]
    else texts[0] + BLOCK_JOINER + Join(texts[1..])
  }

  /** text.slice(span.start, span.end) */
  function Slice(text: string, span: Span): string {
    var from, to := Min(span.start, |text|), Min(span.end, |text|);
    if from < to then text[from..to] else ""
  }

  function Min(a: nat, b: nat): nat { if a < b then a else b }

  function Ids(blocks: seq<Block>): seq<string> {
    seq(|blocks|, i requires 0 <= i < |blocks| => blocks[i].id)
  }

  function Texts(blocks: seq<Block>): seq<string> {
    seq(|blocks|, i requires 0 <= i < |blocks| => blocks[i].text)
  }

  function Tokens(blocks: seq<Block>): nat {
    if blocks == [] then 0 else Tokens(blocks[..|blocks| - 1]) + EstimateTokens(blocks[|blocks| - 1].text)
  }

  function MakeChunk(ordinal: nat, blockIds: seq<string>, span: Span, text: string, page: Option<int>): Chunk {
    Chunk(ordinal, blockIds, span, text, EstimateTokens(text), page)
  }

  // ----- splitting one oversized block -----

  /** text.lastIndexOf(' ', from) */
  function LastSpace(text: string, from: nat): (i: int)
    requires from < |text|
    ensures -1 <= i <= from
    ensures i >= 0 ==> text[i] == ' '
    ensures forall j :: i < j <= from ==> text[j] != ' '
  {
    if text[from] == ' ' then from else if from == 0 then -1 else LastSpace(text, from - 1)
  }

  /** w is where the window that starts at start must end. */
  ghost predicate IsCut(text: string, start: nat, w: nat) {
    && start < w <= |text| && w <= start + TARGET_CHARS
    && (start + TARGET_CHARS >= |text| ==> w == |text|)
    && (start + TARGET_CHARS < |text| ==>
          && (forall j :: w < j <= start + TARGET_CHARS ==> text[j] != ' ')
          && (text[w] == ' ' || (w == start + TARGET_CHARS && forall j :: start < j <= w ==> text[j] != ' ')))
  }

  /**
   The spans tile the text between from and to: each window is non-empty, starts where
   the previous one ended, has at most 1600 characters, and is cut at the last space it
   can reach.
   */
  ghost predicate Tiles(text: string, from: nat, spans: seq<Span>, to: nat)
    decreases spans
  {
    if spans == [] then from == to
    else
      && spans[0].start == from && IsCut(text, from, spans[0].end)
      && Tiles(text, spans[0].end, spans[1..], to)
  }

  lemma {:induction false} TilesAppend(text: string, from: nat, spans: seq<Span>, next: Span)
    requires Tiles(text, from, spans, next.start) && IsCut(text, next.start, next.end)
    ensures Tiles(text, from, spans + [next], next.end)
    decreases spans
  {
    if spans != [] {
      assert (spans + [next])[1..] == spans[1..] + [next];
      TilesAppend(text, spans[0].end, spans[1..], next);
    }
  }

  method SplitOversizedBlock(text: string) returns (spans: seq<Span>)
    ensures Tiles(text, 0, spans, |text|)
  {
    spans := [];
    var start := 0;
    while start < |text|
      invariant start <= |text| && Tiles(text, 0, spans, start)
      decreases |text| - start
    {
      var end := if start + TARGET_CHARS < |text| then start + TARGET_CHARS else |text|;
      if end < |text| {
        var lastBreak := LastSpace(text, end);
        if lastBreak > start {
          end := lastBreak;
        }
      }
      TilesAppend(text, 0, spans, Span(start, end));
      spans := spans + [Span(start, end)];
      assert end != start;  // the branch for end === start is never taken
      start := if end == start then end + TARGET_CHARS else end;
    }
  }

  /** The windows of a text are determined: there is one way to tile it. */
  lemma {:induction false} TilesUnique(text: string, from: nat, a: seq<Span>, b: seq<Span>)
    requires Tiles(text, from, a, |text|) && Tiles(text, from, b, |text|)
    ensures a == b
    decreases a
  {
    if a != [] && b != [] {
      CutUnique(text, from, a[0].end, b[0].end);
      assert a[0] == b[0];
      TilesUnique(text, a[0].end, a[1..], b[1..]);
    }
  }

  lemma CutUnique(text: string, start: nat, v: nat, w: nat)
    requires IsCut(text, start, v) && IsCut(text, start, w)
    ensures v == w
  {
  }

  /** The texts of the windows, one after the other. */
  function Windows(text: string, spans: seq<Span>): string {
    if spans == [] then "" else Slice(text, spans[0]) + Windows(text, spans[1..])
  }

  /** The windows put together give back the text. */
  lemma {:induction false} WindowsJoin(text: string, from: nat, spans: seq<Span>)
    requires Tiles(text, from, spans, |text|) && from <= |text|
    ensures Windows(text, spans) == text[from..]
    decreases spans
  {
    if spans != [] {
      WindowsJoin(text, spans[0].end, spans[1..]);
      assert text[from..] == text[from..spans[0].end] + text[spans[0].end..];
    }
  }

  // ----- where the texts of blocks stand in a chunk -----

  /** Where the i-th of the blocks starts: behind the earlier texts and one character after each. */
  function Offset(blocks: seq<Block>, i: nat): (at: nat)
    requires i <= |blocks|
    ensures i > 0 ==> at > 0
  {
    if i == 0 then 0 else Offset(blocks, i - 1) + |blocks[i - 1].text| + 1
  }

  ghost predicate StandsAt(text: string, part: string, at: nat) {
    at + |part| <= |text| && text[at..at + |part|] == part
  }

  /** Each block's text stands in its place. */
  ghost predicate Placed(text: string, blocks: seq<Block>) {
    forall i :: 0 <= i < |blocks| ==> StandsAt(text, blocks[i].text, Offset(blocks, i))
  }

  /** A line break stands before each block but the first. */
  ghost predicate Breaks(text: string, blocks: seq<Block>) {
    forall i :: 0 < i < |blocks| ==> StandsAt(text, "\n", Offset(blocks, i) - 1)
  }

  /** The text is the blocks' texts in order, a line break between any two, and nothing else. */
  ghost predicate LaidOut(text: string, blocks: seq<Block>) {
    && (blocks == [] ==> text == "")
    && (blocks != [] ==> |text| + 1 == Offset(blocks, |blocks|))
    && Placed(text, blocks) && Breaks(text, blocks)
  }

  lemma {:induction false} OffsetOfRest(blocks: seq<Block>, i: nat)
    requires 0 < i <= |blocks|
    ensures Offset(blocks, i) == |blocks[0].text| + 1 + Offset(blocks[1..], i - 1)
  {
    if i > 1 { OffsetOfRest(blocks, i - 1); }
  }

  lemma StandsBehind(first: string, text: string, part: string, at: nat)
    ensures StandsAt(text, part, at) <==> StandsAt(first + "\n" + text, part, |first| + 1 + at)
  {
    var whole, from := first + "\n" + text, |first| + 1 + at;
    assert whole[|first| + 1..] == text;
    if at + |part| <= |text| {
      assert whole[from..from + |part|] == text[at..at + |part|];
    }
  }

  lemma PlacedCons(blocks: seq<Block>, rest: string)
    requires blocks != []
    ensures Placed(blocks[0].text + "\n" + rest, blocks) == Placed(rest, blocks[1..])
  {
    var first := blocks[0].text;
    var text := first + "\n" + rest;
    assert text[..|first|] == first;
    forall i | 0 < i < |blocks|
      ensures StandsAt(text, blocks[i].text, Offset(blocks, i))
        <==> StandsAt(rest, blocks[i].text, Offset(blocks[1..], i - 1))
    {
      OffsetOfRest(blocks, i);
      StandsBehind(first, rest, blocks[i].text, Offset(blocks[1..], i - 1));
    }
    if Placed(text, blocks) {
      forall j | 0 <= j < |blocks[1..]| ensures StandsAt(rest, blocks[1..][j].text, Offset(blocks[1..], j)) {
        assert StandsAt(text, blocks[j + 1].text, Offset(blocks, j + 1));
      }
    }
  }

  /** The first text, a line break, and the others laid out. */
  lemma LaidOutCons(blocks: seq<Block>, rest: string)
    requires |blocks| > 1
    ensures LaidOut(blocks[0].text + "\n" + rest, blocks) == LaidOut(rest, blocks[1..])
  {
    OffsetOfRest(blocks, |blocks|);
    PlacedCons(blocks, rest);
    BreaksCons(blocks, rest);
    LaidOutIf(blocks[0].text + "\n" + rest, blocks, rest, blocks[1..]);
  }

  lemma LaidOutIf(text: string, blocks: seq<Block>, rest: string, others: seq<Block>)
    requires blocks != [] && others != [] && Placed(text, blocks) == Placed(rest, others)
    requires Breaks(text, blocks) == Breaks(rest, others)
    requires |text| - Offset(blocks, |blocks|) == |rest| - Offset(others, |others|)
    ensures LaidOut(text, blocks) == LaidOut(rest, others)
  {
  }

  lemma BreaksCons(blocks: seq<Block>, rest: string)
    requires |blocks| > 1
    ensures Breaks(blocks[0].text + "\n" + rest, blocks) == Breaks(rest, blocks[1..])
  {
    var first := blocks[0].text;
    var text := first + "\n" + rest;
    OffsetOfRest(blocks, 1);
    assert text[|first|..|first| + 1] == "\n";
    forall i | 1 < i < |blocks|
      ensures StandsAt(text, "\n", Offset(blocks, i) - 1) <==> StandsAt(rest, "\n", Offset(blocks[1..], i - 1) - 1)
    {
      OffsetOfRest(blocks, i);
      StandsBehind(first, rest, "\n", Offset(blocks[1..], i - 1) - 1);
    }
    if Breaks(text, blocks) {
      forall j | 0 < j < |blocks[1..]| ensures StandsAt(rest, "\n", Offset(blocks[1..], j) - 1) {
        assert StandsAt(text, "\n", Offset(blocks, j + 1) - 1);
      }
    }
  }

  /** Joining lays the texts out, and no other text is laid out so. */
  lemma {:induction false} JoinLaysOut(blocks: seq<Block>, text: string)
    ensures LaidOut(text, blocks) <==> text == Join(Texts(blocks))
  {
    if |blocks| == 1 {
      assert Offset(blocks, 1) == |blocks[0].text| + 1 && Offset(blocks, 0) == 0;
      assert |text| == |blocks[0].text| ==> text[0..|text|] == text;
    } else if |blocks| > 1 {
      var first := blocks[0].text;
      assert Texts(blocks)[1..] == Texts(blocks[1..]);
      if |text| > |first| {
        JoinLaysOut(blocks[1..], text[|first| + 1..]);
        LaidOutCons(blocks, text[|first| + 1..]);
      }
      JoinLaysOut(blocks[1..], Join(Texts(blocks[1..])));
      LaidOutCons(blocks, Join(Texts(blocks[1..])));
      if LaidOut(text, blocks) {
        FirstAndBreak(text, blocks);
      }
    }
  }

  lemma FirstAndBreak(text: string, blocks: seq<Block>)
    requires |blocks| > 1 && LaidOut(text, blocks)
    ensures var first := blocks[0].text; |text| > |first| && text == first + "\n" + text[|first| + 1..]
  {
    assert Offset(blocks, 0) == 0 && Offset(blocks, 1) == |blocks[0].text| + 1;
    assert StandsAt(text, blocks[0].text, 0);
    assert StandsAt(text, "\n", |blocks[0].text|) by { assert StandsAt(text, "\n", Offset(blocks, 1) - 1); }
    StartsWith(text, blocks[0].text);
  }

  lemma StartsWith(text: string, first: string)
    requires StandsAt(text, first, 0) && StandsAt(text, "\n", |first|)
    ensures text == first + "\n" + text[|first| + 1..]
  {
    assert text == text[..|first|] + (text[|first|..|first| + 1] + text[|first| + 1..]);
  }

  // ----- packing -----

  /** A run of blocks packed into one chunk, or one oversized block with its windows. */
  datatype Piece = Group(blocks: seq<Block>) | Split(block: Block, spans: seq<Span>)

  function BlocksOf(p: Piece): seq<Block> {
    if p.Group? then p.blocks else [p.block]
  }

  function AllBlocks(pieces: seq<Piece>): seq<Block> {
    if pieces == [] then [] else AllBlocks(pieces[..|pieces| - 1]) + BlocksOf(pieces[|pieces| - 1])
  }

  predicate Oversized(b: Block) { EstimateTokens(b.text) > MAX_CHUNK_TOKENS }

  ghost predicate PieceOk(p: Piece) {
    match p
    case Group(blocks) =>
      && blocks != [] && (forall b :: b in blocks ==> !Oversized(b))
      && (|blocks| > 1 ==> Tokens(blocks) <= TARGET_CHUNK_TOKENS)
    case Split(b, spans) => Oversized(b) && Tiles(b.text, 0, spans, |b.text|)
  }

  /** A group is closed only when the next block does not fit in it. */
  ghost predicate Full(p: Piece, next: Piece) {
    p.Group? && next.Group? && next.blocks != [] ==>
      Tokens(p.blocks) + EstimateTokens(next.blocks[0].text) > TARGET_CHUNK_TOKENS
  }

  /** The pieces cover the blocks in order, exactly once, and are packed greedily. */
  ghost predicate IsPlan(pieces: seq<Piece>, blocks: seq<Block>) {
    && AllBlocks(pieces) == blocks
    && (forall i :: 0 <= i < |pieces| ==> PieceOk(pieces[i]))
    && (forall i :: 0 <= i < |pieces| - 1 ==> Full(pieces[i], pieces[i + 1]))
  }

  function SplitChunks(ordinal: nat, b: Block, spans: seq<Span>): seq<Chunk> {
    seq(|spans|, i requires 0 <= i < |spans| =>
      MakeChunk(ordinal + i, [b.id], spans[i], Slice(b.text, spans[i]), b.page))
  }

  function GroupChunk(ordinal: nat, blocks: seq<Block>): Chunk
    requires blocks != []
  {
    var text := Join(Texts(blocks));
    MakeChunk(ordinal, Ids(blocks), Span(0, |text|), text, blocks[0].page)
  }

  function PieceChunks(ordinal: nat, p: Piece): seq<Chunk> {
    match p
    case Group(blocks) => if blocks == [] then [] else [GroupChunk(ordinal, blocks)]
    case Split(b, spans) => SplitChunks(ordinal, b, spans)
  }

  /** The chunks of a plan. */
  function Render(pieces: seq<Piece>): seq<Chunk> {
    if pieces == [] then []
    else
      var front := Render(pieces[..|pieces| - 1]);
      front + PieceChunks(|front|, pieces[|pieces| - 1])
  }

  predicate EarlierOrdinal(a: Block, b: Block) { a.ordinal < b.ordinal }

  /** The blocks in the order in which they are packed. */
  function Ordered(blocks: seq<Block>): seq<Block> {
    Sort(blocks, EarlierOrdinal)
  }

  function WithGroup(pieces: seq<Piece>, group: seq<Block>): seq<Piece> {
    if group == [] then pieces else pieces + [Group(group)]
  }

  lemma PlanAppend(pieces: seq<Piece>, blocks: seq<Block>, p: Piece)
    requires IsPlan(pieces, blocks) && PieceOk(p)
    requires pieces != [] ==> Full(pieces[|pieces| - 1], p)
    ensures IsPlan(pieces + [p], blocks + BlocksOf(p))
  {
    assert (pieces + [p])[..|pieces|] == pieces;
  }

  lemma TokensOne(b: Block)
    ensures Tokens([b]) == EstimateTokens(b.text)
  {
    assert [b][..0] == [];
  }

  /** The next block does not fit: it opens a new group. */
  lemma PlanOpen(pieces: seq<Piece>, group: seq<Block>, blocks: seq<Block>, b: Block)
    requires group != [] && IsPlan(pieces + [Group(group)], blocks)
    requires !Oversized(b) && Tokens(group) + EstimateTokens(b.text) > TARGET_CHUNK_TOKENS
    ensures IsPlan(pieces + [Group(group)] + [Group([b])], blocks + [b])
  {
    PlanAppend(pieces + [Group(group)], blocks, Group([b]));
  }

  /** The next block fits into the open group. */
  lemma PlanGrow(pieces: seq<Piece>, group: seq<Block>, blocks: seq<Block>, b: Block)
    requires group != [] && IsPlan(pieces + [Group(group)], blocks)
    requires !Oversized(b) && Tokens(group + [b]) <= TARGET_CHUNK_TOKENS
    ensures IsPlan(pieces + [Group(group + [b])], blocks + [b])
  {
    var n := |pieces|;
    var p, q := pieces + [Group(group)], pieces + [Group(group + [b])];
    assert p[..n] == pieces && q[..n] == pieces;
    assert PieceOk(p[n]);
    forall i | 0 <= i < n ensures PieceOk(q[i]) { assert q[i] == p[i]; }
    forall i | 0 <= i < n ensures Full(q[i], q[i + 1]) {
      assert Full(p[i], p[i + 1]);
      assert q[i] == p[i] && (i + 1 < n ==> q[i + 1] == p[i + 1]);
    }
    assert AllBlocks(q) == AllBlocks(pieces) + (group + [b]);
  }

  lemma {:induction false} TokensAppend(a: seq<Block>, b: seq<Block>)
    ensures Tokens(a + b) == Tokens(a) + Tokens(b)
  {
    if b == [] {
      assert a + b == a;
    } else {
      assert (a + b)[..|a + b| - 1] == a + b[..|b| - 1];
      TokensAppend(a, b[..|b| - 1]);
    }
  }

  /** The loop state: the chunks pushed so far are the closed pieces, and the open group is still to come. */
  ghost predicate Packing(chunks: seq<Chunk>, group: seq<Block>, groupTokens: nat, pieces: seq<Piece>,
                          blocks: seq<Block>)
  {
    && chunks == Render(pieces) && groupTokens == Tokens(group)
    && (group == [] && pieces != [] ==> pieces[|pieces| - 1].Split?)
    && IsPlan(WithGroup(pieces, group), blocks)
  }

  /** The chunks render a plan of the ordered blocks. */
  ghost predicate IsBuilt(chunks: seq<Chunk>, blocks: seq<Block>) {
    exists pieces :: IsPlan(pieces, Ordered(blocks)) && chunks == Render(pieces)
  }

  method BuildChunksFromBlocks(blocks: seq<Block>) returns (chunks: seq<Chunk>)
    ensures IsBuilt(chunks, blocks)
    ensures forall c :: c in chunks ==> Shows(c, Ordered(blocks))
  {
    var ordered := Ordered(blocks);
    chunks := [];
    ghost var pieces := [];
    var group: seq<Block>, groupTokens: nat := [], 0;
    PackingStarts(ordered[..0]);
    for i := 0 to |ordered|
      invariant Packing(chunks, group, groupTokens, pieces, ordered[..i])
    {
      TakeOneMore(ordered, i);
      chunks, group, groupTokens, pieces := AddBlock(chunks, group, groupTokens, ordered[i], pieces, ordered[..i]);
    }
    TakeAll(ordered);
    chunks := FlushLast(chunks, group, groupTokens, pieces, blocks);
    BuiltShows(chunks, blocks);
  }

  lemma PackingStarts(blocks: seq<Block>)
    requires blocks == []
    ensures Packing([], [], 0, [], blocks)
  {
  }

  /** After the loop: the group still open becomes the last chunk. */
  method FlushLast(chunks: seq<Chunk>, group: seq<Block>, ghost groupTokens: nat, ghost pieces: seq<Piece>,
                   ghost blocks: seq<Block>)
    returns (built: seq<Chunk>)
    requires Packing(chunks, group, groupTokens, pieces, Ordered(blocks))
    ensures IsBuilt(built, blocks)
  {
    built := FlushGroup(chunks, group, pieces);
  }

  /** The body of the loop. */
  method AddBlock(chunks: seq<Chunk>, group: seq<Block>, groupTokens: nat, block: Block,
                  ghost pieces: seq<Piece>, ghost blocks: seq<Block>)
    returns (chunks': seq<Chunk>, group': seq<Block>, groupTokens': nat, ghost pieces': seq<Piece>)
    requires Packing(chunks, group, groupTokens, pieces, blocks)
    ensures Packing(chunks', group', groupTokens', pieces', blocks + [block])
  {
    var blockTokens := EstimateTokens(block.text);
    if blockTokens > MAX_CHUNK_TOKENS {
      chunks', pieces' := AddOversized(chunks, group, groupTokens, block, pieces, blocks);
      group', groupTokens' := [], 0;
    } else {
      chunks', group', groupTokens', pieces' := AddToGroup(chunks, group, groupTokens, block, pieces, blocks);
    }
  }

  /** A block too large for a chunk closes the open group and is split. */
  method AddOversized(chunks: seq<Chunk>, group: seq<Block>, ghost groupTokens: nat, block: Block,
                      ghost pieces: seq<Piece>, ghost blocks: seq<Block>)
    returns (chunks': seq<Chunk>, ghost pieces': seq<Piece>)
    requires Packing(chunks, group, groupTokens, pieces, blocks) && Oversized(block)
    ensures Packing(chunks', [], 0, pieces', blocks + [block])
  {
    chunks' := FlushGroup(chunks, group, pieces);
    chunks', pieces' := PushSplit(chunks', block, WithGroup(pieces, group), blocks);
  }

  /** A block that fits in a chunk joins the open group, or opens a new one. */
  method AddToGroup(chunks: seq<Chunk>, group: seq<Block>, groupTokens: nat, block: Block,
                    ghost pieces: seq<Piece>, ghost blocks: seq<Block>)
    returns (chunks': seq<Chunk>, group': seq<Block>, groupTokens': nat, ghost pieces': seq<Piece>)
    requires Packing(chunks, group, groupTokens, pieces, blocks) && !Oversized(block)
    ensures Packing(chunks', group', groupTokens', pieces', blocks + [block])
  {
    chunks', group', groupTokens', pieces' := chunks, group, groupTokens, pieces;
    TokensOne(block);
    TokensAppend(group, [block]);
    if |group| > 0 && groupTokens + EstimateTokens(block.text) > TARGET_CHUNK_TOKENS {
      PlanOpen(pieces, group, blocks, block);
      chunks' := FlushGroup(chunks, group, pieces);
      pieces' := WithGroup(pieces, group);
      group', groupTokens' := [], 0;
    } else if group == [] {
      PlanAppend(pieces, blocks, Group([block]));
    } else {
      PlanGrow(pieces, group, blocks, block);
    }
    group' := group' + [block];
    groupTokens' := groupTokens' + EstimateTokens(block.text);
  }

  method FlushGroup(chunks: seq<Chunk>, group: seq<Block>, ghost pieces: seq<Piece>) returns (flushed: seq<Chunk>)
    requires chunks == Render(pieces)
    ensures flushed == Render(WithGroup(pieces, group))
  {
    flushed := chunks;
    if |group| != 0 {
      assert (pieces + [Group(group)])[..|pieces|] == pieces;
      var text := Join(Texts(group));
      flushed := chunks + [MakeChunk(|chunks|, Ids(group), Span(0, |text|), text, group[0].page)];
    }
  }

  method PushSplit(chunks: seq<Chunk>, block: Block, ghost pieces: seq<Piece>, ghost blocks: seq<Block>)
    returns (pushed: seq<Chunk>, ghost done: seq<Piece>)
    requires chunks == Render(pieces) && IsPlan(pieces, blocks) && Oversized(block)
    ensures pushed == Render(done) && IsPlan(done, blocks + [block])
    ensures done != [] && done[|done| - 1].Split?
  {
    var spans := SplitOversizedBlock(block.text);
    pushed := PushWindows(chunks, block, spans);
    PlanAppend(pieces, blocks, Split(block, spans));
    done := pieces + [Split(block, spans)];
    assert done[..|pieces|] == pieces;
  }

  method PushWindows(chunks: seq<Chunk>, block: Block, spans: seq<Span>) returns (r: seq<Chunk>)
    ensures r == chunks + SplitChunks(|chunks|, block, spans)
  {
    r := chunks;
    for i := 0 to |spans|
      invariant r == chunks + SplitChunks(|chunks|, block, spans[..i])
    {
      r := r + [MakeChunk(|r|, [block.id], spans[i], Slice(block.text, spans[i]), block.page)];
    }
    assert spans[..|spans|] == spans;
  }

  // ----- what a chunk shows -----

  /** The chunk is a run of the ordered blocks: their ids, their texts each in its place, the first one's page. */
  ghost predicate IsRun(c: Chunk, ordered: seq<Block>, from: nat, to: nat) {
    && from < to <= |ordered|
    && LaidOut(c.text, ordered[from..to]) && c.charSpan == Span(0, |c.text|)
    && c.page == ordered[from].page
    && |c.blockIds| == to - from
    && (forall i :: from <= i < to ==> c.blockIds[i - from] == ordered[i].id && |ordered[i].text| <= 2000)
  }

  /** The last position up to 1600 characters on where the text ends or a space follows, else just that far. */
  ghost predicate LastBreak(text: string, start: nat, end: nat) {
    && start < end <= |text| && end - start <= 1600
    && if start + 1600 >= |text| then end == |text|
       else
         && (forall j :: end < j <= start + 1600 ==> text[j] != ' ')
         && (text[end] == ' ' || (end == start + 1600 && forall j :: start < j <= end ==> text[j] != ' '))
  }

  /** The chunk is a stretch of one long block, up to its last break. */
  ghost predicate IsWindow(c: Chunk, b: Block) {
    && |b.text| > 2000
    && c.blockIds == [b.id] && c.page == b.page
    && LastBreak(b.text, c.charSpan.start, c.charSpan.end)
    && c.text == b.text[c.charSpan.start..c.charSpan.end]
  }

  /** A run or a window; a token is counted for every four characters begun. */
  ghost predicate Shows(c: Chunk, ordered: seq<Block>) {
    && 4 * (c.tokenCount - 1) < |c.text| <= 4 * c.tokenCount
    && ((exists from: nat, to: nat :: IsRun(c, ordered, from, to)) || exists b :: b in ordered && IsWindow(c, b))
  }

  lemma GroupShows(blocks: seq<Block>, ordinal: nat)
    requires PieceOk(Group(blocks))
    ensures IsRun(GroupChunk(ordinal, blocks), blocks, 0, |blocks|)
  {
    JoinLaysOut(blocks, Join(Texts(blocks)));
    TakeAll(blocks);
    forall i | 0 <= i < |blocks| ensures |blocks[i].text| <= 2000 {
      assert !Oversized(blocks[i]);
    }
  }

  lemma ShowsRun(c: Chunk, ordered: seq<Block>, from: nat, to: nat)
    requires IsRun(c, ordered, from, to) && 4 * (c.tokenCount - 1) < |c.text| <= 4 * c.tokenCount
    ensures Shows(c, ordered)
  {
  }

  lemma ShowsWindow(c: Chunk, ordered: seq<Block>, b: Block)
    requires b in ordered && IsWindow(c, b) && 4 * (c.tokenCount - 1) < |c.text| <= 4 * c.tokenCount
    ensures Shows(c, ordered)
  {
  }

  lemma SplitShows(b: Block, spans: seq<Span>, ordinal: nat, i: nat)
    requires PieceOk(Split(b, spans)) && i < |spans|
    ensures Shows(SplitChunks(ordinal, b, spans)[i], [b])
  {
    TilesAt(b.text, 0, spans, |b.text|, i);
    ShowsWindow(SplitChunks(ordinal, b, spans)[i], [b], b);
  }

  lemma RunBefore(c: Chunk, run: seq<Block>, after: seq<Block>, from: nat, to: nat)
    requires IsRun(c, run, from, to)
    ensures IsRun(c, run + after, from, to)
  {
    assert (run + after)[from..to] == run[from..to];
    assert forall i :: from <= i < to ==> (run + after)[i] == run[i];
  }

  lemma RunAfter(c: Chunk, before: seq<Block>, run: seq<Block>, from: nat, to: nat)
    requires IsRun(c, run, from, to)
    ensures IsRun(c, before + run, |before| + from, |before| + to)
  {
    var all := before + run;
    assert all[|before| + from..|before| + to] == run[from..to];
    assert forall i :: |before| + from <= i < |before| + to ==> all[i] == run[i - |before|];
  }

  lemma ShowsBefore(c: Chunk, run: seq<Block>, after: seq<Block>)
    requires Shows(c, run)
    ensures Shows(c, run + after)
  {
    if from: nat, to: nat :| IsRun(c, run, from, to) {
      RunBefore(c, run, after, from, to);
    } else {
      var b :| b in run && IsWindow(c, b);
      ShowsWindow(c, run + after, b);
    }
  }

  lemma ShowsAfter(c: Chunk, before: seq<Block>, run: seq<Block>)
    requires Shows(c, run)
    ensures Shows(c, before + run)
  {
    if from: nat, to: nat :| IsRun(c, run, from, to) {
      RunAfter(c, before, run, from, to);
    } else {
      var b :| b in run && IsWindow(c, b);
      ShowsWindow(c, before + run, b);
    }
  }

  lemma PieceShows(p: Piece, ordinal: nat, c: Chunk)
    requires PieceOk(p) && c in PieceChunks(ordinal, p)
    ensures Shows(c, BlocksOf(p))
  {
    match p
    case Group(blocks) =>
      GroupShows(blocks, ordinal);
      ShowsRun(c, blocks, 0, |blocks|);
    case Split(b, spans) =>
      var i :| 0 <= i < |spans| && SplitChunks(ordinal, b, spans)[i] == c;
      SplitShows(b, spans, ordinal, i);
  }

  lemma InRender(pieces: seq<Piece>, c: Chunk)
    requires c in Render(pieces)
    ensures pieces != []
    ensures var n := |pieces| - 1;
      c in Render(pieces[..n]) || c in PieceChunks(|Render(pieces[..n])|, pieces[n])
  {
  }

  lemma {:induction false} RenderShows(pieces: seq<Piece>, c: Chunk)
    requires (forall i :: 0 <= i < |pieces| ==> PieceOk(pieces[i])) && c in Render(pieces)
    ensures Shows(c, AllBlocks(pieces))
  {
    InRender(pieces, c);
    var front, last := pieces[..|pieces| - 1], pieces[|pieces| - 1];
    if c in Render(front) {
      RenderShows(front, c);
      ShowsBefore(c, AllBlocks(front), BlocksOf(last));
    } else {
      PieceShows(last, |Render(front)|, c);
      ShowsAfter(c, AllBlocks(front), BlocksOf(last));
    }
  }

  lemma BuiltShows(chunks: seq<Chunk>, blocks: seq<Block>)
    requires IsBuilt(chunks, blocks)
    ensures forall c :: c in chunks ==> Shows(c, Ordered(blocks))
  {
    var pieces :| IsPlan(pieces, Ordered(blocks)) && chunks == Render(pieces);
    forall c | c in chunks { RenderShows(pieces, c); }
  }

  // ----- the plan is determined -----

  lemma {:induction false} AllBlocksCons(p: Piece, rest: seq<Piece>)
    ensures AllBlocks([p] + rest) == BlocksOf(p) + AllBlocks(rest)
  {
    if rest == [] {
      assert ([p] + rest)[..0] == [];
    } else {
      var n := |rest| - 1;
      assert ([p] + rest)[..n + 1] == [p] + rest[..n];
      AllBlocksCons(p, rest[..n]);
      Associates(BlocksOf(p), AllBlocks(rest[..n]), BlocksOf(rest[n]));
    }
  }

  lemma PlanTail(pieces: seq<Piece>, blocks: seq<Block>)
    requires IsPlan(pieces, blocks) && pieces != []
    ensures var first := BlocksOf(pieces[0]);
            first != [] && first <= blocks && IsPlan(pieces[1..], blocks[|first|..])
  {
    assert pieces == [pieces[0]] + pieces[1..];
    AllBlocksCons(pieces[0], pieces[1..]);
    assert PieceOk(pieces[0]);
  }

  lemma OneLonger(g: seq<Block>, h: seq<Block>, blocks: seq<Block>)
    requires g <= blocks && h <= blocks && |g| < |h|
    ensures h[..|g| + 1] == g + [h[|g|]] && blocks[|g|..][0] == h[|g|]
  {
    assert g == blocks[..|g|] && h == blocks[..|h|];
  }

  /** The first group of one plan cannot stop before the first group of another. */
  lemma FirstGroupMaximal(p: seq<Piece>, q: seq<Piece>, blocks: seq<Block>)
    requires IsPlan(p, blocks) && IsPlan(q, blocks) && p != [] && q != []
    requires p[0].Group? && q[0].Group?
    ensures |p[0].blocks| >= |q[0].blocks|
  {
    PlanTail(p, blocks);
    PlanTail(q, blocks);
    var g, h := p[0].blocks, q[0].blocks;
    if |g| < |h| {
      var next, rest := h[|g|], p[1..];
      OneLonger(g, h, blocks);
      assert rest != [] by { assert AllBlocks([]) == []; }
      PlanTail(rest, blocks[|g|..]);
      assert next == BlocksOf(rest[0])[0] && next in h;
      assert PieceOk(q[0]) && PieceOk(rest[0]) && Full(p[0], p[1]);
      TokensAppend(g, [next]);
      TokensOne(next);
      TokensOfPrefix(h[..|g| + 1], h);
    }
  }

  lemma TokensOfPrefix(g: seq<Block>, h: seq<Block>)
    requires g <= h
    ensures Tokens(h) >= Tokens(g)
  {
    TokensAppend(g, h[|g|..]);
    assert h == g + h[|g|..];
  }

  lemma SameKind(p: Piece, q: Piece, first: Block)
    requires PieceOk(p) && PieceOk(q) && BlocksOf(p)[0] == first == BlocksOf(q)[0]
    ensures p.Group? <==> q.Group?
  {
    assert p.Group? ==> first in p.blocks;
    assert q.Group? ==> first in q.blocks;
  }

  /** Greedy packing leaves no freedom: the blocks determine the plan, and so the chunks. */
  lemma {:induction false} PlanUnique(p: seq<Piece>, q: seq<Piece>, blocks: seq<Block>)
    requires IsPlan(p, blocks) && IsPlan(q, blocks)
    ensures p == q
    decreases |p|
  {
    assert p == [] ==> AllBlocks(p) == [];
    assert q == [] ==> AllBlocks(q) == [];
    if q != [] {
      PlanTail(q, blocks);
    }
    if p != [] {
      PlanTail(p, blocks);
      if q != [] {
        SameKind(p[0], q[0], blocks[0]);
        if p[0].Group? {
          FirstGroupMaximal(p, q, blocks);
          FirstGroupMaximal(q, p, blocks);
          assert p[0].blocks == blocks[..|p[0].blocks|] == q[0].blocks;
        } else {
          TilesUnique(blocks[0].text, 0, p[0].spans, q[0].spans);
        }
        assert p[0] == q[0];
        PlanUnique(p[1..], q[1..], blocks[|BlocksOf(p[0])|..]);
        assert p == [p[0]] + p[1..] && q == [q[0]] + q[1..];
      }
    }
  }

  // ----- the token ceiling -----

  function TextLength(blocks: seq<Block>): nat {
    if blocks == [] then 0 else TextLength(blocks[..|blocks| - 1]) + |blocks[|blocks| - 1].text|
  }

  lemma {:induction false} JoinAppend(texts: seq<string>, t: string)
    requires texts != []
    ensures |Join(texts + [t])| == |Join(texts)| + 1 + |t|
  {
    if |texts| == 1 {
      assert (texts + [t])[1..] == [t];
    } else {
      assert (texts + [t])[1..] == texts[1..] + [t];
      JoinAppend(texts[1..], t);
    }
  }

  /** A chunk's text is its blocks' texts and one joiner between each two. */
  lemma {:induction false} JoinLength(blocks: seq<Block>)
    requires blocks != []
    ensures |Join(Texts(blocks))| == TextLength(blocks) + |blocks| - 1
  {
    var n := |blocks| - 1;
    if n == 0 {
      assert blocks[..0] == [];
    } else {
      JoinLength(blocks[..n]);
      JoinAppend(Texts(blocks[..n]), blocks[n].text);
      assert Texts(blocks) == Texts(blocks[..n]) + [blocks[n].text];
    }
  }

  /** A non-empty block has at least one token and at most four characters a token. */
  lemma {:induction false} TokensBoundText(blocks: seq<Block>)
    requires forall b :: b in blocks ==> b.text != ""
    ensures |blocks| <= Tokens(blocks) && TextLength(blocks) <= CHARS_PER_TOKEN * Tokens(blocks)
  {
    if blocks != [] {
      assert blocks[|blocks| - 1].text != "";
      TokensBoundText(blocks[..|blocks| - 1]);
    }
  }

  lemma GroupCeiling(p: Piece)
    requires PieceOk(p) && p.Group? && forall b :: b in p.blocks ==> b.text != ""
    ensures EstimateTokens(Join(Texts(p.blocks))) <= MAX_CHUNK_TOKENS
  {
    JoinLength(p.blocks);
    TokensBoundText(p.blocks);
    if |p.blocks| == 1 {
      assert Texts(p.blocks) == [p.blocks[0].text] && p.blocks[0] in p.blocks;
    }
  }

  lemma {:induction false} TilesAt(text: string, from: nat, spans: seq<Span>, to: nat, i: nat)
    requires Tiles(text, from, spans, to) && i < |spans|
    ensures from <= spans[i].start && IsCut(text, spans[i].start, spans[i].end)
    ensures spans[i].start == if i == 0 then from else spans[i - 1].end
    decreases spans
  {
    if i > 0 {
      TilesAt(text, spans[0].end, spans[1..], to, i - 1);
    }
  }

  lemma {:induction false} WindowCeiling(ordinal: nat, b: Block, spans: seq<Span>, i: nat)
    requires Tiles(b.text, 0, spans, |b.text|) && i < |spans|
    ensures SplitChunks(ordinal, b, spans)[i].tokenCount <= TARGET_CHUNK_TOKENS
  {
    TilesAt(b.text, 0, spans, |b.text|, i);
  }

  lemma PieceCeiling(p: Piece, ordinal: nat, c: Chunk)
    requires PieceOk(p) && c in PieceChunks(ordinal, p)
    requires p.Group? ==> forall b :: b in p.blocks ==> b.text != ""
    ensures c.tokenCount <= MAX_CHUNK_TOKENS
  {
    if p.Group? {
      GroupCeiling(p);
    } else {
      var i :| 0 <= i < |p.spans| && c == SplitChunks(ordinal, p.block, p.spans)[i];
      WindowCeiling(ordinal, p.block, p.spans, i);
    }
  }

  /** When no block is empty, no chunk has more than 500 tokens. */
  lemma {:induction false} ChunkCeiling(pieces: seq<Piece>, blocks: seq<Block>, c: Chunk)
    requires IsPlan(pieces, blocks) && c in Render(pieces)
    requires forall b :: b in blocks ==> b.text != ""
    ensures c.tokenCount <= MAX_CHUNK_TOKENS
  {
    var n := |pieces| - 1;
    var front := Render(pieces[..n]);
    if c in front {
      assert IsPlan(pieces[..n], AllBlocks(pieces[..n])) by {
        forall i | 0 <= i < n - 1 ensures Full(pieces[..n][i], pieces[..n][i + 1]) {
          assert Full(pieces[i], pieces[i + 1]);
        }
      }
      ChunkCeiling(pieces[..n], AllBlocks(pieces[..n]), c);
    } else {
      PieceCeiling(pieces[n], |front|, c);
    }
  }

  /** The texts of a group and their joiners fit in 2000 characters. */
  predicate FitsJoined(p: Piece) {
    p.Group? ==> TextLength(p.blocks) + |p.blocks| - 1 <= MAX_CHUNK_TOKENS * CHARS_PER_TOKEN
  }

  lemma PieceCeilingIff(p: Piece, ordinal: nat)
    requires PieceOk(p)
    ensures UnderCeiling(PieceChunks(ordinal, p)) <==> FitsJoined(p)
  {
    if p.Group? {
      JoinLength(p.blocks);
      assert GroupChunk(ordinal, p.blocks) in PieceChunks(ordinal, p);
    } else {
      forall c | c in PieceChunks(ordinal, p) ensures c.tokenCount <= MAX_CHUNK_TOKENS {
        PieceCeiling(p, ordinal, c);
      }
    }
  }

  ghost predicate AllFitJoined(pieces: seq<Piece>) {
    forall p :: p in pieces ==> FitsJoined(p)
  }

  /** No chunk exceeds 500 tokens exactly when every group fits in 2000 characters with its joiners. */
  lemma {:induction false} CeilingHoldsIff(pieces: seq<Piece>)
    requires forall i :: 0 <= i < |pieces| ==> PieceOk(pieces[i])
    ensures UnderCeiling(Render(pieces)) <==> AllFitJoined(pieces)
  {
    if pieces != [] {
      var n := |pieces| - 1;
      CeilingHoldsIff(pieces[..n]);
      LastPieceCeiling(pieces[..n], pieces[n]);
      TakeAll(pieces);
    }
  }

  lemma LastPieceCeiling(front: seq<Piece>, last: Piece)
    requires PieceOk(last) && (UnderCeiling(Render(front)) <==> AllFitJoined(front))
    ensures UnderCeiling(Render(front + [last])) <==> AllFitJoined(front + [last])
  {
    var chunks := PieceChunks(|Render(front)|, last);
    assert (front + [last])[..|front|] == front;
    PieceCeilingIff(last, |Render(front)|);
    UnderCeilingAppend(Render(front), chunks);
    AllFitAppend(front, last);
  }

  lemma AllFitAppend(front: seq<Piece>, last: Piece)
    ensures AllFitJoined(front + [last]) <==> AllFitJoined(front) && FitsJoined(last)
  {
    assert forall p :: p in front + [last] <==> p in front || p == last;
  }

  predicate UnderCeiling(chunks: seq<Chunk>) {
    forall c :: c in chunks ==> c.tokenCount <= MAX_CHUNK_TOKENS
  }

  lemma UnderCeilingAppend(a: seq<Chunk>, b: seq<Chunk>)
    ensures UnderCeiling(a + b) <==> UnderCeiling(a) && UnderCeiling(b)
  {
    if UnderCeiling(a + b) {
      assert forall c :: c in a || c in b ==> c in a + b;
    }
  }

  /** n blocks with the same text. */
  function Copies(n: nat, text: string): seq<Block> {
    seq(n, i => Block("b", text, i, None))
  }

  lemma {:induction false} CopiesSize(n: nat, text: string)
    ensures Tokens(Copies(n, text)) == n * EstimateTokens(text) && TextLength(Copies(n, text)) == n * |text|
  {
    if n > 0 {
      assert Copies(n, text)[..n - 1] == Copies(n - 1, text);
      CopiesSize(n - 1, text);
      assert n * EstimateTokens(text) == (n - 1) * EstimateTokens(text) + EstimateTokens(text);
      assert n * |text| == (n - 1) * |text| + |text|;
    }
  }

  /** Copies that fit make one chunk. */
  lemma CopiesChunk(n: nat, text: string, blocks: seq<Block>)
    requires n > 0 && blocks == Copies(n, text)
    requires n * EstimateTokens(text) <= TARGET_CHUNK_TOKENS && EstimateTokens(text) <= TARGET_CHUNK_TOKENS
    ensures IsPlan([Group(blocks)], blocks) && |Render([Group(blocks)])| == 1
    ensures |Render([Group(blocks)])[0].text| == n * |text| + n - 1
  {
    CopiesSize(n, text);
    JoinLength(blocks);
    assert [Group(blocks)][..0] == [];
  }

  lemma CopiesOrdered(n: nat, text: string)
    ensures Ordered(Copies(n, text)) == Copies(n, text)
  {
    SortedStays(Copies(n, text), EarlierOrdinal);
  }

  lemma BuiltInOrder(pieces: seq<Piece>, blocks: seq<Block>)
    requires Ordered(blocks) == blocks && IsPlan(pieces, blocks)
    ensures IsBuilt(Render(pieces), blocks)
  {
  }

  /** Copies that fit are built into one chunk, whose tokens include the joiners. */
  lemma CopiesBuilt(n: nat, text: string, blocks: seq<Block>) returns (c: Chunk)
    requires n > 0 && blocks == Copies(n, text)
    requires n * EstimateTokens(text) <= TARGET_CHUNK_TOKENS && EstimateTokens(text) <= TARGET_CHUNK_TOKENS
    ensures IsBuilt([c], blocks) && |c.text| == n * |text| + n - 1 && c.tokenCount == EstimateTokens(c.text)
  {
    CopiesChunk(n, text, blocks);
    CopiesOrdered(n, text);
    BuiltInOrder([Group(blocks)], blocks);
    TokenCounts([Group(blocks)]);
    c := Render([Group(blocks)])[0];
    assert Render([Group(blocks)]) == [c] && c in Render([Group(blocks)]);
  }

  /** The ceiling is tight: 400 one-token blocks of four characters make one chunk of exactly 500. */
  lemma CeilingIsTight(blocks: seq<Block>) returns (c: Chunk)
    requires blocks == Copies(400, "four")
    ensures IsBuilt([c], blocks) && c.tokenCount == MAX_CHUNK_TOKENS
  {
    c := CopiesBuilt(400, "four", blocks);
  }

  /** With empty blocks the ceiling fails: 2002 of them cost no tokens, but their joiners do. */
  lemma EmptyBlocksBreakCeiling(blocks: seq<Block>) returns (c: Chunk)
    requires blocks == Copies(2002, "")
    ensures IsBuilt([c], blocks) && c.tokenCount == MAX_CHUNK_TOKENS + 1
  {
    c := CopiesBuilt(2002, "", blocks);
  }

  lemma {:induction false} TokenCounts(pieces: seq<Piece>)
    ensures forall c :: c in Render(pieces) ==> c.tokenCount == EstimateTokens(c.text)
  {
    if pieces != [] {
      TokenCounts(pieces[..|pieces| - 1]);
    }
  }

  // ----- coverage -----

  /** The block ids of the chunks that start at the beginning of a block. */
  function StartedBlocks(chunks: seq<Chunk>): seq<string> {
    if chunks == [] then []
    else
      var c := chunks[|chunks| - 1];
      StartedBlocks(chunks[..|chunks| - 1]) + if c.charSpan.start == 0 then c.blockIds else []
  }

  lemma {:induction false} StartedAppend(a: seq<Chunk>, b: seq<Chunk>)
    ensures StartedBlocks(a + b) == StartedBlocks(a) + StartedBlocks(b)
  {
    if b == [] {
      assert a + b == a;
    } else {
      assert (a + b)[..|a + b| - 1] == a + b[..|b| - 1];
      StartedAppend(a, b[..|b| - 1]);
    }
  }

  lemma OnlyFirstStarts(text: string, spans: seq<Span>, i: nat)
    requires Tiles(text, 0, spans, |text|) && i < |spans|
    ensures spans[i].start == 0 <==> i == 0
  {
    TilesAt(text, 0, spans, |text|, i);
    if i > 0 { TilesAt(text, 0, spans, |text|, i - 1); }
  }

  lemma {:induction false} SplitStarts(ordinal: nat, b: Block, spans: seq<Span>, n: nat)
    requires PieceOk(Split(b, spans)) && 1 <= n <= |spans|
    ensures StartedBlocks(SplitChunks(ordinal, b, spans)[..n]) == [b.id]
  {
    var chunks := SplitChunks(ordinal, b, spans);
    OnlyFirstStarts(b.text, spans, n - 1);
    StartedOneMore(chunks, n - 1);
    if n > 1 { SplitStarts(ordinal, b, spans, n - 1); }
  }

  lemma StartedOneMore(chunks: seq<Chunk>, i: nat)
    requires i < |chunks|
    ensures StartedBlocks(chunks[..i + 1])
      == StartedBlocks(chunks[..i]) + if chunks[i].charSpan.start == 0 then chunks[i].blockIds else []
  {
    assert chunks[..i + 1][..i] == chunks[..i];
  }

  lemma PieceStarts(ordinal: nat, p: Piece)
    requires PieceOk(p)
    ensures StartedBlocks(PieceChunks(ordinal, p)) == Ids(BlocksOf(p))
  {
    if p.Split? {
      var chunks := SplitChunks(ordinal, p.block, p.spans);
      assert p.spans != [];
      SplitStarts(ordinal, p.block, p.spans, |p.spans|);
      assert chunks[..|p.spans|] == chunks;
    } else {
      assert [GroupChunk(ordinal, p.blocks)][..0] == [];
    }
  }

  /** Every block is started by exactly one chunk, in order. */
  lemma {:induction false} ChunksCoverBlocks(pieces: seq<Piece>)
    requires forall i :: 0 <= i < |pieces| ==> PieceOk(pieces[i])
    ensures StartedBlocks(Render(pieces)) == Ids(AllBlocks(pieces))
  {
    if pieces != [] {
      var front, p := pieces[..|pieces| - 1], pieces[|pieces| - 1];
      ChunksCoverBlocks(front);
      StartedAppend(Render(front), PieceChunks(|Render(front)|, p));
      PieceStarts(|Render(front)|, p);
      IdsAppend(AllBlocks(front), BlocksOf(p));
    }
  }

  lemma IdsAppend(a: seq<Block>, b: seq<Block>)
    ensures Ids(a + b) == Ids(a) + Ids(b)
  {
  }

  predicate Numbered(chunks: seq<Chunk>, from: nat) {
    forall i :: 0 <= i < |chunks| ==> chunks[i].ordinal == from + i
  }

  lemma PieceNumbered(ordinal: nat, p: Piece)
    ensures Numbered(PieceChunks(ordinal, p), ordinal)
  {
  }

  lemma NumberedAppend(a: seq<Chunk>, b: seq<Chunk>)
    requires Numbered(a, 0) && Numbered(b, |a|)
    ensures Numbered(a + b, 0)
  {
  }

  /** The chunks are numbered from zero. */
  lemma {:induction false} ChunksAreNumbered(pieces: seq<Piece>)
    ensures Numbered(Render(pieces), 0)
  {
    if pieces != [] {
      var front, p := pieces[..|pieces| - 1], pieces[|pieces| - 1];
      ChunksAreNumbered(front);
      PieceNumbered(|Render(front)|, p);
      NumberedAppend(Render(front), PieceChunks(|Render(front)|, p));
    }
  }

  // ----- freshness -----

  /** The lookup table: a later block with the same id replaces an earlier one. */
  function ById(blocks: seq<Block>): map<string, Block> {
    if blocks == [] then map[]
    else ById(blocks[..|blocks| - 1])[blocks[|blocks| - 1].id := blocks[|blocks| - 1]]
  }

  lemma {:induction false} ByIdFinds(blocks: seq<Block>)
    requires Distinct(Ids(blocks))
    ensures forall b :: b in blocks ==> b.id in ById(blocks) && ById(blocks)[b.id] == b
    ensures forall id :: id in ById(blocks) ==> exists b :: b in blocks && b.id == id
  {
    if blocks != [] {
      var n := |blocks| - 1;
      assert Ids(blocks)[..n] == Ids(blocks[..n]);
      forall i | 0 <= i < n ensures blocks[i].id != blocks[n].id {
        assert Ids(blocks)[i] != Ids(blocks)[n];
      }
      ByIdFinds(blocks[..n]);
      assert forall b :: b in blocks[..n] ==> b.id != blocks[n].id;
      assert blocks == blocks[..n] + [blocks[n]];
    }
  }

  predicate AllPresent(byId: map<string, Block>, ids: seq<string>) {
    forall i :: 0 <= i < |ids| ==> ids[i] in byId
  }

  function TextsById(byId: map<string, Block>, ids: seq<string>): (texts: seq<string>)
    requires AllPresent(byId, ids)
    ensures |texts| == |ids| && forall i :: 0 <= i < |ids| ==> texts[i] == byId[ids[i]].text
  {
    seq(|ids|, i requires 0 <= i < |ids| => byId[ids[i]].text)
  }

  /** The text of a chunk read off the blocks; None when a block is gone. */
  function Reconstructed(byId: map<string, Block>, blockIds: seq<string>, span: Span): Option<string> {
    if AllPresent(byId, blockIds) then Some(Slice(Join(TextsById(byId, blockIds)), span)) else None
  }

  /** The blocks that the ids name. */
  function Named(byId: map<string, Block>, ids: seq<string>): (blocks: seq<Block>)
    requires AllPresent(byId, ids)
    ensures |blocks| == |ids| && forall i :: 0 <= i < |ids| ==> blocks[i] == byId[ids[i]]
  {
    seq(|ids|, i requires 0 <= i < |ids| => byId[ids[i]])
  }

  /** The part between two positions, as far as there is one. */
  ghost predicate IsStretch(part: string, whole: string, start: nat, end: nat) {
    var to := if end < |whole| then end else |whole|;
    && |part| == (if start < to then to - start else 0)
    && forall k :: 0 <= k < |part| ==> part[k] == whole[start + k]
  }

  /** What the named blocks, laid out, show between the two positions. */
  ghost predicate ShowsNamed(text: string, byId: map<string, Block>, ids: seq<string>, span: Span) {
    AllPresent(byId, ids)
    && exists whole :: LaidOut(whole, Named(byId, ids)) && IsStretch(text, whole, span.start, span.end)
  }

  lemma ReconstructedShows(byId: map<string, Block>, ids: seq<string>, span: Span)
    ensures AllPresent(byId, ids) <==> forall id :: id in ids ==> id in byId
    ensures Reconstructed(byId, ids, span).Some? <==> forall id :: id in ids ==> id in byId
    ensures Reconstructed(byId, ids, span).Some? ==> ShowsNamed(Reconstructed(byId, ids, span).value, byId, ids, span)
  {
    if AllPresent(byId, ids) {
      var whole := Join(TextsById(byId, ids));
      NamedLaidOut(byId, ids);
      SliceIsStretch(whole, span);
    }
  }

  lemma NamedLaidOut(byId: map<string, Block>, ids: seq<string>)
    requires AllPresent(byId, ids)
    ensures LaidOut(Join(TextsById(byId, ids)), Named(byId, ids))
  {
    assert TextsById(byId, ids) == Texts(Named(byId, ids));
    JoinLaysOut(Named(byId, ids), Join(TextsById(byId, ids)));
  }

  lemma SliceIsStretch(whole: string, span: Span)
    ensures IsStretch(Slice(whole, span), whole, span.start, span.end)
  {
  }

  method ReconstructChunkText(byId: map<string, Block>, blockIds: seq<string>, span: Span)
    returns (text: Option<string>)
    ensures text == Reconstructed(byId, blockIds, span)
    ensures text.Some? <==> forall id :: id in blockIds ==> id in byId
    ensures text.Some? ==> ShowsNamed(text.value, byId, blockIds, span)
  {
    ReconstructedShows(byId, blockIds, span);
    var texts: seq<string> := [];
    for i := 0 to |blockIds|
      invariant |texts| == i && forall j :: 0 <= j < i ==> blockIds[j] in byId && texts[j] == byId[blockIds[j]].text
    {
      if blockIds[i] !in byId {
        return None;
      }
      texts := texts + [byId[blockIds[i]].text];
    }
    assert texts == TextsById(byId, blockIds);
    return Some(Slice(Join(texts), span));
  }

  method IsChunkStale(c: Chunk, blocks: seq<Block>) returns (stale: bool)
    ensures stale <==> Reconstructed(ById(blocks), c.blockIds, c.charSpan) != Some(c.text)
  {
    var byId: map<string, Block> := map[];
    for i := 0 to |blocks|
      invariant byId == ById(blocks[..i])
    {
      assert blocks[..i + 1][..i] == blocks[..i];
      byId := byId[blocks[i].id := blocks[i]];
    }
    assert blocks[..|blocks|] == blocks;
    var text := ReconstructChunkText(byId, c.blockIds, c.charSpan);
    stale := text != Some(c.text);
  }

  lemma WholeSlice(text: string)
    ensures Slice(text, Span(0, |text|)) == text
  {
  }

  lemma GroupFresh(blocks: seq<Block>, byId: map<string, Block>)
    requires forall i :: 0 <= i < |blocks| ==> blocks[i].id in byId && byId[blocks[i].id] == blocks[i]
    ensures var text := Join(Texts(blocks)); Reconstructed(byId, Ids(blocks), Span(0, |text|)) == Some(text)
  {
    assert AllPresent(byId, Ids(blocks));
    assert TextsById(byId, Ids(blocks)) == Texts(blocks);
    WholeSlice(Join(Texts(blocks)));
  }

  lemma WindowFresh(b: Block, span: Span, byId: map<string, Block>)
    requires b.id in byId && byId[b.id] == b
    ensures Reconstructed(byId, [b.id], span) == Some(Slice(b.text, span))
  {
    assert TextsById(byId, [b.id]) == [b.text];
  }

  lemma PieceFresh(p: Piece, ordinal: nat, c: Chunk, byId: map<string, Block>)
    requires PieceOk(p) && c in PieceChunks(ordinal, p)
    requires forall b :: b in BlocksOf(p) ==> b.id in byId && byId[b.id] == b
    ensures Reconstructed(byId, c.blockIds, c.charSpan) == Some(c.text)
  {
    match p
    case Group(blocks) =>
      assert forall i :: 0 <= i < |blocks| ==> blocks[i] in BlocksOf(p);
      GroupFresh(blocks, byId);
    case Split(b, spans) =>
      assert b in BlocksOf(p);
      WindowFresh(b, c.charSpan, byId);
  }

  lemma {:induction false} RenderFresh(pieces: seq<Piece>, c: Chunk, byId: map<string, Block>)
    requires (forall i :: 0 <= i < |pieces| ==> PieceOk(pieces[i])) && c in Render(pieces)
    requires forall b :: b in AllBlocks(pieces) ==> b.id in byId && byId[b.id] == b
    ensures Reconstructed(byId, c.blockIds, c.charSpan) == Some(c.text)
  {
    var n := |pieces| - 1;
    if c in Render(pieces[..n]) {
      RenderFresh(pieces[..n], c, byId);
    } else {
      PieceFresh(pieces[n], |Render(pieces[..n])|, c, byId);
    }
  }

  /** When block ids are distinct, every chunk built from the blocks is fresh against them, however they are listed. */
  lemma BuiltChunksAreFresh(blocks: seq<Block>, pieces: seq<Piece>, c: Chunk)
    requires Distinct(Ids(blocks)) && IsPlan(pieces, Ordered(blocks)) && c in Render(pieces)
    ensures Reconstructed(ById(blocks), c.blockIds, c.charSpan) == Some(c.text)
  {
    ByIdFinds(blocks);
    SameMembers(Ordered(blocks), blocks);
    RenderFresh(pieces, c, ById(blocks));
  }

  // ----- what the caller can rely on -----

  /** The blocks determine the chunks. */
  lemma BuiltUnique(a: seq<Chunk>, b: seq<Chunk>, blocks: seq<Block>)
    requires IsBuilt(a, blocks) && IsBuilt(b, blocks)
    ensures a == b
  {
    var p :| IsPlan(p, Ordered(blocks)) && a == Render(p);
    var q :| IsPlan(q, Ordered(blocks)) && b == Render(q);
    PlanUnique(p, q, Ordered(blocks));
  }

  /** What is built keeps the ceiling exactly when the groups of the blocks' one plan fit with their joiners. */
  lemma BuiltUnderCeilingIff(chunks: seq<Chunk>, blocks: seq<Block>)
    requires IsBuilt(chunks, blocks)
    ensures UnderCeiling(chunks) <==> forall pieces :: IsPlan(pieces, Ordered(blocks)) ==> AllFitJoined(pieces)
  {
    var plan :| IsPlan(plan, Ordered(blocks)) && chunks == Render(plan);
    CeilingHoldsIff(plan);
    forall pieces | IsPlan(pieces, Ordered(blocks)) ensures pieces == plan {
      PlanUnique(pieces, plan, Ordered(blocks));
    }
  }

  /**
   The chunks are numbered from zero and start every block once, in ordinal order. Without
   empty blocks none exceeds 500 tokens; with distinct block ids all are fresh.
   */
  lemma BuiltChunks(chunks: seq<Chunk>, blocks: seq<Block>)
    requires IsBuilt(chunks, blocks)
    ensures forall i :: 0 <= i < |chunks| ==> chunks[i].ordinal == i
    ensures StartedBlocks(chunks) == Ids(Ordered(blocks))
    ensures (forall b :: b in blocks ==> b.text != "") ==> forall c :: c in chunks ==> c.tokenCount <= MAX_CHUNK_TOKENS
    ensures Distinct(Ids(blocks)) ==>
      forall c :: c in chunks ==> Reconstructed(ById(blocks), c.blockIds, c.charSpan) == Some(c.text)
  {
    var pieces :| IsPlan(pieces, Ordered(blocks)) && chunks == Render(pieces);
    ChunksAreNumbered(pieces);
    ChunksCoverBlocks(pieces);
    SameMembers(Ordered(blocks), blocks);
    forall c | c in chunks && forall b :: b in blocks ==> b.text != "" ensures c.tokenCount <= MAX_CHUNK_TOKENS {
      ChunkCeiling(pieces, Ordered(blocks), c);
    }
    forall c | c in chunks && Distinct(Ids(blocks))
      ensures Reconstructed(ById(blocks), c.blockIds, c.charSpan) == Some(c.text)
    {
      BuiltChunksAreFresh(blocks, pieces, c);
    }
  }

  function WithOrdinal(blocks: seq<Block>, n: int): seq<Block> {
    Filter(blocks, (b: Block) => b.ordinal == n)
  }

  /** The order of packing: ascending ordinals, blocks with the same ordinal in their given order. */
  lemma OrderedByOrdinal(blocks: seq<Block>, n: int)
    ensures multiset(Ordered(blocks)) == multiset(blocks)
    ensures forall i, j :: 0 <= i < j < |blocks| ==> Ordered(blocks)[i].ordinal <= Ordered(blocks)[j].ordinal
    ensures WithOrdinal(Ordered(blocks), n) == WithOrdinal(blocks, n)
  {
    SortSorted(blocks, EarlierOrdinal);
    SortStable(blocks, EarlierOrdinal, (b: Block) => b.ordinal == n);
  }
}

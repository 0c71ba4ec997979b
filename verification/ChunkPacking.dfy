/** The packing loop: attached blocks become chunks, in order, within the approximate budget. */
module ChunkPacking {
  import opened Common
  import opened Chunks
  import opened TypedMarkers
  import opened Packing
  import Text

  /** One step of the packing: whole blocks that share a chunk, or one oversize block in pieces. */
  datatype Unit = Together(blocks: seq<ChunkBlock>) | Broken(block: ChunkBlock, bodies: seq<TextPiece>)

  ghost function UnitBlocks(u: Unit): seq<ChunkBlock> {
    match u
    case Together(blocks) => blocks
    case Broken(block, _) => [block]
  }

  ghost function BlocksOf(units: seq<Unit>): seq<ChunkBlock> {
    if units == [] then [] else BlocksOf(units[..|units| - 1]) + UnitBlocks(units[|units| - 1])
  }

  function FirstContext(blocks: seq<ChunkBlock>): Option<string> {
    if blocks == [] then None
    else if blocks[0].headingContext.Some? then blocks[0].headingContext
    else FirstContext(blocks[1..])
  }

  // ----- the chunks of a unit -----

  function DefinitionOf(text: string, definition: string, keepEmpty: bool): Option<string> {
    if definition != text && (keepEmpty || definition != "") then Some(definition) else None
  }

  function PackedChunk(ws: char -> bool, texts: seq<string>, definitions: seq<string>, anchor: Option<string>,
                       context: Option<string>, ord: int): Chunk
  {
    var text := Text.Trim(ws, Text.Join(PARAGRAPH_BREAK, texts));
    var definition := Text.Trim(ws, Text.Join(PARAGRAPH_BREAK, definitions));
    Chunk(ord, anchor, text, DefinitionOf(text, definition, false), 0, None, context)
  }

  function BrokenChunk(block: ChunkBlock, piece: TextPiece, ord: int): Chunk {
    Chunk(ord, block.anchor, piece.text, DefinitionOf(piece.text, piece.definition, true), 0, None, block.headingContext)
  }

  /** The chunks of a unit, before they are numbered. */
  ghost function Render(ws: char -> bool, u: Unit): seq<Chunk> {
    match u
    case Together(blocks) =>
      [PackedChunk(ws, Texts(blocks), Definitions(blocks), FirstAnchor(blocks), FirstContext(blocks), 0)]
    case Broken(block, bodies) =>
      seq(|bodies|, i requires 0 <= i < |bodies| => BrokenChunk(block, Headed(block, bodies)[i], 0))
  }

  ghost function RenderAll(ws: char -> bool, units: seq<Unit>): seq<Chunk> {
    if units == [] then [] else RenderAll(ws, units[..|units| - 1]) + Render(ws, units[|units| - 1])
  }

  ghost predicate Numbered(chunks: seq<Chunk>, bare: seq<Chunk>) {
    |chunks| == |bare| && forall i :: 0 <= i < |chunks| ==> chunks[i] == bare[i].(ord := i)
  }

  // ----- what the packing promises -----

  ghost predicate UnitOk(ws: char -> bool, g: Grammar, maxTokens: nat, u: Unit) {
    match u
    case Together(blocks) =>
      && blocks != []
      && Estimate(Text.TotalWords(ws, Texts(blocks))) <= maxTokens
      && forall k :: 1 <= k < |blocks| ==> blocks[k].headingContext.None?
    case Broken(block, bodies) =>
      ApproxTokens(ws, block.text) > maxTokens && IsBroken(ws, g, maxTokens, block, bodies)
  }

  /** A chunk ends only before a block that has a heading, or would take it over the budget. */
  ghost predicate MustEnd(ws: char -> bool, maxTokens: nat, u: Unit, next: ChunkBlock) {
    u.Together? ==>
      || next.headingContext.Some?
      || Estimate(Text.TotalWords(ws, Texts(u.blocks)) + Text.WordCount(ws, next.text)) > maxTokens
  }

  ghost predicate AllOk(ws: char -> bool, g: Grammar, maxTokens: nat, units: seq<Unit>) {
    forall k :: 0 <= k < |units| ==> UnitOk(ws, g, maxTokens, units[k])
  }

  ghost predicate AllMustEnd(ws: char -> bool, maxTokens: nat, units: seq<Unit>) {
    forall k :: 0 < k < |units| && units[k].Together? && units[k].blocks != [] ==>
      MustEnd(ws, maxTokens, units[k - 1], units[k].blocks[0])
  }

  /** `units` is the greedy packing of `blocks`. */
  ghost predicate ArePacked(ws: char -> bool, g: Grammar, maxTokens: nat, blocks: seq<ChunkBlock>, units: seq<Unit>) {
    BlocksOf(units) == blocks && AllOk(ws, g, maxTokens, units) && AllMustEnd(ws, maxTokens, units)
  }

  lemma BlocksSnoc(units: seq<Unit>, u: Unit)
    ensures BlocksOf(units + [u]) == BlocksOf(units) + UnitBlocks(u)
  {
    assert (units + [u])[..|units|] == units;
  }

  lemma PackedAppend(ws: char -> bool, g: Grammar, maxTokens: nat, blocks: seq<ChunkBlock>, units: seq<Unit>, u: Unit)
    requires ArePacked(ws, g, maxTokens, blocks, units) && UnitOk(ws, g, maxTokens, u)
    requires units != [] && u.Together? ==> MustEnd(ws, maxTokens, units[|units| - 1], u.blocks[0])
    ensures ArePacked(ws, g, maxTokens, blocks + UnitBlocks(u), units + [u])
  {
    hide UnitOk, MustEnd, BlocksOf;
    BlocksSnoc(units, u);
  }

  lemma PackedExtend(ws: char -> bool, g: Grammar, maxTokens: nat, blocks: seq<ChunkBlock>, units: seq<Unit>,
                     current: seq<ChunkBlock>, block: ChunkBlock)
    requires current != [] && ArePacked(ws, g, maxTokens, blocks, units + [Together(current)])
    requires block.headingContext.None?
    requires Estimate(Text.TotalWords(ws, Texts(current)) + Text.WordCount(ws, block.text)) <= maxTokens
    ensures ArePacked(ws, g, maxTokens, blocks + [block], units + [Together(current + [block])])
  {
    hide MustEnd, UnitOk, BlocksOf, Text.WordCount, Text.TotalWords, Texts, Estimate;
    var before, after := units + [Together(current)], units + [Together(current + [block])];
    BlocksSnoc(units, Together(current));
    BlocksSnoc(units, Together(current + [block]));
    AppendAssoc(BlocksOf(units), current, [block]);
    assert UnitOk(ws, g, maxTokens, before[|units|]);
    ExtendedIsOk(ws, g, maxTokens, current, block);
    assert forall k :: 0 <= k < |units| ==> before[k] == after[k];
    forall k | 0 < k < |after| && after[k].Together? && after[k].blocks != []
      ensures MustEnd(ws, maxTokens, after[k - 1], after[k].blocks[0])
    {
      assert MustEnd(ws, maxTokens, before[k - 1], before[k].blocks[0]);
    }
  }

  lemma ExtendedIsOk(ws: char -> bool, g: Grammar, maxTokens: nat, current: seq<ChunkBlock>, block: ChunkBlock)
    requires UnitOk(ws, g, maxTokens, Together(current)) && block.headingContext.None?
    requires Estimate(Text.TotalWords(ws, Texts(current)) + Text.WordCount(ws, block.text)) <= maxTokens
    ensures UnitOk(ws, g, maxTokens, Together(current + [block]))
  {
    WordsOfMore(ws, current, block);
  }

  lemma WordsOfMore(ws: char -> bool, blocks: seq<ChunkBlock>, block: ChunkBlock)
    ensures Text.TotalWords(ws, Texts(blocks + [block])) == Text.TotalWords(ws, Texts(blocks)) + Text.WordCount(ws, block.text)
  {
    hide Text.WordCount;
    assert Texts(blocks + [block]) == Texts(blocks) + [block.text];
    Text.TotalWordsAppend(ws, Texts(blocks), [block.text]);
    assert Text.TotalWords(ws, [block.text]) == Text.WordCount(ws, block.text) + Text.TotalWords(ws, []);
  }

  /** What a chunk is defined by: its definition text, or its text where there is none. */
  function EffectiveDefinition(c: Chunk): string {
    if c.definitionText.Some? then c.definitionText.value else c.text
  }

  /** The label of a chunk of whole blocks: context of its first block, first anchor, trimmed texts. */
  lemma TogetherLabels(ws: char -> bool, g: Grammar, maxTokens: nat, blocks: seq<ChunkBlock>)
    requires UnitOk(ws, g, maxTokens, Together(blocks))
    ensures |Render(ws, Together(blocks))| == 1
    ensures var c, definition := Render(ws, Together(blocks))[0], Text.Trim(ws, Text.Join("\n\n", Definitions(blocks)));
            && c.headingContext == blocks[0].headingContext && c.tokenCount == 0 && c.tokenIds == None
            && c.text == Text.Trim(ws, Text.Join("\n\n", Texts(blocks)))
            && EffectiveDefinition(c) == (if definition == "" then c.text else definition)
            && (c.definitionText.Some? ==> c.definitionText.value != c.text && c.definitionText.value != "")
            && ((forall k :: 0 <= k < |blocks| ==> blocks[k].anchor.None?) ==> c.anchor == None)
            && forall k :: 0 <= k < |blocks| && blocks[k].anchor.Some? && (forall i :: 0 <= i < k ==> blocks[i].anchor.None?) ==>
                 c.anchor == blocks[k].anchor
  {
    hide Text.Join, Text.Trim, Text.TotalWords, Estimate, FirstAnchor;
    if blocks[0].headingContext.None? {
      NoContextIs(blocks);
    }
    if forall k :: 0 <= k < |blocks| ==> blocks[k].anchor.None? {
      NoAnchorIs(blocks);
    }
    forall k | 0 <= k < |blocks| && blocks[k].anchor.Some? && (forall i :: 0 <= i < k ==> blocks[i].anchor.None?)
      ensures FirstAnchor(blocks) == blocks[k].anchor
    {
      FirstAnchorIs(blocks, k);
    }
  }

  lemma {:induction false} NoContextIs(blocks: seq<ChunkBlock>)
    requires forall i :: 0 <= i < |blocks| ==> blocks[i].headingContext.None?
    ensures FirstContext(blocks) == None
  {
    if blocks != [] {
      NoContextIs(blocks[1..]);
    }
  }

  /** The label of a piece of an oversize block: its anchor and context, and its own definition. */
  lemma BrokenLabels(ws: char -> bool, block: ChunkBlock, bodies: seq<TextPiece>, i: nat)
    requires i < |bodies|
    ensures |Render(ws, Broken(block, bodies))| == |bodies|
    ensures var c := Render(ws, Broken(block, bodies))[i];
            var heading := if block.headingContext.Some? then block.headingContext.value + "\n\n" else "";
            && c.anchor == block.anchor && c.headingContext == block.headingContext && c.tokenCount == 0 && c.tokenIds == None
            && c.text == heading + bodies[i].text
            && EffectiveDefinition(c) == heading + bodies[i].definition
            && (c.definitionText.Some? ==> c.definitionText.value != c.text)
  {
  }

  // ----- the loop -----

  /** The blocks collected for the next chunk, as the loop keeps them. */
  datatype Pending = Pending(texts: seq<string>, definitions: seq<string>, words: nat, anchor: Option<string>,
                             context: Option<string>)

  const NOTHING_PENDING := Pending([], [], 0, None, None)

  ghost predicate Represents(ws: char -> bool, pending: Pending, blocks: seq<ChunkBlock>) {
    && pending.texts == Texts(blocks)
    && pending.definitions == Definitions(blocks)
    && pending.words == Text.TotalWords(ws, Texts(blocks))
    && pending.anchor == FirstAnchor(blocks)
    && pending.context == FirstContext(blocks)
  }

  lemma {:induction false} FirstOfMore(blocks: seq<ChunkBlock>, block: ChunkBlock)
    ensures FirstAnchor(blocks + [block]) == if FirstAnchor(blocks).Some? then FirstAnchor(blocks) else block.anchor
    ensures FirstContext(blocks + [block]) == if FirstContext(blocks).Some? then FirstContext(blocks) else block.headingContext
  {
    if blocks != [] {
      assert (blocks + [block])[1..] == blocks[1..] + [block];
      FirstOfMore(blocks[1..], block);
    }
  }

  method Collect(ws: char -> bool, pending: Pending, block: ChunkBlock, words: nat, ghost current: seq<ChunkBlock>)
    returns (next: Pending)
    requires Represents(ws, pending, current) && words == Text.WordCount(ws, block.text)
    ensures Represents(ws, next, current + [block])
  {
    FirstOfMore(current, block);
    WordsOfMore(ws, current, block);
    next := Pending(pending.texts + [block.text], pending.definitions + [block.definitionText], pending.words + words,
                    if pending.anchor.None? && block.anchor.Some? then block.anchor else pending.anchor,
                    if pending.context.None? then block.headingContext else pending.context);
    assert Definitions(current + [block]) == Definitions(current) + [block.definitionText];
    assert Texts(current + [block]) == Texts(current) + [block.text];
  }

  /** Close the chunk being collected, if any. */
  method Flush(ws: char -> bool, pending: Pending, chunks: seq<Chunk>, ghost units: seq<Unit>, ghost current: seq<ChunkBlock>)
    returns (flushed: seq<Chunk>, ghost closed: seq<Unit>)
    requires Represents(ws, pending, current) && Numbered(chunks, RenderAll(ws, units))
    ensures closed == if current == [] then units else units + [Together(current)]
    ensures Numbered(flushed, RenderAll(ws, closed))
  {
    if pending.texts == [] {
      return chunks, units;
    }
    closed := units + [Together(current)];
    assert closed[..|units|] == units;
    flushed := chunks + [PackedChunk(ws, pending.texts, pending.definitions, pending.anchor, pending.context, |chunks|)];
  }

  /** The pieces of an oversize block, one chunk each. */
  method PushPieces(ws: char -> bool, block: ChunkBlock, pieces: seq<TextPiece>, chunks: seq<Chunk>, ghost units: seq<Unit>,
                    ghost bodies: seq<TextPiece>)
    returns (pushed: seq<Chunk>)
    requires pieces == Headed(block, bodies) && Numbered(chunks, RenderAll(ws, units))
    ensures Numbered(pushed, RenderAll(ws, units + [Broken(block, bodies)]))
  {
    hide Render, Headed, BrokenChunk;
    ghost var bare := RenderAll(ws, units);
    ghost var more := Render(ws, Broken(block, bodies));
    assert (units + [Broken(block, bodies)])[..|units|] == units;
    BrokenRenders(ws, block, bodies);
    pushed := chunks;
    assert bare + more[..0] == bare;
    for i := 0 to |pieces|
      invariant Numbered(pushed, bare + more[..i])
    {
      NumberedSnoc(pushed, bare + more[..i], BrokenChunk(block, pieces[i], |pushed|), more[i]);
      assert bare + more[..i] + [more[i]] == bare + more[..i + 1];
      pushed := pushed + [BrokenChunk(block, pieces[i], |pushed|)];
    }
    assert more[..|pieces|] == more;
  }

  lemma BrokenRenders(ws: char -> bool, block: ChunkBlock, bodies: seq<TextPiece>)
    ensures var more := Render(ws, Broken(block, bodies));
            && |more| == |Headed(block, bodies)|
            && forall i, ord :: 0 <= i < |more| ==> BrokenChunk(block, Headed(block, bodies)[i], ord) == more[i].(ord := ord)
  {
  }

  lemma NumberedSnoc(chunks: seq<Chunk>, bare: seq<Chunk>, chunk: Chunk, plain: Chunk)
    requires Numbered(chunks, bare) && chunk == plain.(ord := |chunks|)
    ensures Numbered(chunks + [chunk], bare + [plain])
  {
  }

  /** Blocks as they come from the tree walk: no context yet, and a heading's definition text is its text. */
  ghost predicate HeadingsReady(blocks: seq<ChunkBlock>) {
    forall i :: 0 <= i < |blocks| ==>
      && blocks[i].headingContext.None?
      && (blocks[i].headingLevel.Some? ==> blocks[i].definitionText == blocks[i].text)
  }

  /** An attached block's heading opens both its text and its definition text. */
  ghost predicate ContextsOpen(blocks: seq<ChunkBlock>) {
    forall i :: 0 <= i < |blocks| ==>
      HeadingPrefix(blocks[i]) <= blocks[i].text && HeadingPrefix(blocks[i]) <= blocks[i].definitionText
  }

  lemma {:induction false} AttachedContextsOpen(blocks: seq<ChunkBlock>, pending: seq<ChunkBlock>)
    requires HeadingsReady(blocks) && HeadingsReady(pending)
    requires forall i :: 0 <= i < |pending| ==> pending[i].headingLevel.Some?
    ensures ContextsOpen(Attach(blocks, pending))
    decreases |blocks|
  {
    hide Text.Join;
    if blocks != [] {
      if blocks[0].headingLevel.Some? {
        AttachedContextsOpen(blocks[1..], pending + [blocks[0]]);
      } else {
        AttachedContextsOpen(blocks[1..], []);
        assert Texts(pending) == Definitions(pending);
      }
    }
  }

  lemma StartsEmpty(ws: char -> bool, g: Grammar, maxTokens: nat)
    ensures Represents(ws, NOTHING_PENDING, []) && Numbered([], RenderAll(ws, []))
    ensures ArePacked(ws, g, maxTokens, [], [])
  {
  }

  lemma PendingFacts(ws: char -> bool, pending: Pending, current: seq<ChunkBlock>)
    requires Represents(ws, pending, current)
    ensures pending.texts == [] <==> current == []
    ensures pending.words == Text.TotalWords(ws, Texts(current))
  {
  }

  lemma BrokenIsOk(ws: char -> bool, g: Grammar, maxTokens: nat, block: ChunkBlock, bodies: seq<TextPiece>)
    requires ApproxTokens(ws, block.text) > maxTokens && IsBroken(ws, g, maxTokens, block, bodies)
    ensures UnitOk(ws, g, maxTokens, Broken(block, bodies))
  {
  }

  lemma SingleIsOk(ws: char -> bool, g: Grammar, maxTokens: nat, block: ChunkBlock)
    requires ApproxTokens(ws, block.text) <= maxTokens
    ensures UnitOk(ws, g, maxTokens, Together([block]))
  {
    assert Texts([block]) == [block.text];
    assert Text.TotalWords(ws, [block.text]) == Text.WordCount(ws, block.text) + Text.TotalWords(ws, []);
  }

  /** The packing so far: `units` are closed, `current` is being collected. */
  ghost predicate Packed(ws: char -> bool, g: Grammar, maxTokens: nat, blocks: seq<ChunkBlock>, units: seq<Unit>,
                         current: seq<ChunkBlock>)
  {
    && ArePacked(ws, g, maxTokens, blocks, if current == [] then units else units + [Together(current)])
    && (current == [] && units != [] ==> units[|units| - 1].Broken?)
  }

  method PackOversize(ws: char -> bool, g: Grammar, maxTokens: nat, block: ChunkBlock, chunks: seq<Chunk>,
                      ghost blocks: seq<ChunkBlock>, ghost units: seq<Unit>)
    returns (chunks': seq<Chunk>, ghost units': seq<Unit>)
    requires Text.Lawful(ws) && TypedMarkers.Lawful(g)
    requires HeadingPrefix(block) <= block.text && HeadingPrefix(block) <= block.definitionText
    requires ApproxTokens(ws, block.text) > maxTokens
    requires Numbered(chunks, RenderAll(ws, units)) && ArePacked(ws, g, maxTokens, blocks, units)
    ensures Numbered(chunks', RenderAll(ws, units')) && Packed(ws, g, maxTokens, blocks + [block], units', [])
  {
    hide ArePacked, UnitOk, Numbered, RenderAll, BlocksOf, Text.WordCount, IsBroken;
    var pieces;
    ghost var bodies;
    pieces, bodies := SplitOversizeBlock(ws, g, block, maxTokens);
    chunks' := PushPieces(ws, block, pieces, chunks, units, bodies);
    BrokenIsOk(ws, g, maxTokens, block, bodies);
    PackedAppend(ws, g, maxTokens, blocks, units, Broken(block, bodies));
    units' := units + [Broken(block, bodies)];
  }

  /** The block joins those being collected, which it must not take over the budget. */
  method AddBlock(ws: char -> bool, g: Grammar, maxTokens: nat, block: ChunkBlock, words: nat, pending: Pending,
                  ghost blocks: seq<ChunkBlock>, ghost units: seq<Unit>, ghost current: seq<ChunkBlock>)
    returns (next: Pending)
    requires Represents(ws, pending, current) && words == Text.WordCount(ws, block.text) && Estimate(words) <= maxTokens
    requires ArePacked(ws, g, maxTokens, blocks, if current == [] then units else units + [Together(current)])
    requires current == [] && units != [] ==> MustEnd(ws, maxTokens, units[|units| - 1], block)
    requires current != [] ==> block.headingContext.None? && Estimate(pending.words + words) <= maxTokens
    ensures Represents(ws, next, current + [block])
    ensures ArePacked(ws, g, maxTokens, blocks + [block], units + [Together(current + [block])])
  {
    hide ArePacked, UnitOk, Represents, BlocksOf, Texts, Text.TotalWords, Text.WordCount, MustEnd, Estimate;
    PendingFacts(ws, pending, current);
    next := Collect(ws, pending, block, words, current);
    if current == [] {
      SingleIsOk(ws, g, maxTokens, block);
      PackedAppend(ws, g, maxTokens, blocks, units, Together([block]));
      assert [] + [block] == [block];
    } else {
      PackedExtend(ws, g, maxTokens, blocks, units, current, block);
    }
  }

  /** One round of the loop. */
  method PackBlock(ws: char -> bool, g: Grammar, maxTokens: nat, block: ChunkBlock, chunks: seq<Chunk>, pending: Pending,
                   ghost blocks: seq<ChunkBlock>, ghost units: seq<Unit>, ghost current: seq<ChunkBlock>)
    returns (chunks': seq<Chunk>, pending': Pending, ghost units': seq<Unit>, ghost current': seq<ChunkBlock>)
    requires Text.Lawful(ws) && TypedMarkers.Lawful(g)
    requires HeadingPrefix(block) <= block.text && HeadingPrefix(block) <= block.definitionText
    requires Represents(ws, pending, current) && Numbered(chunks, RenderAll(ws, units))
    requires Packed(ws, g, maxTokens, blocks, units, current)
    ensures Represents(ws, pending', current') && Numbered(chunks', RenderAll(ws, units'))
    ensures Packed(ws, g, maxTokens, blocks + [block], units', current')
  {
    hide ArePacked, UnitOk, Numbered, Represents, RenderAll, BlocksOf, Texts, Text.TotalWords, Text.WordCount, IsBroken;
    hide Render, Headed, HeadingPrefix;
    StartsEmpty(ws, g, maxTokens);
    PendingFacts(ws, pending, current);
    chunks', pending', units', current' := chunks, pending, units, current;
    if block.headingContext.Some? && pending.texts != [] {
      chunks', units' := Flush(ws, pending, chunks, units, current);
      pending', current' := NOTHING_PENDING, [];
    }
    var blockWords := Text.WordCount(ws, block.text);
    if Estimate(blockWords) > maxTokens {
      chunks', units' := Flush(ws, pending', chunks', units', current');
      chunks', units' := PackOversize(ws, g, maxTokens, block, chunks', blocks, units');
      pending', current' := NOTHING_PENDING, [];
      return;
    }
    PendingFacts(ws, pending', current');
    if Estimate(pending'.words + blockWords) > maxTokens && pending'.texts != [] {
      chunks', units' := Flush(ws, pending', chunks', units', current');
      pending', current' := NOTHING_PENDING, [];
    }
    pending' := AddBlock(ws, g, maxTokens, block, blockWords, pending', blocks, units', current');
    current' := current' + [block];
  }

  lemma ContextOpensAt(blocks: seq<ChunkBlock>, i: nat)
    requires ContextsOpen(blocks) && i < |blocks|
    ensures HeadingPrefix(blocks[i]) <= blocks[i].text && HeadingPrefix(blocks[i]) <= blocks[i].definitionText
  {
  }

  lemma StartsPacked(ws: char -> bool, g: Grammar, maxTokens: nat)
    ensures Packed(ws, g, maxTokens, [], [], []) && HeadingsReady([])
  {
    hide ArePacked;
    StartsEmpty(ws, g, maxTokens);
  }

  lemma EndsPacked(ws: char -> bool, g: Grammar, maxTokens: nat, blocks: seq<ChunkBlock>, units: seq<Unit>, current: seq<ChunkBlock>)
    requires Packed(ws, g, maxTokens, blocks, units, current)
    ensures ArePacked(ws, g, maxTokens, blocks, if current == [] then units else units + [Together(current)])
  {
    hide ArePacked;
  }

  /**
    Greedy packing. The chunks are those of `units`, numbered from 0, and `units` is the greedy
    packing of the blocks with their headings attached.
   */
  method Pack(ws: char -> bool, g: Grammar, blocks: seq<ChunkBlock>, maxTokens: nat)
    returns (chunks: seq<Chunk>, ghost units: seq<Unit>)
    requires Text.Lawful(ws) && TypedMarkers.Lawful(g)
    requires HeadingsReady(blocks)
    ensures Numbered(chunks, RenderAll(ws, units))
    ensures ArePacked(ws, g, maxTokens, Attach(blocks, []), units)
  {
    hide ArePacked, Numbered, Represents, RenderAll, Attach, ContextsOpen, HeadingPrefix, Packed, HeadingsReady, Texts, Text.Join;
    var attached := AttachPendingHeadings(blocks);
    StartsPacked(ws, g, maxTokens);
    AttachedContextsOpen(blocks, []);
    chunks, units := [], [];
    var pending := NOTHING_PENDING;
    ghost var current: seq<ChunkBlock> := [];
    StartsEmpty(ws, g, maxTokens);
    for i := 0 to |attached|
      invariant Represents(ws, pending, current) && Numbered(chunks, RenderAll(ws, units))
      invariant Packed(ws, g, maxTokens, attached[..i], units, current)
    {
      assert attached[..i + 1] == attached[..i] + [attached[i]];
      ContextOpensAt(attached, i);
      chunks, pending, units, current :=
        PackBlock(ws, g, maxTokens, attached[i], chunks, pending, attached[..i], units, current);
    }
    assert attached[..|attached|] == attached;
    EndsPacked(ws, g, maxTokens, attached, units, current);
    chunks, units := Flush(ws, pending, chunks, units, current);
  }

  // ----- what packing keeps -----

  /** The text of a unit, a repeated heading counted once. */
  ghost function OnceText(ws: char -> bool, u: Unit): string {
    match u
    case Together(blocks) => Text.Trim(ws, Text.Join(PARAGRAPH_BREAK, Texts(blocks)))
    case Broken(block, bodies) => HeadingPrefix(block) + Flatten(PieceTexts(bodies))
  }

  ghost function OnceTexts(ws: char -> bool, units: seq<Unit>): string {
    if units == [] then "" else OnceTexts(ws, units[..|units| - 1]) + OnceText(ws, units[|units| - 1])
  }

  lemma BrokenKeepsInk(ws: char -> bool, g: Grammar, maxTokens: nat, block: ChunkBlock, bodies: seq<TextPiece>)
    requires IsBroken(ws, g, maxTokens, block, bodies)
    ensures HeadingPrefix(block) <= block.text
    ensures Text.Ink(ws, Flatten(PieceTexts(bodies))) == Text.Ink(ws, block.text[|HeadingPrefix(block)|..])
  {
    hide Text.Ink, Text.WordCount, ComesApart, IsBodyBudget, WithinOrMarker;
  }

  lemma UnitKeepsInk(ws: char -> bool, g: Grammar, maxTokens: nat, u: Unit)
    requires Text.Lawful(ws) && UnitOk(ws, g, maxTokens, u)
    ensures Text.Ink(ws, OnceText(ws, u)) == Text.Ink(ws, Flatten(Texts(UnitBlocks(u))))
  {
    hide Text.Ink, Text.Trim, Text.Join, Text.WordCount, Text.TotalWords, Estimate, IsBroken;
    match u
    case Together(blocks) =>
      Text.TrimKeeps(ws, Text.Join(PARAGRAPH_BREAK, Texts(blocks)));
      Text.JoinKeeps(ws, PARAGRAPH_BREAK, Texts(blocks));
    case Broken(block, bodies) =>
      var prefix := HeadingPrefix(block);
      BrokenKeepsInk(ws, g, maxTokens, block, bodies);
      var body := block.text[|prefix|..];
      Text.InkAppend(ws, prefix, Flatten(PieceTexts(bodies)));
      Text.InkAppend(ws, prefix, body);
      assert block.text == prefix + body;
      assert Texts([block]) == [] + [block.text];
      FlattenSnoc([], block.text);
      assert Flatten(Texts([block])) == block.text;
  }

  /** Packing keeps the visible characters of the attached blocks, in order. */
  lemma {:induction false} PackedKeepsInk(ws: char -> bool, g: Grammar, maxTokens: nat, units: seq<Unit>)
    requires Text.Lawful(ws) && AllOk(ws, g, maxTokens, units)
    ensures Text.Ink(ws, OnceTexts(ws, units)) == Text.Ink(ws, Flatten(Texts(BlocksOf(units))))
    decreases |units|
  {
    hide Text.Ink, UnitOk, OnceText, Flatten, UnitBlocks;
    if units == [] {
      assert OnceTexts(ws, units) == "" && Texts(BlocksOf(units)) == [];
      NoBlocksNoInk(ws);
    } else {
      var before, last := units[..|units| - 1], units[|units| - 1];
      PackedKeepsInk(ws, g, maxTokens, before);
      UnitKeepsInk(ws, g, maxTokens, last);
      Text.InkAppend(ws, OnceTexts(ws, before), OnceText(ws, last));
      TextsAppend(BlocksOf(before), UnitBlocks(last));
      Text.InkOfFlattenAppend(ws, Texts(BlocksOf(before)), Texts(UnitBlocks(last)));
    }
  }

  lemma NoBlocksNoInk(ws: char -> bool)
    ensures Text.Ink(ws, "") == "" && Text.Ink(ws, Flatten([])) == ""
  {
  }

  /**
    Nothing visible is lost between the blocks of the walk and the packed chunks, a heading that is
    repeated on the pieces of an oversize block being counted once.
   */
  lemma PackKeepsVisibleText(ws: char -> bool, g: Grammar, maxTokens: nat, blocks: seq<ChunkBlock>, units: seq<Unit>)
    requires Text.Lawful(ws) && ArePacked(ws, g, maxTokens, Attach(blocks, []), units)
    ensures Text.Ink(ws, OnceTexts(ws, units)) == Text.Ink(ws, Flatten(Texts(blocks)))
  {
    hide Text.Ink, Text.Join, Text.WordCount, Text.TotalWords, Flatten, Texts, Attach, AllOk, AllMustEnd, BlocksOf, OnceTexts;
    PackedKeepsInk(ws, g, maxTokens, units);
    AttachKeepsText(blocks, []);
    assert [] + blocks == blocks;
    Text.JoinKeeps(ws, PARAGRAPH_BREAK, Texts(Attach(blocks, [])));
    Text.JoinKeeps(ws, PARAGRAPH_BREAK, Texts(blocks));
  }

  /** A chunk that is not a piece of an oversize block is within the budget. */
  lemma PackedWithinBudget(ws: char -> bool, g: Grammar, maxTokens: nat, blocks: seq<ChunkBlock>)
    requires Text.Lawful(ws) && UnitOk(ws, g, maxTokens, Together(blocks))
    ensures ApproxTokens(ws, Render(ws, Together(blocks))[0].text) <= maxTokens
  {
    hide Text.Ink, Text.Trim, Text.Join, Text.WordCount, Text.TotalWords;
    Text.TrimKeeps(ws, Text.Join(PARAGRAPH_BREAK, Texts(blocks)));
    Text.JoinKeeps(ws, PARAGRAPH_BREAK, Texts(blocks));
  }

  // ----- the heading context of a packed chunk -----

  lemma TrimOf(ws: char -> bool, s: string)
    requires s != "" && !ws(s[0])
    ensures Text.Trim(ws, s) == s[..Text.TrailingEnd(ws, s, |s|)]
  {
    Text.LeadingIs(ws, s, 0);
    assert s[0..] == s;
  }

  /** Where trimming stops: within a prefix that ends in white space exactly when only white space follows. */
  lemma TrailingEndPast(ws: char -> bool, s: string, n: nat)
    requires 0 < n <= |s| && ws(s[n - 1])
    ensures n <= Text.TrailingEnd(ws, s, |s|) <==> exists i :: n <= i < |s| && !ws(s[i])
  {
    var end := Text.TrailingEnd(ws, s, |s|);
    if end > n {
      assert !ws(s[end - 1]);
    }
  }

  /** Trimming keeps a prefix that ends in white space exactly when the prefix starts visibly and something visible follows. */
  lemma TrimKeepsPrefix(ws: char -> bool, prefix: string, rest: string)
    requires prefix != "" && ws(prefix[|prefix| - 1])
    ensures prefix <= Text.Trim(ws, prefix + rest) <==> !ws(prefix[0]) && !Text.Blank(ws, rest)
  {
    hide Text.WordCount, Text.Ink, Text.Trim;
    var s := prefix + rest;
    if ws(prefix[0]) {
      Text.TrimKeeps(ws, s);
    } else {
      TrimOf(ws, s);
      TrailingEndPast(ws, s, |prefix|);
      BlankRest(ws, prefix, rest);
    }
  }

  lemma BlankRest(ws: char -> bool, prefix: string, rest: string)
    ensures !Text.Blank(ws, rest) <==> exists i :: |prefix| <= i < |prefix + rest| && !ws((prefix + rest)[i])
  {
    var s := prefix + rest;
    assert forall i :: |prefix| <= i < |s| ==> s[i] == rest[i - |prefix|];
    if k :| 0 <= k < |rest| && !ws(rest[k]) {
      assert s[|prefix| + k] == rest[k];
    }
  }

  /** The text of a packed chunk before trimming, after the heading of its first block. */
  ghost function AfterHeading(blocks: seq<ChunkBlock>): string
    requires blocks != [] && HeadingPrefix(blocks[0]) <= blocks[0].text
  {
    Text.Join(PARAGRAPH_BREAK, Texts(blocks))[|HeadingPrefix(blocks[0])|..]
  }

  lemma JoinStartsWithFirst(separator: string, parts: seq<string>)
    requires parts != []
    ensures parts[0] <= Text.Join(separator, parts)
  {
  }

  lemma {:induction false} NoContext(blocks: seq<ChunkBlock>)
    requires forall k :: 0 <= k < |blocks| ==> blocks[k].headingContext.None?
    ensures FirstContext(blocks) == None
  {
    if blocks != [] {
      NoContext(blocks[1..]);
    }
  }

  /**
    Exactly when the exact pass finds the heading context at the front of a packed chunk: the
    context starts with a visible character and something visible follows it.
   */
  lemma ContextOpensPackedText(ws: char -> bool, g: Grammar, maxTokens: nat, blocks: seq<ChunkBlock>)
    requires Text.Lawful(ws) && UnitOk(ws, g, maxTokens, Together(blocks))
    requires blocks[0].headingContext.Some? && HeadingPrefix(blocks[0]) <= blocks[0].text
    ensures var chunk := Render(ws, Together(blocks))[0];
            var context := blocks[0].headingContext.value;
            ContextOpensText(chunk.headingContext, chunk.text)
            <==> context != "" && !ws(context[0]) && !Text.Blank(ws, AfterHeading(blocks))
  {
    hide Text.Join, Text.Trim, Text.TotalWords;
    var prefix := HeadingPrefix(blocks[0]);
    JoinStartsWithFirst(PARAGRAPH_BREAK, Texts(blocks));
    assert Text.Join(PARAGRAPH_BREAK, Texts(blocks)) == prefix + AfterHeading(blocks);
    TrimKeepsPrefix(ws, prefix, AfterHeading(blocks));
  }

  /** A body of white space under a heading makes the exact pass miss the heading. */
  lemma BlankBodyLosesContext(ws: char -> bool, g: Grammar)
    returns (blocks: seq<ChunkBlock>)
    requires Text.Lawful(ws) && !ws('H')
    ensures HeadingsReady(blocks)
    ensures var unit := Together(Attach(blocks, []));
            && UnitOk(ws, g, 8, unit)
            && var chunk := Render(ws, unit)[0];
               chunk.headingContext == Some("H") && !ContextOpensText(chunk.headingContext, chunk.text)
  {
    hide Text.WordCount, Text.Trim, Text.TotalWords, Attach, UnitOk;
    var heading := ChunkBlock("H", "H", None, false, Some(1), None);
    var body := ChunkBlock(" ", " ", None, false, None, None);
    blocks := [heading, body];
    AttachTwo(heading, body);
    var attached := [WithHeadings([heading], body)];
    Text.JoinOne(PARAGRAPH_BREAK, "H");
    assert Texts([heading]) == ["H"];
    assert attached[0].text == "H" + PARAGRAPH_BREAK + " ";
    FewWords(ws);
    SingleIsOk(ws, g, 8, attached[0]);
    Text.JoinOne(PARAGRAPH_BREAK, attached[0].text);
    assert Texts(attached) == [attached[0].text];
    assert AfterHeading(attached) == " ";
    ContextOpensPackedText(ws, g, 8, attached);
  }

  lemma AttachTwo(heading: ChunkBlock, body: ChunkBlock)
    requires heading.headingLevel.Some? && body.headingLevel.None?
    ensures Attach([heading, body], []) == [WithHeadings([heading], body)]
  {
    hide WithHeadings;
    assert [heading, body][1..] == [body] && [] + [heading] == [heading] && [body][1..] == [];
    assert Attach([body], [heading]) == [WithHeadings([heading], body)] + Attach([], []);
  }

  lemma FewWords(ws: char -> bool)
    requires Text.Lawful(ws)
    ensures ApproxTokens(ws, "H" + PARAGRAPH_BREAK + " ") <= 8
  {
    HeadedWords(ws, "H", " ");
    assert Text.WordCount(ws, "H") <= 1 && Text.WordCount(ws, " ") <= 1;
  }

  /** The blocks of the walk are tidy: not empty, no white space at either end. */
  ghost predicate AllTidy(ws: char -> bool, blocks: seq<ChunkBlock>) {
    forall i :: 0 <= i < |blocks| ==> Text.Tidy(ws, blocks[i].text)
  }

  ghost predicate TidyContext(ws: char -> bool, block: ChunkBlock) {
    block.headingContext.Some? ==>
      && Text.Tidy(ws, block.headingContext.value)
      && HeadingPrefix(block) <= block.text
      && Text.Tidy(ws, block.text[|HeadingPrefix(block)|..])
  }

  lemma {:induction false} JoinTidy(ws: char -> bool, parts: seq<string>)
    requires parts != [] && forall i :: 0 <= i < |parts| ==> Text.Tidy(ws, parts[i])
    ensures Text.Tidy(ws, Text.Join(PARAGRAPH_BREAK, parts))
    decreases |parts|
  {
    if |parts| > 1 {
      JoinTidy(ws, parts[1..]);
    }
  }

  lemma {:induction false} AttachTidy(ws: char -> bool, blocks: seq<ChunkBlock>, pending: seq<ChunkBlock>)
    requires AllTidy(ws, blocks) && AllTidy(ws, pending) && HeadingsReady(blocks) && HeadingsReady(pending)
    ensures forall i :: 0 <= i < |Attach(blocks, pending)| ==> TidyContext(ws, Attach(blocks, pending)[i])
    decreases |blocks|
  {
    hide Text.Join, Text.Tidy;
    if blocks != [] {
      if blocks[0].headingLevel.Some? {
        AttachTidy(ws, blocks[1..], pending + [blocks[0]]);
      } else {
        AttachTidy(ws, blocks[1..], []);
        if pending != [] {
          JoinTidy(ws, Texts(pending));
          var headed := WithHeadings(pending, blocks[0]);
          assert headed.text[|HeadingPrefix(headed)|..] == blocks[0].text;
        }
      }
    }
  }

  lemma TidyContextOpens(ws: char -> bool, g: Grammar, maxTokens: nat, u: Unit, i: nat)
    requires Text.Lawful(ws) && UnitOk(ws, g, maxTokens, u) && i < |Render(ws, u)|
    requires forall k :: 0 <= k < |UnitBlocks(u)| ==> TidyContext(ws, UnitBlocks(u)[k])
    ensures ContextOpensText(Render(ws, u)[i].headingContext, Render(ws, u)[i].text)
  {
    hide Text.Join, Text.Trim, Text.TotalWords, Text.WordCount;
    match u
    case Broken(block, bodies) =>
    case Together(blocks) =>
      assert TidyContext(ws, UnitBlocks(u)[0]);
      if blocks[0].headingContext.Some? {
        JoinStartsWithFirst(PARAGRAPH_BREAK, Texts(blocks));
        var body := blocks[0].text[|HeadingPrefix(blocks[0])|..];
        assert AfterHeading(blocks)[0] == body[0];
        ContextOpensPackedText(ws, g, maxTokens, blocks);
      } else {
        NoContext(blocks);
      }
  }

  lemma {:induction false} UnitBlocksAreBlocks(units: seq<Unit>, k: nat, b: ChunkBlock)
    requires k < |units| && b in UnitBlocks(units[k])
    ensures b in BlocksOf(units)
    decreases |units|
  {
    if k < |units| - 1 {
      UnitBlocksAreBlocks(units[..|units| - 1], k, b);
    }
  }

  /** Every chunk packed from tidy blocks has its heading context at its front, as the exact pass requires. */
  lemma PackedContextsOpen(ws: char -> bool, g: Grammar, maxTokens: nat, blocks: seq<ChunkBlock>, units: seq<Unit>,
                           k: nat, i: nat)
    requires Text.Lawful(ws) && AllTidy(ws, blocks) && HeadingsReady(blocks)
    requires ArePacked(ws, g, maxTokens, Attach(blocks, []), units)
    requires k < |units| && i < |Render(ws, units[k])|
    ensures ContextOpensText(Render(ws, units[k])[i].headingContext, Render(ws, units[k])[i].text)
  {
    hide Text.Tidy, TidyContext, UnitOk, Render, Attach, UnitBlocks;
    AttachTidy(ws, blocks, []);
    forall j | 0 <= j < |UnitBlocks(units[k])|
      ensures TidyContext(ws, UnitBlocks(units[k])[j])
    {
      UnitBlocksAreBlocks(units, k, UnitBlocks(units[k])[j]);
    }
    TidyContextOpens(ws, g, maxTokens, units[k], i);
  }
}

/** Blocks to final chunks: the packing followed by the exact tokenizer pass. */
module ChunkPipeline {
  import opened Common
  import opened Chunks
  import opened TypedMarkers
  import opened Packing
  import opened ChunkPacking
  import opened ExactSplit
  import Text

  /** Joining the bodies of a packed chunk, behind its heading if that is repeated, gives its text. */
  ghost predicate Rejoins(g: Grammar, prepare: Prepare, limit: nat, chunk: Chunk, bodies: seq<string>)
    requires TypedMarkers.Lawful(g)
  {
    GroupHeading(g, prepare, limit, chunk) + Flatten(bodies) == chunk.text
  }

  /** Every marker protected in the stream that is split of `chunk` is whole in one body. */
  ghost predicate KeepsMarkers(g: Grammar, prepare: Prepare, limit: nat, chunk: Chunk, bodies: seq<string>)
    requires TypedMarkers.Lawful(g)
  {
    var heading := GroupHeading(g, prepare, limit, chunk);
    !Fits(prepare, limit, chunk.text) && heading <= chunk.text ==>
      forall span :: span in MarkerSpans(g, chunk.text[|heading|..]) ==>
        exists i :: 0 <= i < |bodies| && WholeIn(chunk.text[|heading|..], span, bodies, i)
  }

  lemma {:induction false} RenderAllAt(ws: char -> bool, units: seq<Unit>, n: nat) returns (k: nat, j: nat)
    requires n < |RenderAll(ws, units)|
    ensures k < |units| && j < |Render(ws, units[k])| && RenderAll(ws, units)[n] == Render(ws, units[k])[j]
    decreases |units|
  {
    hide Render;
    var last := |units| - 1;
    var before := RenderAll(ws, units[..last]);
    if n < |before| {
      k, j := RenderAllAt(ws, units[..last], n);
    } else {
      k, j := last, n - |before|;
    }
  }

  /** Packed chunks meet what the exact pass demands: the heading context opens the text. */
  lemma PackedIsReady(ws: char -> bool, g: Grammar, maxTokens: nat, blocks: seq<ChunkBlock>, units: seq<Unit>,
                      packed: seq<Chunk>, i: nat)
    requires Text.Lawful(ws) && AllTidy(ws, blocks) && HeadingsReady(blocks)
    requires ArePacked(ws, g, maxTokens, Attach(blocks, []), units) && Numbered(packed, RenderAll(ws, units))
    requires i < |packed|
    ensures ContextOpensText(packed[i].headingContext, packed[i].text)
  {
    hide AllTidy, HeadingsReady, ArePacked, Attach, RenderAll, Render;
    assert packed[i] == RenderAll(ws, units)[i].(ord := i);
    var k, j := RenderAllAt(ws, units, i);
    PackedContextsOpen(ws, g, maxTokens, blocks, units, k, j);
  }

  /** The texts that the exact pass makes of the packed chunks: every body behind its chunk's repeated heading. */
  ghost function FinalTexts(g: Grammar, prepare: Prepare, limit: nat, packed: seq<Chunk>, bodies: seq<seq<string>>): seq<string>
    requires TypedMarkers.Lawful(g) && |packed| == |bodies|
  {
    if packed == [] then []
    else GroupTexts(GroupHeading(g, prepare, limit, packed[0]), bodies[0]) + FinalTexts(g, prepare, limit, packed[1..], bodies[1..])
  }

  function GroupTexts(heading: string, bodies: seq<string>): seq<string> {
    seq(|bodies|, j requires 0 <= j < |bodies| => heading + bodies[j])
  }

  function ChunkTexts(chunks: seq<Chunk>): seq<string> {
    seq(|chunks|, i requires 0 <= i < |chunks| => chunks[i].text)
  }

  lemma {:induction false} FlattenTexts(g: Grammar, prepare: Prepare, limit: nat, packed: seq<Chunk>, groups: seq<seq<Chunk>>,
                                        bodies: seq<seq<string>>)
    requires TypedMarkers.Lawful(g) && |packed| == |groups| == |bodies|
    requires forall i :: 0 <= i < |groups| ==> ChunkTexts(groups[i]) == GroupTexts(GroupHeading(g, prepare, limit, packed[i]), bodies[i])
    ensures ChunkTexts(Flatten(groups)) == FinalTexts(g, prepare, limit, packed, bodies)
    decreases |groups|
  {
    hide GroupHeading, GroupTexts, TypedMarkers.Lawful;
    if groups != [] {
      FlattenTexts(g, prepare, limit, packed[1..], groups[1..], bodies[1..]);
      assert ChunkTexts(groups[0] + Flatten(groups[1..])) == ChunkTexts(groups[0]) + ChunkTexts(Flatten(groups[1..]));
    }
  }

  /** `packed` are the packed chunks of the blocks, and `bodies` what the exact pass made of each. */
  ghost predicate ComesFrom(ws: char -> bool, g: Grammar, prepare: Prepare, maxTokens: nat, blocks: seq<ChunkBlock>,
                            chunks: seq<Chunk>, units: seq<Unit>, packed: seq<Chunk>, bodies: seq<seq<string>>)
    requires TypedMarkers.Lawful(g)
  {
    && Numbered(packed, RenderAll(ws, units))
    && Text.Ink(ws, OnceTexts(ws, units)) == Text.Ink(ws, Flatten(Texts(blocks)))
    && |bodies| == |packed| && ChunkTexts(chunks) == FinalTexts(g, prepare, maxTokens, packed, bodies)
    && forall i :: 0 <= i < |packed| ==>
         Rejoins(g, prepare, maxTokens, packed[i], bodies[i]) && KeepsMarkers(g, prepare, maxTokens, packed[i], bodies[i])
  }

  /** One of the packed chunks of the blocks is refused. */
  ghost predicate RefusedAt(ws: char -> bool, g: Grammar, prepare: Prepare, maxTokens: nat, blocks: seq<ChunkBlock>,
                            units: seq<Unit>, packed: seq<Chunk>, i: int, error: SplitError)
    requires TypedMarkers.Lawful(g)
  {
    && ArePacked(ws, g, maxTokens, Attach(blocks, []), units) && Numbered(packed, RenderAll(ws, units))
    && 0 <= i < |packed| && Refused(g, prepare, maxTokens, packed[i], error)
  }

  /**
    The whole path. Final chunks are numbered from 0, exactly counted and within the limit; they
    rejoin to the packed chunks, whose visible text is that of the blocks in order, and no marker is
    cut. It is refused only because the counter fails or some shortest piece does not fit.
   */
  method ChunkBlocks(ws: char -> bool, g: Grammar, prepare: Prepare, maxTokens: nat, blocks: seq<ChunkBlock>)
    returns (r: Result<seq<Chunk>, SplitError>)
    requires Text.Lawful(ws) && TypedMarkers.Lawful(g)
    requires AllTidy(ws, blocks) && HeadingsReady(blocks)
    ensures r.Ok? ==> forall i :: 0 <= i < |r.value| ==> r.value[i].ord == i && Counted(prepare, maxTokens, r.value[i])
    ensures r.Ok? ==> exists units, packed, bodies :: ComesFrom(ws, g, prepare, maxTokens, blocks, r.value, units, packed, bodies)
    ensures r.Err? ==> exists units, packed, i :: RefusedAt(ws, g, prepare, maxTokens, blocks, units, packed, i, r.error)
  {
    hide AllTidy, HeadingsReady, ArePacked, Attach, Numbered, RenderAll, Text.Ink, OnceTexts, Texts, Flatten;
    hide IsGroupOf, ContextOpensText, Fits, Counted, Rejoins, KeepsMarkers, Refused, TypedMarkers.Lawful;
    hide Text.Lawful, GroupHeading, GroupTexts, ChunkTexts, FinalTexts;
    var packed;
    ghost var units;
    packed, units := Pack(ws, g, blocks, maxTokens);
    PackKeepsVisibleText(ws, g, maxTokens, blocks, units);
    forall i | 0 <= i < |packed| ensures ContextOpensText(packed[i].headingContext, packed[i].text) {
      PackedIsReady(ws, g, maxTokens, blocks, units, packed, i);
    }
    ghost var groups, bodies;
    r, groups, bodies := EnforceFinalTokenLimit(g, prepare, maxTokens, packed);
    if r.Ok? {
      forall i | 0 <= i < |groups|
        ensures Rejoins(g, prepare, maxTokens, packed[i], bodies[i]) && KeepsMarkers(g, prepare, maxTokens, packed[i], bodies[i])
        ensures ChunkTexts(groups[i]) == GroupTexts(GroupHeading(g, prepare, maxTokens, packed[i]), bodies[i])
      {
        GroupRejoins(g, prepare, maxTokens, packed[i], groups[i], bodies[i]);
        GroupKeepsMarkers(g, prepare, maxTokens, packed[i], groups[i], bodies[i]);
      }
      FlattenTexts(g, prepare, maxTokens, packed, groups, bodies);
      assert ChunkTexts(r.value) == ChunkTexts(Flatten(groups)) by {
        SameTexts(r.value, Flatten(groups));
      }
      assert ComesFrom(ws, g, prepare, maxTokens, blocks, r.value, units, packed, bodies);
    } else {
      ghost var i :| 0 <= i < |packed| && Refused(g, prepare, maxTokens, packed[i], r.error);
      assert RefusedAt(ws, g, prepare, maxTokens, blocks, units, packed, i, r.error);
    }
  }

  lemma GroupKeepsMarkers(g: Grammar, prepare: Prepare, limit: nat, chunk: Chunk, group: seq<Chunk>, bodies: seq<string>)
    requires TypedMarkers.Lawful(g) && IsGroupOf(g, prepare, limit, chunk, group, bodies)
    ensures KeepsMarkers(g, prepare, limit, chunk, bodies)
  {
    hide IsGroupOf, GroupHeading, Fits, MarkerSpans, WholeIn;
    var heading := GroupHeading(g, prepare, limit, chunk);
    if !Fits(prepare, limit, chunk.text) && heading <= chunk.text {
      forall span | span in MarkerSpans(g, chunk.text[|heading|..])
        ensures exists i :: 0 <= i < |bodies| && WholeIn(chunk.text[|heading|..], span, bodies, i)
      {
        var i := GroupKeepsMarkersWhole(g, prepare, limit, chunk, group, bodies, span);
      }
    }
  }

  lemma SameTexts(a: seq<Chunk>, b: seq<Chunk>)
    requires |a| == |b| && forall i :: 0 <= i < |a| ==> a[i] == b[i].(ord := i)
    ensures ChunkTexts(a) == ChunkTexts(b)
  {
  }

  lemma GroupRejoins(g: Grammar, prepare: Prepare, limit: nat, chunk: Chunk, group: seq<Chunk>, bodies: seq<string>)
    requires TypedMarkers.Lawful(g) && IsGroupOf(g, prepare, limit, chunk, group, bodies)
    ensures Rejoins(g, prepare, limit, chunk, bodies)
    ensures ChunkTexts(group) == GroupTexts(GroupHeading(g, prepare, limit, chunk), bodies)
  {
    hide IsGroupOf, GroupHeading, Flatten;
    GroupIsLossless(g, prepare, limit, chunk, group, bodies);
    GroupSize(g, prepare, limit, chunk, group, bodies);
    forall i | 0 <= i < |group| ensures group[i].text == GroupHeading(g, prepare, limit, chunk) + bodies[i] {
      GroupWithinLimit(g, prepare, limit, chunk, group, bodies, i);
    }
  }
}

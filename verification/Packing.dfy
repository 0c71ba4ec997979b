/**
  Greedy packing of blocks into chunks: heading attachment, the packing loop, and the splitting of
  blocks that are over the approximate budget into rows, sentences or word windows.
 */
module Packing {
  import opened Common
  import opened Chunks
  import opened CursorScan
  import opened TypedMarkers
  import Text

  datatype ChunkBlock = ChunkBlock(
    text: string,
    definitionText: string,
    anchor: Option<string>,
    isOversizeTable: bool,
    headingLevel: Option<nat>,
    headingContext: Option<string>)

  datatype TextPiece = TextPiece(text: string, definition: string)

  function Texts(blocks: seq<ChunkBlock>): (r: seq<string>)
    ensures |r| == |blocks| && forall i :: 0 <= i < |r| ==> r[i] == blocks[i].text
  {
    seq(|blocks|, i requires 0 <= i < |blocks| => blocks[i].text)
  }

  function Definitions(blocks: seq<ChunkBlock>): (r: seq<string>)
    ensures |r| == |blocks| && forall i :: 0 <= i < |r| ==> r[i] == blocks[i].definitionText
  {
    seq(|blocks|, i requires 0 <= i < |blocks| => blocks[i].definitionText)
  }

  function PieceTexts(pieces: seq<TextPiece>): (r: seq<string>)
    ensures |r| == |pieces| && forall i :: 0 <= i < |r| ==> r[i] == pieces[i].text
  {
    seq(|pieces|, i requires 0 <= i < |pieces| => pieces[i].text)
  }

  // ----- the approximate budget -----

  /** `1.3` tokens a word, truncated. */
  function Scale(words: nat): nat {
    13 * words / 10
  }

  function Estimate(words: nat): nat {
    Max(1, Scale(words))
  }

  function ApproxTokens(ws: char -> bool, text: string): nat {
    Estimate(Text.WordCount(ws, text))
  }

  /** The word window of the last resort: `max / 1.4`, truncated, but at least one word. */
  function TargetWords(maxTokens: nat): nat {
    Max(1, 5 * maxTokens / 7)
  }

  lemma WindowFits(words: nat, maxTokens: nat)
    requires words <= TargetWords(maxTokens)
    ensures Estimate(words) <= Max(1, maxTokens)
  {
  }

  /** In whole numbers: the estimate is the greatest within 1.3 tokens a word, and at least 1. */
  lemma EstimateIsTruncated(ws: char -> bool, text: string)
    ensures var words, tokens := Text.WordCount(ws, text), ApproxTokens(ws, text);
            if words == 0 then tokens == 1 else 10 * tokens <= 13 * words < 10 * (tokens + 1)
  {
    hide Text.WordCount;
  }

  /** The window is the greatest within 1/1.4 words a token, and at least 1. */
  lemma TargetIsTruncated(maxTokens: nat)
    ensures var words := TargetWords(maxTokens);
            if maxTokens < 2 then words == 1 else 14 * words <= 10 * maxTokens < 14 * (words + 1)
  {
  }

  // ----- headings -----

  function FirstAnchor(blocks: seq<ChunkBlock>): Option<string> {
    if blocks == [] then None
    else if blocks[0].anchor.Some? then blocks[0].anchor
    else FirstAnchor(blocks[1..])
  }

  /** A body block that carries the headings `pending` before it. */
  function WithHeadings(pending: seq<ChunkBlock>, block: ChunkBlock): ChunkBlock {
    var context := Text.Join(PARAGRAPH_BREAK, Texts(pending));
    var definitionContext := Text.Join(PARAGRAPH_BREAK, Definitions(pending));
    var anchor := FirstAnchor(pending);
    block.(text := context + PARAGRAPH_BREAK + block.text,
           definitionText := definitionContext + PARAGRAPH_BREAK + block.definitionText,
           anchor := if anchor.Some? then anchor else block.anchor,
           headingContext := Some(context))
  }

  /** Headings wait in `pending` for the next body block; those left over stay as ordinary blocks. */
  ghost function Attach(blocks: seq<ChunkBlock>, pending: seq<ChunkBlock>): seq<ChunkBlock> {
    if blocks == [] then Demote(pending)
    else if blocks[0].headingLevel.Some? then Attach(blocks[1..], pending + [blocks[0]])
    else if pending == [] then [blocks[0]] + Attach(blocks[1..], [])
    else [WithHeadings(pending, blocks[0])] + Attach(blocks[1..], [])
  }

  ghost function Demote(headings: seq<ChunkBlock>): (r: seq<ChunkBlock>)
    ensures |r| == |headings| && forall i :: 0 <= i < |r| ==> r[i] == headings[i].(headingLevel := None)
  {
    seq(|headings|, i requires 0 <= i < |headings| => headings[i].(headingLevel := None))
  }

  method AttachPendingHeadings(blocks: seq<ChunkBlock>) returns (output: seq<ChunkBlock>)
    ensures output == Attach(blocks, [])
  {
    output := [];
    var pending: seq<ChunkBlock> := [];
    for i := 0 to |blocks|
      invariant output + Attach(blocks[i..], pending) == Attach(blocks, [])
    {
      var block := blocks[i];
      assert blocks[i..][1..] == blocks[i + 1..];
      if block.headingLevel.Some? {
        pending := pending + [block];
        continue;
      }
      AppendAssoc(output, [if pending == [] then block else WithHeadings(pending, block)], Attach(blocks[i + 1..], []));
      if pending == [] {
        output := output + [block];
        continue;
      }
      output := output + [WithHeadings(pending, block)];
      pending := [];
    }
    ghost var attached := output;
    for i := 0 to |pending|
      invariant output == attached + Demote(pending)[..i]
    {
      output := output + [pending[i].(headingLevel := None)];
    }
  }

  /** The anchor is the first there is. */
  lemma {:induction false} FirstAnchorIs(blocks: seq<ChunkBlock>, k: nat)
    requires k < |blocks| && blocks[k].anchor.Some? && forall i :: 0 <= i < k ==> blocks[i].anchor.None?
    ensures FirstAnchor(blocks) == blocks[k].anchor
  {
    if k > 0 {
      FirstAnchorIs(blocks[1..], k - 1);
    }
  }

  lemma {:induction false} NoAnchorIs(blocks: seq<ChunkBlock>)
    requires forall i :: 0 <= i < |blocks| ==> blocks[i].anchor.None?
    ensures FirstAnchor(blocks) == None
  {
    if blocks != [] {
      NoAnchorIs(blocks[1..]);
    }
  }

  lemma {:induction false} HeadingsWait(headings: seq<ChunkBlock>, rest: seq<ChunkBlock>, pending: seq<ChunkBlock>)
    requires forall k :: 0 <= k < |headings| ==> headings[k].headingLevel.Some?
    ensures Attach(headings + rest, pending) == Attach(rest, pending + headings)
    decreases |headings|
  {
    if headings == [] {
      assert headings + rest == rest && pending + headings == pending;
    } else {
      assert (headings + rest)[1..] == headings[1..] + rest;
      HeadingsWait(headings[1..], rest, pending + [headings[0]]);
      assert pending + [headings[0]] + headings[1..] == pending + headings;
    }
  }

  /**
    Headings before a body block become its opening paragraphs and its context, and lend it the first
    anchor among them; its kind stays. Whatever follows is attached independently.
   */
  lemma HeadingsJoinNextBody(headings: seq<ChunkBlock>, body: ChunkBlock, rest: seq<ChunkBlock>)
    returns (joined: ChunkBlock)
    requires headings != [] && body.headingLevel.None?
    requires forall k :: 0 <= k < |headings| ==> headings[k].headingLevel.Some?
    ensures Attach(headings + [body] + rest, []) == [joined] + Attach(rest, [])
    ensures joined.headingContext == Some(Text.Join("\n\n", Texts(headings)))
    ensures joined.text == Text.Join("\n\n", Texts(headings)) + "\n\n" + body.text
    ensures joined.definitionText == Text.Join("\n\n", Definitions(headings)) + "\n\n" + body.definitionText
    ensures (forall k :: 0 <= k < |headings| ==> headings[k].anchor.None?) ==> joined.anchor == body.anchor
    ensures forall k :: 0 <= k < |headings| && headings[k].anchor.Some? && (forall i :: 0 <= i < k ==> headings[i].anchor.None?) ==>
              joined.anchor == headings[k].anchor
    ensures joined.isOversizeTable == body.isOversizeTable && joined.headingLevel.None?
  {
    hide Text.Join, FirstAnchor, Attach, WithHeadings, Texts, Definitions;
    joined := WithHeadings(headings, body);
    assert headings + [body] + rest == headings + ([body] + rest);
    HeadingsWait(headings, [body] + rest, []);
    assert [] + headings == headings;
    BodyTakesHeadings(body, rest, headings);
    JoinedLabels(headings, body);
    if forall k :: 0 <= k < |headings| ==> headings[k].anchor.None? {
      NoAnchorIs(headings);
    }
    forall k | 0 <= k < |headings| && headings[k].anchor.Some? && (forall i :: 0 <= i < k ==> headings[i].anchor.None?)
      ensures joined.anchor == headings[k].anchor
    {
      FirstAnchorIs(headings, k);
    }
  }

  lemma BodyTakesHeadings(body: ChunkBlock, rest: seq<ChunkBlock>, headings: seq<ChunkBlock>)
    requires headings != [] && body.headingLevel.None?
    ensures Attach([body] + rest, headings) == [WithHeadings(headings, body)] + Attach(rest, [])
  {
    hide WithHeadings;
    assert ([body] + rest)[1..] == rest;
  }

  lemma JoinedLabels(headings: seq<ChunkBlock>, body: ChunkBlock)
    ensures var joined := WithHeadings(headings, body);
            && joined.headingContext == Some(Text.Join("\n\n", Texts(headings)))
            && joined.text == Text.Join("\n\n", Texts(headings)) + "\n\n" + body.text
            && joined.definitionText == Text.Join("\n\n", Definitions(headings)) + "\n\n" + body.definitionText
            && joined.anchor == (if FirstAnchor(headings).Some? then FirstAnchor(headings) else body.anchor)
            && joined.isOversizeTable == body.isOversizeTable && joined.headingLevel == body.headingLevel
  {
    hide Text.Join, FirstAnchor, Texts, Definitions;
  }

  lemma TextsAppend(a: seq<ChunkBlock>, b: seq<ChunkBlock>)
    ensures Texts(a + b) == Texts(a) + Texts(b)
  {
  }

  /** Attaching headings leaves the paragraph-joined text of all blocks unchanged. */
  lemma {:induction false} AttachKeepsText(blocks: seq<ChunkBlock>, pending: seq<ChunkBlock>)
    ensures (Attach(blocks, pending) == []) == (pending + blocks == [])
    ensures Text.Join(PARAGRAPH_BREAK, Texts(Attach(blocks, pending)))
            == Text.Join(PARAGRAPH_BREAK, Texts(pending + blocks))
    decreases |blocks|
  {
    if blocks == [] {
      assert Texts(Demote(pending)) == Texts(pending + blocks);
    } else if blocks[0].headingLevel.Some? {
      assert pending + blocks == (pending + [blocks[0]]) + blocks[1..];
      AttachKeepsText(blocks[1..], pending + [blocks[0]]);
    } else {
      AttachKeepsText(blocks[1..], []);
      assert [] + blocks[1..] == blocks[1..];
      AttachOneKeepsText(blocks, pending);
    }
  }

  lemma AttachUnfolds(blocks: seq<ChunkBlock>, pending: seq<ChunkBlock>) returns (head: ChunkBlock)
    requires blocks != [] && blocks[0].headingLevel.None?
    ensures head == if pending == [] then blocks[0] else WithHeadings(pending, blocks[0])
    ensures Attach(blocks, pending) == [head] + Attach(blocks[1..], [])
  {
    head := if pending == [] then blocks[0] else WithHeadings(pending, blocks[0]);
  }

  lemma AttachOneKeepsText(blocks: seq<ChunkBlock>, pending: seq<ChunkBlock>)
    requires blocks != [] && blocks[0].headingLevel.None?
    requires (Attach(blocks[1..], []) == []) == (blocks[1..] == [])
    requires Text.Join(PARAGRAPH_BREAK, Texts(Attach(blocks[1..], []))) == Text.Join(PARAGRAPH_BREAK, Texts(blocks[1..]))
    ensures Text.Join(PARAGRAPH_BREAK, Texts(Attach(blocks, pending)))
            == Text.Join(PARAGRAPH_BREAK, Texts(pending + blocks))
  {
    hide Text.Join, Attach;
    var rest := Attach(blocks[1..], []);
    var head := AttachUnfolds(blocks, pending);
    assert Texts(Attach(blocks, pending)) == [head.text] + Texts(rest);
    Text.JoinCongruent(PARAGRAPH_BREAK, head.text, Texts(rest), Texts(blocks[1..]));
    assert Texts(pending + blocks) == Texts(pending) + ([blocks[0].text] + Texts(blocks[1..]));
    if pending == [] {
      assert Texts(pending + blocks) == [head.text] + Texts(blocks[1..]);
    } else {
      Text.JoinAbsorbs(PARAGRAPH_BREAK, Texts(pending), blocks[0].text, Texts(blocks[1..]));
    }
  }

  // ----- splitting an oversize block -----

  /** The `n`-th word ends at `end`. */
  ghost predicate IsWordEnd(ws: char -> bool, text: string, end: nat, n: nat) {
    && 0 < end <= |text| && !ws(text[end - 1]) && (end < |text| ==> ws(text[end]))
    && Text.WordsUpTo(ws, text, end) == n
  }

  /** The ends of the words of `text`, in order. */
  method WordEnds(ws: char -> bool, text: string) returns (ends: seq<nat>)
    ensures |ends| == Text.WordCount(ws, text)
    ensures forall k :: 0 <= k < |ends| ==> IsWordEnd(ws, text, ends[k], k + 1)
  {
    ends := [];
    var i := 0;
    while i < |text|
      invariant 0 <= i <= |text|
      invariant |ends| == Text.WordsUpTo(ws, text, i)
      invariant 0 < i < |text| && !ws(text[i]) ==> ws(text[i - 1])
      invariant forall k :: 0 <= k < |ends| ==> IsWordEnd(ws, text, ends[k], k + 1)
    {
      if ws(text[i]) {
        i := i + 1;
      } else {
        var j := i + 1;
        while j < |text| && !ws(text[j])
          invariant i < j <= |text| && !ws(text[j - 1])
          invariant Text.WordsUpTo(ws, text, j) == |ends| + 1
        {
          j := j + 1;
        }
        ends := ends + [j];
        i := j;
      }
    }
  }

  /** Within the budget, or a single typed marker, which is never cut. */
  ghost predicate WithinOrMarker(ws: char -> bool, g: Grammar, maxTokens: nat, text: string) {
    ApproxTokens(ws, text) <= Max(1, maxTokens) || g.accepts(text)
  }

  /** A cut at `candidate`, or where the marker across it begins, or where it ends if it comes first. */
  ghost predicate IsWindowCut(g: Grammar, text: string, candidate: nat, split: nat)
    requires TypedMarkers.Lawful(g)
  {
    var spans := MarkerSpans(g, text);
    if SafeCut(spans, candidate) then split == candidate
    else exists span :: span in spans && Inside(span, candidate) && split == if span.start > 0 then span.start else span.end
  }

  /** Taking `piece` off the front of `text` leaves `rest`: all of it if it is short enough, else one window. */
  ghost predicate IsWindow(ws: char -> bool, g: Grammar, target: nat, text: string, piece: string, rest: string)
    requires TypedMarkers.Lawful(g)
  {
    if Text.WordCount(ws, text) <= target then piece == text && rest == ""
    else exists candidate, split :: WindowAt(ws, g, target, text, piece, rest, candidate, split)
  }

  ghost predicate WindowAt(ws: char -> bool, g: Grammar, target: nat, text: string, piece: string, rest: string, candidate: nat, split: nat)
    requires TypedMarkers.Lawful(g)
  {
    && IsWordEnd(ws, text, candidate, target) && split <= |text| && IsWindowCut(g, text, candidate, split)
    && piece == Text.TrimEnd(ws, text[..split]) && rest == Text.TrimStart(ws, text[split..])
  }

  /** The pieces are windows taken one after another off `text`, leaving `rest`. */
  ghost predicate AreTaken(ws: char -> bool, g: Grammar, target: nat, text: string, pieces: seq<string>, rest: string)
    requires TypedMarkers.Lawful(g)
    decreases |pieces|
  {
    if pieces == [] then text == rest
    else text != "" && exists middle :: IsWindow(ws, g, target, text, pieces[0], middle) && AreTaken(ws, g, target, middle, pieces[1..], rest)
  }

  lemma {:induction false} TakenSnoc(ws: char -> bool, g: Grammar, target: nat, text: string, pieces: seq<string>, rest: string,
                                     piece: string, after: string)
    requires TypedMarkers.Lawful(g) && AreTaken(ws, g, target, text, pieces, rest)
    requires rest != "" && IsWindow(ws, g, target, rest, piece, after)
    ensures AreTaken(ws, g, target, text, pieces + [piece], after)
    decreases |pieces|
  {
    hide IsWindow;
    if pieces == [] {
      assert AreTaken(ws, g, target, after, [], after);
      assert [piece][1..] == [];
    } else {
      var middle :| IsWindow(ws, g, target, text, pieces[0], middle) && AreTaken(ws, g, target, middle, pieces[1..], rest);
      TakenSnoc(ws, g, target, middle, pieces[1..], rest, piece, after);
      assert (pieces + [piece])[1..] == pieces[1..] + [piece];
    }
  }

  /** The window taken off the front of `remaining`: whole words, moved off any marker it would cut. */
  method WindowEnd(ws: char -> bool, g: Grammar, remaining: string, candidate: nat) returns (split: nat)
    requires TypedMarkers.Lawful(g) && 0 < candidate <= |remaining|
    ensures 0 < split <= |remaining|
    ensures SafeCut(MarkerSpans(g, remaining), split)
    ensures split <= candidate || (g.accepts(remaining[..split]) && remaining[split - 1] == ']')
    ensures IsWindowCut(g, remaining, candidate, split)
  {
    hide MarkerSpans;
    var spans := TypedMarkerSpans(g, remaining);
    for i := 0 to |spans|
      invariant forall k :: 0 <= k < i ==> !Inside(spans[k], candidate)
    {
      if spans[i].start < candidate < spans[i].end {
        assert spans[i] in spans;
        MarkerIsAccepted(g, remaining, spans[i]);
        SpanEndsAreSafe(spans, 0, |remaining|, i);
        return if spans[i].start > 0 then spans[i].start else spans[i].end;
      }
    }
    return candidate;
  }

  lemma SpanEndsAreSafe(spans: seq<Span>, low: nat, high: nat, i: nat)
    requires Ordered(spans, low, high) && i < |spans|
    ensures SafeCut(spans, spans[i].start) && SafeCut(spans, spans[i].end)
  {
  }

  /** What one window does: it is non-blank, within the budget or a marker, and only white space is dropped. */
  lemma WindowKeeps(ws: char -> bool, g: Grammar, maxTokens: nat, remaining: string, candidate: nat, split: nat)
    requires Text.Lawful(ws) && remaining != "" && !ws(remaining[0])
    requires 0 < candidate <= |remaining| && 0 < split <= |remaining|
    requires Text.WordsUpTo(ws, remaining, candidate) == TargetWords(maxTokens)
    requires split <= candidate || (g.accepts(remaining[..split]) && remaining[split - 1] == ']')
    ensures var piece, rest := Text.TrimEnd(ws, remaining[..split]), Text.TrimStart(ws, remaining[split..]);
            && piece != "" && |rest| < |remaining|
            && WithinOrMarker(ws, g, maxTokens, piece)
            && Text.Ink(ws, piece) + Text.Ink(ws, rest) == Text.Ink(ws, remaining)
            && (rest != "" ==> !ws(rest[0]))
  {
    hide Text.Ink, Text.WordCount;
    var front, back := remaining[..split], remaining[split..];
    assert remaining == front + back && front[0] == remaining[0];
    Text.InkAppend(ws, front, back);
    Text.TrimEndKeeps(ws, front);
    Text.TrimStartKeeps(ws, back);
    if split <= candidate {
      WindowWords(ws, remaining, candidate, split);
      WindowFits(Text.WordCount(ws, front), maxTokens);
    } else {
      assert Text.TrimEnd(ws, front) == front;
    }
  }

  lemma WindowWords(ws: char -> bool, text: string, candidate: nat, split: nat)
    requires split <= candidate <= |text|
    ensures Text.WordCount(ws, text[..split]) <= Text.WordsUpTo(ws, text, candidate)
  {
    Text.WordsOfPrefix(ws, text, split, split);
    Text.WordsMonotone(ws, text, split, candidate);
  }

  /** The pieces are what `text` becomes: nothing visible is lost, and each is within the budget or a marker. */
  ghost predicate AreWindows(ws: char -> bool, g: Grammar, maxTokens: nat, text: string, definition: string, pieces: seq<TextPiece>) {
    && Text.Ink(ws, Flatten(PieceTexts(pieces))) == Text.Ink(ws, text)
    && (forall i :: 0 <= i < |pieces| ==> WithinOrMarker(ws, g, maxTokens, pieces[i].text))
    && (forall i :: 0 <= i < |pieces| ==>
          pieces[i].definition == pieces[i].text || pieces[i] == TextPiece(text, definition))
  }

  /** The same for a split in progress, with `remaining` still to do. */
  ghost predicate Progress(ws: char -> bool, g: Grammar, maxTokens: nat, text: string, pieces: seq<TextPiece>, remaining: string) {
    && Text.Ink(ws, Flatten(PieceTexts(pieces))) + Text.Ink(ws, remaining) == Text.Ink(ws, text)
    && (forall i :: 0 <= i < |pieces| ==> WithinOrMarker(ws, g, maxTokens, pieces[i].text))
    && (forall i :: 0 <= i < |pieces| ==> pieces[i].definition == pieces[i].text)
  }

  lemma InkOfPieces(ws: char -> bool, pieces: seq<TextPiece>, piece: TextPiece)
    ensures Text.Ink(ws, Flatten(PieceTexts(pieces + [piece])))
            == Text.Ink(ws, Flatten(PieceTexts(pieces))) + Text.Ink(ws, piece.text)
  {
    hide Text.Ink;
    assert PieceTexts(pieces + [piece]) == PieceTexts(pieces) + [piece.text];
    FlattenSnoc(PieceTexts(pieces), piece.text);
    Text.InkAppend(ws, Flatten(PieceTexts(pieces)), piece.text);
  }

  lemma ProgressStep(ws: char -> bool, g: Grammar, maxTokens: nat, text: string, pieces: seq<TextPiece>, remaining: string,
                     piece: string, rest: string)
    requires Progress(ws, g, maxTokens, text, pieces, remaining)
    requires Text.Ink(ws, piece) + Text.Ink(ws, rest) == Text.Ink(ws, remaining)
    requires WithinOrMarker(ws, g, maxTokens, piece)
    ensures Progress(ws, g, maxTokens, text, pieces + [TextPiece(piece, piece)], rest)
  {
    hide Text.Ink, WithinOrMarker, Flatten;
    InkOfPieces(ws, pieces, TextPiece(piece, piece));
    AppendAssoc(Text.Ink(ws, Flatten(PieceTexts(pieces))), Text.Ink(ws, piece), Text.Ink(ws, rest));
  }

  lemma ProgressStarts(ws: char -> bool, g: Grammar, maxTokens: nat, text: string)
    ensures Progress(ws, g, maxTokens, text, [], Text.Trim(ws, text))
    ensures Text.Trim(ws, text) != "" ==> !ws(Text.Trim(ws, text)[0])
  {
    hide Text.Trim, Text.WordCount;
    Text.TrimKeeps(ws, text);
    assert Text.Ink(ws, Flatten(PieceTexts([]))) == "";
  }

  lemma NothingTaken(ws: char -> bool, g: Grammar, target: nat, text: string)
    requires TypedMarkers.Lawful(g)
    ensures AreTaken(ws, g, target, text, [], text) && PieceTexts([]) == []
  {
  }

  lemma ProgressEnds(ws: char -> bool, g: Grammar, maxTokens: nat, text: string, definition: string, pieces: seq<TextPiece>)
    requires Progress(ws, g, maxTokens, text, pieces, "")
    ensures AreWindows(ws, g, maxTokens, text, definition, pieces)
  {
    assert Text.Ink(ws, "") == "";
  }

  lemma WholeIsWindow(ws: char -> bool, g: Grammar, maxTokens: nat, text: string, definition: string)
    requires ApproxTokens(ws, text) <= Max(1, maxTokens)
    ensures WithinOrMarker(ws, g, maxTokens, text)
    ensures AreWindows(ws, g, maxTokens, text, definition, [TextPiece(text, definition)])
    ensures Text.Ink(ws, text) + Text.Ink(ws, "") == Text.Ink(ws, text)
  {
    InkOfPieces(ws, [], TextPiece(text, definition));
    assert [] + [TextPiece(text, definition)] == [TextPiece(text, definition)];
    assert Text.Ink(ws, Flatten(PieceTexts([]))) == "" && Text.Ink(ws, "") == "";
  }

  method EnforceMaxTokens(ws: char -> bool, g: Grammar, text: string, definition: string, maxTokens: nat)
    returns (pieces: seq<TextPiece>)
    requires Text.Lawful(ws) && TypedMarkers.Lawful(g)
    ensures AreWindows(ws, g, maxTokens, text, definition, pieces)
    ensures ApproxTokens(ws, text) <= maxTokens ==> pieces == [TextPiece(text, definition)]
    ensures ApproxTokens(ws, text) > maxTokens ==>
              AreTaken(ws, g, TargetWords(maxTokens), Text.Trim(ws, text), PieceTexts(pieces), "")
  {
    hide Progress, AreWindows, WithinOrMarker, MarkerSpans, Text.Ink, Text.TrimStart, Text.TrimEnd, Text.Trim;
    hide AreTaken, IsWindowCut, Text.WordCount, TypedMarkers.Lawful, Text.WordsUpTo;
    if ApproxTokens(ws, text) <= maxTokens {
      WholeIsWindow(ws, g, maxTokens, text, definition);
      return [TextPiece(text, definition)];
    }
    var targetWords := TargetWords(maxTokens);
    pieces := [];
    var remaining := Text.Trim(ws, text);
    ProgressStarts(ws, g, maxTokens, text);
    NothingTaken(ws, g, targetWords, remaining);
    while remaining != ""
      invariant Progress(ws, g, maxTokens, text, pieces, remaining)
      invariant AreTaken(ws, g, targetWords, Text.Trim(ws, text), PieceTexts(pieces), remaining)
      invariant remaining != "" ==> !ws(remaining[0])
      decreases |remaining|
    {
      var words := WordEnds(ws, remaining);
      if |words| <= targetWords {
        WindowFits(|words|, maxTokens);
        WholeIsWindow(ws, g, maxTokens, remaining, remaining);
        ProgressStep(ws, g, maxTokens, text, pieces, remaining, remaining, "");
        TakenSnoc(ws, g, targetWords, Text.Trim(ws, text), PieceTexts(pieces), remaining, remaining, "");
        assert PieceTexts(pieces + [TextPiece(remaining, remaining)]) == PieceTexts(pieces) + [remaining];
        pieces := pieces + [TextPiece(remaining, remaining)];
        remaining := "";
        break;
      }
      var candidate := words[targetWords - 1];
      var split := WindowEnd(ws, g, remaining, candidate);
      WindowKeeps(ws, g, maxTokens, remaining, candidate, split);
      var piece := Text.TrimEnd(ws, remaining[..split]);
      if piece == "" {
        break;
      }
      var rest := Text.TrimStart(ws, remaining[split..]);
      ProgressStep(ws, g, maxTokens, text, pieces, remaining, piece, rest);
      assert WindowAt(ws, g, targetWords, remaining, piece, rest, candidate, split);
      TakenSnoc(ws, g, targetWords, Text.Trim(ws, text), PieceTexts(pieces), remaining, piece, rest);
      assert PieceTexts(pieces + [TextPiece(piece, piece)]) == PieceTexts(pieces) + [piece];
      pieces := pieces + [TextPiece(piece, piece)];
      remaining := rest;
    }
    ProgressEnds(ws, g, maxTokens, text, definition, pieces);
  }

  /** `parts` are visible pieces of `text[..n]`, with `current` still to be added. */
  ghost predicate Collected(ws: char -> bool, text: string, n: nat, parts: seq<string>, current: string) {
    && n <= |text|
    && Text.Ink(ws, Flatten(parts)) + Text.Ink(ws, current) == Text.Ink(ws, text[..n])
    && (forall i :: 0 <= i < |parts| ==> parts[i] != "")
  }

  lemma CollectChar(ws: char -> bool, text: string, n: nat, parts: seq<string>, current: string)
    requires n < |text| && Collected(ws, text, n, parts, current)
    ensures Collected(ws, text, n + 1, parts, current + [text[n]])
  {
    hide Text.Ink;
    assert text[..n + 1] == text[..n] + [text[n]];
    Text.InkAppend(ws, text[..n], [text[n]]);
    Text.InkAppend(ws, current, [text[n]]);
    AppendAssoc(Text.Ink(ws, Flatten(parts)), Text.Ink(ws, current), Text.Ink(ws, [text[n]]));
  }

  lemma CollectPart(ws: char -> bool, text: string, n: nat, parts: seq<string>, current: string)
    requires Collected(ws, text, n, parts, current)
    ensures var trimmed := Text.Trim(ws, current);
            Collected(ws, text, n, if trimmed == "" then parts else parts + [trimmed], "")
  {
    hide Text.WordCount, Text.Trim;
    var trimmed := Text.Trim(ws, current);
    Text.TrimKeeps(ws, current);
    assert Text.Ink(ws, "") == "";
    FlattenSnoc(parts, trimmed);
    Text.InkAppend(ws, Flatten(parts), trimmed);
  }

  lemma CollectNothing(ws: char -> bool, text: string)
    ensures Collected(ws, text, 0, [], "")
  {
  }

  // ----- cutting a text after some of its positions -----

  function TrimmedPart(ws: char -> bool, part: string): seq<string> {
    if Text.Trim(ws, part) == "" then [] else [Text.Trim(ws, part)]
  }

  /** The characters of `text[..n]` after the last end. */
  function OpenPart(ends: nat -> bool, text: string, n: nat): string
    requires n <= |text|
  {
    if n == 0 || ends(n - 1) then "" else OpenPart(ends, text, n - 1) + [text[n - 1]]
  }

  /** The parts of `text[..n]` up to the last end, trimmed, the blank ones dropped. */
  function ClosedParts(ws: char -> bool, ends: nat -> bool, text: string, n: nat): seq<string>
    requires n <= |text|
  {
    if n == 0 then []
    else ClosedParts(ws, ends, text, n - 1)
         + if ends(n - 1) then TrimmedPart(ws, OpenPart(ends, text, n - 1) + [text[n - 1]]) else []
  }

  /** The text cut after every end; parts are trimmed and blank ones dropped. */
  function CutParts(ws: char -> bool, ends: nat -> bool, text: string): seq<string> {
    ClosedParts(ws, ends, text, |text|) + TrimmedPart(ws, OpenPart(ends, text, |text|))
  }

  lemma {:induction false} ClosedPartsCollect(ws: char -> bool, ends: nat -> bool, text: string, n: nat)
    requires n <= |text|
    ensures Collected(ws, text, n, ClosedParts(ws, ends, text, n), OpenPart(ends, text, n))
  {
    hide Collected, Text.Trim;
    if n == 0 {
      CollectNothing(ws, text);
    } else {
      ClosedPartsCollect(ws, ends, text, n - 1);
      CollectChar(ws, text, n - 1, ClosedParts(ws, ends, text, n - 1), OpenPart(ends, text, n - 1));
      if ends(n - 1) {
        CollectPart(ws, text, n, ClosedParts(ws, ends, text, n - 1), OpenPart(ends, text, n - 1) + [text[n - 1]]);
      }
      assert ClosedParts(ws, ends, text, n - 1) + [] == ClosedParts(ws, ends, text, n - 1);
    }
  }

  /** Cutting keeps the visible characters, and no part is empty. */
  lemma CutPartsKeepInk(ws: char -> bool, ends: nat -> bool, text: string)
    ensures Text.Ink(ws, Flatten(CutParts(ws, ends, text))) == Text.Ink(ws, text)
    ensures forall i :: 0 <= i < |CutParts(ws, ends, text)| ==> CutParts(ws, ends, text)[i] != ""
  {
    hide Text.Trim, Flatten;
    ClosedPartsCollect(ws, ends, text, |text|);
    CollectPart(ws, text, |text|, ClosedParts(ws, ends, text, |text|), OpenPart(ends, text, |text|));
    assert ClosedParts(ws, ends, text, |text|) + [] == ClosedParts(ws, ends, text, |text|);
    assert text[..|text|] == text && Text.Ink(ws, "") == "";
  }

  /** A sentence ends after `.`, `!` or `?` when white space and then a capital or `(` follow. */
  predicate SentenceEnds(ws: char -> bool, text: string, i: nat)
    requires i < |text|
  {
    var j := Text.LeadingBlanks(ws, text, i + 1);
    && text[i] in {'.', '!', '?'}
    && i + 1 < j < |text|
    && ('A' <= text[j] <= 'Z' || text[j] == '(')
  }

  /** A capital or `(` at `j`, and nothing but white space, and some of it, between `i` and `j`. */
  predicate OpensNext(ws: char -> bool, text: string, i: nat, j: nat) {
    && i + 1 < j < |text| && (forall k :: i < k < j ==> ws(text[k]))
    && !ws(text[j]) && ('A' <= text[j] <= 'Z' || text[j] == '(')
  }

  lemma SentenceEndsExactly(ws: char -> bool, text: string, i: nat)
    requires Text.Lawful(ws) && i < |text| && forall c :: 'A' <= c <= 'Z' || c == '(' ==> !ws(c)
    ensures SentenceEnds(ws, text, i) <==> (text[i] == '.' || text[i] == '!' || text[i] == '?') && exists j :: OpensNext(ws, text, i, j)
  {
    var j := Text.LeadingBlanks(ws, text, i + 1);
    if SentenceEnds(ws, text, i) {
      assert OpensNext(ws, text, i, j);
    }
    if k :| OpensNext(ws, text, i, k) {
      assert k == j;
    }
  }

  function SentenceEnd(ws: char -> bool, text: string): nat -> bool {
    (i: nat) => i < |text| && SentenceEnds(ws, text, i)
  }

  lemma BlankEndsNothing(ws: char -> bool, text: string, i: nat)
    requires Text.Lawful(ws) && i < |text| && ws(text[i])
    ensures !SentenceEnds(ws, text, i)
  {
  }

  /** White space after a sentence end opens nothing. */
  lemma {:induction false} BlanksStayOpen(ws: char -> bool, text: string, from: nat, to: nat)
    requires Text.Lawful(ws) && 0 < from <= to <= |text| && SentenceEnd(ws, text)(from - 1)
    requires forall i :: from <= i < to ==> ws(text[i])
    ensures ClosedParts(ws, SentenceEnd(ws, text), text, to) == ClosedParts(ws, SentenceEnd(ws, text), text, from)
    ensures OpenPart(SentenceEnd(ws, text), text, to) == text[from..to]
  {
    hide Text.Trim, SentenceEnds, Text.Lawful, TrimmedPart;
    if from < to {
      BlanksStayOpen(ws, text, from, to - 1);
      BlankEndsNothing(ws, text, to - 1);
      assert !SentenceEnd(ws, text)(to - 1);
      assert text[from..to] == text[from..to - 1] + [text[to - 1]];
    }
  }

  lemma CutNothing(ws: char -> bool, ends: nat -> bool, text: string)
    ensures ClosedParts(ws, ends, text, 0) == [] && OpenPart(ends, text, 0) == ""
  {
  }

  lemma CutStep(ws: char -> bool, ends: nat -> bool, text: string, n: nat, pad: string, current: string)
    requires n < |text| && Text.Blank(ws, pad) && OpenPart(ends, text, n) == pad + current
    ensures ends(n) ==> ClosedParts(ws, ends, text, n + 1) == ClosedParts(ws, ends, text, n) + TrimmedPart(ws, current + [text[n]])
    ensures !ends(n) ==>
              ClosedParts(ws, ends, text, n + 1) == ClosedParts(ws, ends, text, n)
              && OpenPart(ends, text, n + 1) == pad + (current + [text[n]])
  {
    hide Text.Trim;
    AppendAssoc(pad, current, [text[n]]);
    Text.TrimAfterBlank(ws, pad, current + [text[n]]);
  }

  method SentenceSplit(ws: char -> bool, text: string) returns (sentences: seq<string>)
    requires Text.Lawful(ws)
    ensures sentences == CutParts(ws, SentenceEnd(ws, text), text)
  {
    hide Text.Trim, SentenceEnds, Text.Lawful, ClosedParts, OpenPart;
    sentences := [];
    CutNothing(ws, SentenceEnd(ws, text), text);
    var current := "";
    var i := 0;
    ghost var ends, pad := SentenceEnd(ws, text), "";
    while i < |text|
      invariant 0 <= i <= |text|
      invariant sentences == ClosedParts(ws, ends, text, i)
      invariant Text.Blank(ws, pad) && OpenPart(ends, text, i) == pad + current
    {
      CutStep(ws, ends, text, i, pad, current);
      current := current + [text[i]];
      if SentenceEnds(ws, text, i) {
        var j := Text.LeadingBlanks(ws, text, i + 1);
        var trimmed := Text.Trim(ws, current);
        if trimmed != "" {
          sentences := sentences + [trimmed];
        }
        BlanksStayOpen(ws, text, i + 1, j);
        pad := text[i + 1..j];
        current := "";
        i := j;
        continue;
      }
      i := i + 1;
    }
    Text.TrimAfterBlank(ws, pad, current);
    var trimmed := Text.Trim(ws, current);
    if trimmed != "" {
      sentences := sentences + [trimmed];
    }
  }

  function LineEnd(text: string): nat -> bool {
    (i: nat) => i < |text| && text[i] == '\n'
  }

  /** The trimmed lines of `text` that are not blank. */
  method TableRows(ws: char -> bool, text: string) returns (rows: seq<string>)
    requires Text.Lawful(ws)
    ensures rows == CutParts(ws, LineEnd(text), text)
  {
    hide Text.Trim;
    rows := [];
    var current := "";
    for i := 0 to |text|
      invariant rows == ClosedParts(ws, LineEnd(text), text, i) && current == OpenPart(LineEnd(text), text, i)
    {
      if text[i] == '\n' {
        Text.TrimBeforeBlank(ws, current, '\n');
        var row := Text.Trim(ws, current);
        if row != "" {
          rows := rows + [row];
        }
        current := "";
      } else {
        current := current + [text[i]];
      }
    }
    var row := Text.Trim(ws, current);
    if row != "" {
      rows := rows + [row];
    }
  }

  ghost function TotalTokens(ws: char -> bool, parts: seq<string>): nat {
    if parts == [] then 0 else TotalTokens(ws, parts[..|parts| - 1]) + ApproxTokens(ws, parts[|parts| - 1])
  }

  /** Whole parts, in order; a group over the budget is a single part; no group could take the next part. */
  ghost predicate AreGreedyGroups(ws: char -> bool, maxTokens: nat, parts: seq<string>, groups: seq<seq<string>>) {
    && Flatten(groups) == parts
    && (forall k :: 0 <= k < |groups| ==> groups[k] != [])
    && (forall k :: 0 <= k < |groups| ==> TotalTokens(ws, groups[k]) <= maxTokens || |groups[k]| == 1)
    && (forall k :: 0 <= k < |groups| - 1 ==>
          TotalTokens(ws, groups[k]) + ApproxTokens(ws, groups[k + 1][0]) > maxTokens)
  }

  lemma GroupsExtend(ws: char -> bool, maxTokens: nat, parts: seq<string>, groups: seq<seq<string>>, last: seq<string>, part: string)
    requires AreGreedyGroups(ws, maxTokens, parts, groups + [last])
    requires TotalTokens(ws, last) + ApproxTokens(ws, part) <= maxTokens
    ensures AreGreedyGroups(ws, maxTokens, parts + [part], groups + [last + [part]])
  {
    hide ApproxTokens, Flatten;
    FlattenSnoc(groups, last);
    FlattenSnoc(groups, last + [part]);
    AppendAssoc(Flatten(groups), last, [part]);
    var before, after := groups + [last], groups + [last + [part]];
    assert before[|groups|] == last && after[|groups|] == last + [part];
    assert forall k :: 0 <= k < |groups| ==> before[k] == after[k] == groups[k];
    assert (last + [part])[..|last|] == last;
    assert TotalTokens(ws, last + [part]) <= maxTokens;
    forall k | 0 <= k < |after| - 1
      ensures TotalTokens(ws, after[k]) + ApproxTokens(ws, after[k + 1][0]) > maxTokens
    {
      assert after[k] == before[k] && after[k + 1][0] == before[k + 1][0];
    }
  }

  lemma GroupsOpen(ws: char -> bool, maxTokens: nat, parts: seq<string>, groups: seq<seq<string>>, part: string)
    requires AreGreedyGroups(ws, maxTokens, parts, groups)
    requires groups != [] ==> TotalTokens(ws, groups[|groups| - 1]) + ApproxTokens(ws, part) > maxTokens
    ensures AreGreedyGroups(ws, maxTokens, parts + [part], groups + [[part]])
  {
    hide ApproxTokens, Flatten;
    FlattenSnoc(groups, [part]);
  }

  lemma NoGroups(ws: char -> bool, maxTokens: nat)
    ensures AreGreedyGroups(ws, maxTokens, [], [])
  {
  }

  /** The greedy loop over sentences or rows. */
  method GroupGreedily(ws: char -> bool, parts: seq<string>, maxTokens: nat) returns (groups: seq<seq<string>>)
    ensures AreGreedyGroups(ws, maxTokens, parts, groups)
  {
    hide ApproxTokens, AreGreedyGroups;
    groups := [];
    var buffer: seq<string> := [];
    var bufferTokens := 0;
    NoGroups(ws, maxTokens);
    for i := 0 to |parts|
      invariant bufferTokens == TotalTokens(ws, buffer)
      invariant buffer == [] ==> i == 0 && groups == []
      invariant AreGreedyGroups(ws, maxTokens, parts[..i], if buffer == [] then [] else groups + [buffer])
    {
      var tokens := ApproxTokens(ws, parts[i]);
      assert parts[..i + 1] == parts[..i] + [parts[i]];
      if buffer != [] && bufferTokens + tokens > maxTokens {
        GroupsOpen(ws, maxTokens, parts[..i], groups + [buffer], parts[i]);
        groups := groups + [buffer];
        buffer := [parts[i]];
        bufferTokens := tokens;
      } else {
        if buffer == [] {
          GroupsOpen(ws, maxTokens, parts[..i], [], parts[i]);
        } else {
          GroupsExtend(ws, maxTokens, parts[..i], groups, buffer, parts[i]);
        }
        buffer := buffer + [parts[i]];
        bufferTokens := bufferTokens + tokens;
      }
    }
    assert parts[..|parts|] == parts;
    if buffer != [] {
      groups := groups + [buffer];
    }
  }

  lemma InkOfAllPieces(ws: char -> bool, a: seq<TextPiece>, b: seq<TextPiece>)
    ensures Text.Ink(ws, Flatten(PieceTexts(a + b)))
            == Text.Ink(ws, Flatten(PieceTexts(a))) + Text.Ink(ws, Flatten(PieceTexts(b)))
  {
    assert PieceTexts(a + b) == PieceTexts(a) + PieceTexts(b);
    Text.InkOfFlattenAppend(ws, PieceTexts(a), PieceTexts(b));
  }

  /** The pieces made so far carry exactly the visible characters of `parts`. */
  ghost predicate GroupProgress(ws: char -> bool, g: Grammar, maxTokens: nat, text: string, definition: string,
                                parts: seq<string>, pieces: seq<TextPiece>)
  {
    && Text.Ink(ws, Flatten(PieceTexts(pieces))) == Text.Ink(ws, Flatten(parts))
    && (forall i :: 0 <= i < |pieces| ==> WithinOrMarker(ws, g, maxTokens, pieces[i].text))
    && (forall i :: 0 <= i < |pieces| ==>
          pieces[i].definition == pieces[i].text || pieces[i] == TextPiece(text, definition))
  }

  lemma GroupProgressStep(ws: char -> bool, g: Grammar, maxTokens: nat, text: string, definition: string,
                          parts: seq<string>, pieces: seq<TextPiece>, separator: string, group: seq<string>,
                          pieceDefinition: string, added: seq<TextPiece>)
    requires separator != "" && Text.Blank(ws, separator)
    requires GroupProgress(ws, g, maxTokens, text, definition, parts, pieces)
    requires AreWindows(ws, g, maxTokens, Text.Join(separator, group), pieceDefinition, added)
    requires pieceDefinition == Text.Join(separator, group)
             || TextPiece(Text.Join(separator, group), pieceDefinition) == TextPiece(text, definition)
    ensures GroupProgress(ws, g, maxTokens, text, definition, parts + group, pieces + added)
  {
    hide Text.Ink, WithinOrMarker, Flatten, Text.Join, Text.WordCount, Text.TotalWords;
    InkOfAllPieces(ws, pieces, added);
    Text.JoinKeeps(ws, separator, group);
    Text.InkOfFlattenAppend(ws, parts, group);
  }

  /**
    What becomes of one group of whole sentences or rows: their join as one piece if it is within the
    budget, else the windows of it.
   */
  ghost predicate IsGroupSplit(ws: char -> bool, g: Grammar, maxTokens: nat, joined: string, definition: string, run: seq<TextPiece>)
    requires TypedMarkers.Lawful(g)
  {
    if ApproxTokens(ws, joined) <= maxTokens then run == [TextPiece(joined, definition)]
    else AreTaken(ws, g, TargetWords(maxTokens), Text.Trim(ws, joined), PieceTexts(run), "")
  }

  /** The first groups, joined, have become these runs; the last group may keep the definition text in prose. */
  ghost predicate AreRuns(ws: char -> bool, g: Grammar, maxTokens: nat, separator: string, groups: seq<seq<string>>, text: string,
                          definition: string, prose: bool, runs: seq<seq<TextPiece>>)
    requires TypedMarkers.Lawful(g)
  {
    && |runs| <= |groups|
    && forall k :: 0 <= k < |runs| ==>
         && var joined := Text.Join(separator, groups[k]);
            IsGroupSplit(ws, g, maxTokens, joined, if prose && k == |groups| - 1 && joined == text then definition else joined, runs[k])
  }

  lemma RunsSnoc(ws: char -> bool, g: Grammar, maxTokens: nat, separator: string, groups: seq<seq<string>>, text: string,
                 definition: string, prose: bool, runs: seq<seq<TextPiece>>, run: seq<TextPiece>)
    requires TypedMarkers.Lawful(g) && AreRuns(ws, g, maxTokens, separator, groups, text, definition, prose, runs)
    requires |runs| < |groups|
    requires var joined := Text.Join(separator, groups[|runs|]);
             IsGroupSplit(ws, g, maxTokens, joined,
                          if prose && |runs| == |groups| - 1 && joined == text then definition else joined, run)
    ensures AreRuns(ws, g, maxTokens, separator, groups, text, definition, prose, runs + [run])
  {
    hide IsGroupSplit, Text.Join;
  }

  /**
    How a body comes apart: whole sentences or rows are put together greedily, and every group gives the
    pieces of one run. Only a prose body that stays in one piece at the end keeps its definition text.
   */
  ghost predicate IsBodySplit(ws: char -> bool, g: Grammar, maxTokens: nat, isTable: bool, text: string, definition: string,
                              parts: seq<string>, groups: seq<seq<string>>, runs: seq<seq<TextPiece>>, pieces: seq<TextPiece>)
    requires TypedMarkers.Lawful(g)
  {
    && AreGreedyGroups(ws, maxTokens, parts, groups)
    && |runs| == |groups| && Flatten(runs) == pieces
    && AreRuns(ws, g, maxTokens, if isTable then "\n" else " ", groups, text, definition, !isTable, runs)
  }

  /** Join each group and enforce the budget on it; only a last piece that is the whole text keeps its definition. */
  method EnforceGroups(ws: char -> bool, g: Grammar, separator: string, groups: seq<seq<string>>, text: string,
                       definition: string, maxTokens: nat, prose: bool)
    returns (pieces: seq<TextPiece>, ghost runs: seq<seq<TextPiece>>)
    requires Text.Lawful(ws) && TypedMarkers.Lawful(g)
    requires separator != "" && Text.Blank(ws, separator)
    ensures GroupProgress(ws, g, maxTokens, text, definition, Flatten(groups), pieces)
    ensures |runs| == |groups| && Flatten(runs) == pieces
    ensures AreRuns(ws, g, maxTokens, separator, groups, text, definition, prose, runs)
  {
    hide GroupProgress, AreWindows, Text.Join, AreTaken, ApproxTokens, Flatten, IsGroupSplit, AreRuns;
    pieces, runs := [], [];
    NoRuns(ws, g, maxTokens, separator, groups, text, definition, prose);
    assert GroupProgress(ws, g, maxTokens, text, definition, [], []) by {
      NothingProgresses(ws, g, maxTokens, text, definition);
    }
    for i := 0 to |groups|
      invariant GroupProgress(ws, g, maxTokens, text, definition, Flatten(groups[..i]), pieces)
      invariant |runs| == i && Flatten(runs) == pieces
      invariant AreRuns(ws, g, maxTokens, separator, groups, text, definition, prose, runs)
    {
      var piece := Text.Join(separator, groups[i]);
      var pieceDefinition := if prose && i == |groups| - 1 && piece == text then definition else piece;
      var added := EnforceMaxTokens(ws, g, piece, pieceDefinition, maxTokens);
      GroupProgressStep(ws, g, maxTokens, text, definition, Flatten(groups[..i]), pieces, separator, groups[i],
                        pieceDefinition, added);
      assert groups[..i + 1] == groups[..i] + [groups[i]];
      FlattenSnoc(groups[..i], groups[i]);
      FlattenSnoc(runs, added);
      GroupIsSplit(ws, g, maxTokens, piece, pieceDefinition, added);
      RunsSnoc(ws, g, maxTokens, separator, groups, text, definition, prose, runs, added);
      pieces, runs := pieces + added, runs + [added];
    }
    assert groups[..|groups|] == groups;
  }

  lemma NoRuns(ws: char -> bool, g: Grammar, maxTokens: nat, separator: string, groups: seq<seq<string>>, text: string,
               definition: string, prose: bool)
    requires TypedMarkers.Lawful(g)
    ensures AreRuns(ws, g, maxTokens, separator, groups, text, definition, prose, [])
    ensures Flatten<TextPiece>([]) == [] && Flatten<string>([]) == []
  {
  }

  lemma GroupIsSplit(ws: char -> bool, g: Grammar, maxTokens: nat, joined: string, definition: string, run: seq<TextPiece>)
    requires TypedMarkers.Lawful(g)
    requires ApproxTokens(ws, joined) <= maxTokens ==> run == [TextPiece(joined, definition)]
    requires ApproxTokens(ws, joined) > maxTokens ==>
               AreTaken(ws, g, TargetWords(maxTokens), Text.Trim(ws, joined), PieceTexts(run), "")
    ensures IsGroupSplit(ws, g, maxTokens, joined, definition, run)
  {
  }

  lemma NothingProgresses(ws: char -> bool, g: Grammar, maxTokens: nat, text: string, definition: string)
    ensures GroupProgress(ws, g, maxTokens, text, definition, [], [])
  {
  }

  method SplitOversizeBody(ws: char -> bool, g: Grammar, isTable: bool, text: string, definition: string, maxTokens: nat)
    returns (pieces: seq<TextPiece>, ghost groups: seq<seq<string>>, ghost runs: seq<seq<TextPiece>>)
    requires Text.Lawful(ws) && TypedMarkers.Lawful(g)
    ensures AreWindows(ws, g, maxTokens, text, definition, pieces)
    ensures var parts := CutParts(ws, if isTable then LineEnd(text) else SentenceEnd(ws, text), text);
            IsBodySplit(ws, g, maxTokens, isTable, text, definition, parts, groups, runs, pieces)
  {
    hide Text.Ink, WithinOrMarker, ApproxTokens, TotalTokens, AreGreedyGroups, AreRuns, CutParts;
    if isTable {
      var rows := TableRows(ws, text);
      CutPartsKeepInk(ws, LineEnd(text), text);
      var rowGroups := GroupGreedily(ws, rows, maxTokens);
      GroupsAreParts(ws, maxTokens, rows, rowGroups);
      groups := rowGroups;
      pieces, runs := EnforceGroups(ws, g, "\n", rowGroups, text, definition, maxTokens, false);
      return;
    }
    var sentences := SentenceSplit(ws, text);
    CutPartsKeepInk(ws, SentenceEnd(ws, text), text);
    var sentenceGroups := GroupGreedily(ws, sentences, maxTokens);
    GroupsAreParts(ws, maxTokens, sentences, sentenceGroups);
    groups := sentenceGroups;
    pieces, runs := EnforceGroups(ws, g, " ", sentenceGroups, text, definition, maxTokens, true);
  }

  lemma GroupsAreParts(ws: char -> bool, maxTokens: nat, parts: seq<string>, groups: seq<seq<string>>)
    requires AreGreedyGroups(ws, maxTokens, parts, groups)
    ensures Flatten(groups) == parts
  {
    hide ApproxTokens, TotalTokens;
  }

  /** The most words whose scaled estimate is within `maxTokens`. */
  method MaxTotalWords(maxTokens: nat) returns (words: nat)
    ensures Scale(words) <= maxTokens < Scale(words + 1)
  {
    words := maxTokens;
    while Scale(words) > maxTokens
      invariant maxTokens < Scale(words + 1)
    {
      words := words - 1;
    }
  }

  function HeadingPrefix(block: ChunkBlock): string {
    if block.headingContext.Some? then block.headingContext.value + PARAGRAPH_BREAK else ""
  }

  /** `bodies` with the block's heading in front of each. */
  function Headed(block: ChunkBlock, bodies: seq<TextPiece>): (pieces: seq<TextPiece>)
    ensures |pieces| == |bodies|
    ensures forall i :: 0 <= i < |bodies| ==>
              pieces[i] == TextPiece(HeadingPrefix(block) + bodies[i].text, HeadingPrefix(block) + bodies[i].definition)
  {
    seq(|bodies|, i requires 0 <= i < |bodies| =>
      TextPiece(HeadingPrefix(block) + bodies[i].text, HeadingPrefix(block) + bodies[i].definition))
  }

  /** How an oversize block comes apart: `bodies` are windows of its text without the heading. */
  ghost predicate IsBroken(ws: char -> bool, g: Grammar, maxTokens: nat, block: ChunkBlock, bodies: seq<TextPiece>) {
    var prefix := HeadingPrefix(block);
    && TypedMarkers.Lawful(g) && prefix <= block.text && prefix <= block.definitionText
    && exists bodyMax: nat ::
         && AreWindows(ws, g, bodyMax, block.text[|prefix|..], block.definitionText[|prefix|..], bodies)
         && ComesApart(ws, g, bodyMax, block.isOversizeTable, block.text[|prefix|..], block.definitionText[|prefix|..], bodies)
         && IsBodyBudget(ws, maxTokens, block.headingContext, bodyMax)
  }

  /** A table comes apart into its rows, any other body into its sentences. */
  ghost predicate ComesApart(ws: char -> bool, g: Grammar, maxTokens: nat, isTable: bool, text: string, definition: string,
                             pieces: seq<TextPiece>)
    requires TypedMarkers.Lawful(g)
  {
    var parts := CutParts(ws, if isTable then LineEnd(text) else SentenceEnd(ws, text), text);
    exists groups, runs :: IsBodySplit(ws, g, maxTokens, isTable, text, definition, parts, groups, runs, pieces)
  }

  /** Without a heading the whole budget; with one, what the heading leaves, but at least one word. */
  ghost predicate IsBodyBudget(ws: char -> bool, maxTokens: nat, context: Option<string>, bodyMax: nat) {
    match context
    case None => bodyMax == maxTokens
    case Some(heading) =>
      exists total: nat ::
        && Scale(total) <= maxTokens < Scale(total + 1)
        && bodyMax == Estimate(Max(1, total - Text.WordCount(ws, heading)))
  }

  method SplitOversizeBlock(ws: char -> bool, g: Grammar, block: ChunkBlock, maxTokens: nat)
    returns (pieces: seq<TextPiece>, ghost bodies: seq<TextPiece>)
    requires Text.Lawful(ws) && TypedMarkers.Lawful(g)
    requires HeadingPrefix(block) <= block.text && HeadingPrefix(block) <= block.definitionText
    ensures IsBroken(ws, g, maxTokens, block, bodies)
    ensures pieces == Headed(block, bodies)
  {
    hide AreWindows, Text.WordCount, IsBodySplit, CutParts;
    var prefix := HeadingPrefix(block);
    var bodyMax := maxTokens;
    if block.headingContext.Some? {
      var contextWords := Text.WordCount(ws, block.headingContext.value);
      var total := MaxTotalWords(maxTokens);
      var bodyWords: nat := if contextWords < total then total - contextWords else 1;
      bodyMax := Estimate(bodyWords);
    }
    var split;
    ghost var groups, runs;
    split, groups, runs := SplitOversizeBody(ws, g, block.isOversizeTable, block.text[|prefix|..], block.definitionText[|prefix|..], bodyMax);
    bodies := split;
    pieces := Headed(block, split);
    assert IsBodyBudget(ws, maxTokens, block.headingContext, bodyMax);
  }

  lemma HeadedWords(ws: char -> bool, heading: string, body: string)
    requires Text.Lawful(ws)
    ensures Text.WordCount(ws, heading + PARAGRAPH_BREAK + body) == Text.WordCount(ws, heading) + Text.WordCount(ws, body)
  {
    hide Text.WordCount;
    Text.WordsAppend(ws, heading, PARAGRAPH_BREAK);
    Text.BlankHasNoWords(ws, PARAGRAPH_BREAK);
    Text.WordsAppend(ws, heading + PARAGRAPH_BREAK, body);
  }

  /**
    When the heading leaves room for at least one word, every piece of an oversize block, its
    repeated heading included, is within the budget, unless its body is a single typed marker.
   */
  lemma BrokenWithinBudget(ws: char -> bool, g: Grammar, maxTokens: nat, block: ChunkBlock, bodies: seq<TextPiece>, i: nat)
    requires Text.Lawful(ws) && IsBroken(ws, g, maxTokens, block, bodies) && i < |bodies|
    requires block.headingContext.Some? ==> Scale(Text.WordCount(ws, block.headingContext.value) + 1) <= maxTokens
    ensures g.accepts(bodies[i].text) || ApproxTokens(ws, Headed(block, bodies)[i].text) <= Max(1, maxTokens)
  {
    hide Text.WordCount, Text.Ink, AreWindows, Scale, Estimate, IsBodyBudget, HeadingPrefix;
    var prefix, body := HeadingPrefix(block), bodies[i].text;
    var bodyMax: nat :| AreWindows(ws, g, bodyMax, block.text[|prefix|..], block.definitionText[|prefix|..], bodies)
                        && IsBodyBudget(ws, maxTokens, block.headingContext, bodyMax);
    WindowIsWithin(ws, g, bodyMax, block.text[|prefix|..], block.definitionText[|prefix|..], bodies, i);
    if !g.accepts(body) {
      WithHeadingWithinBudget(ws, maxTokens, block, bodyMax, body);
    }
  }

  lemma WithHeadingWithinBudget(ws: char -> bool, maxTokens: nat, block: ChunkBlock, bodyMax: nat, body: string)
    requires Text.Lawful(ws) && IsBodyBudget(ws, maxTokens, block.headingContext, bodyMax)
    requires ApproxTokens(ws, body) <= Max(1, bodyMax)
    requires block.headingContext.Some? ==> Scale(Text.WordCount(ws, block.headingContext.value) + 1) <= maxTokens
    ensures ApproxTokens(ws, HeadingPrefix(block) + body) <= Max(1, maxTokens)
  {
    hide Text.WordCount, Scale, Estimate, Text.Lawful, HeadingPrefix;
    HeadedText(block, body);
    if block.headingContext.Some? {
      var heading := block.headingContext.value;
      var contextWords := Text.WordCount(ws, heading);
      var total: nat :| Scale(total) <= maxTokens < Scale(total + 1)
                        && bodyMax == Estimate(Max(1, total - contextWords));
      HeadedWords(ws, heading, body);
      EstimateIsPositive(Max(1, total - contextWords));
      BudgetAddsUp(contextWords, Text.WordCount(ws, body), total, maxTokens);
    }
  }

  lemma HeadedText(block: ChunkBlock, body: string)
    ensures HeadingPrefix(block) + body ==
            if block.headingContext.Some? then block.headingContext.value + PARAGRAPH_BREAK + body else body
  {
  }

  lemma EstimateIsPositive(words: nat)
    ensures Estimate(words) >= 1
  {
  }

  lemma WindowIsWithin(ws: char -> bool, g: Grammar, maxTokens: nat, text: string, definition: string, pieces: seq<TextPiece>, i: nat)
    requires AreWindows(ws, g, maxTokens, text, definition, pieces) && i < |pieces|
    ensures ApproxTokens(ws, pieces[i].text) <= Max(1, maxTokens) || g.accepts(pieces[i].text)
  {
    hide Text.Ink, Text.WordCount;
    assert WithinOrMarker(ws, g, maxTokens, pieces[i].text);
  }

  lemma BudgetAddsUp(contextWords: nat, bodyWords: nat, total: nat, maxTokens: nat)
    requires Scale(total) <= maxTokens < Scale(total + 1)
    requires Scale(contextWords + 1) <= maxTokens
    requires Estimate(bodyWords) <= Estimate(Max(1, total - contextWords))
    ensures Estimate(contextWords + bodyWords) <= Max(1, maxTokens)
  {
    assert contextWords + 1 <= total;
    assert bodyWords <= total - contextWords;
  }
}

/**
  The exact tokenizer pass: chunks over the token limit are split again at safe boundaries, by
  binary search against an arbitrary deterministic token counter.
 */
module ExactSplit {
  import opened Common
  import opened Chunks
  import opened CursorScan
  import opened TypedMarkers

  const DOCUMENT_EMBEDDING_PREFIX := ""

  datatype Prepared = Prepared(count: nat, ids: Option<seq<int>>)

  /** The token counter; it may fail, but it answers the same text in the same way. */
  type Prepare = string -> Result<Prepared, string>

  datatype SplitError = TokenizerFailed(detail: string) | OversizeMarker | OversizeCharacter

  datatype Piece = Piece(text: string, prepared: Prepared)

  function Prefixed(text: string): string {
    DOCUMENT_EMBEDDING_PREFIX + text
  }

  predicate Fits(prepare: Prepare, limit: nat, text: string) {
    var p := prepare(Prefixed(text));
    p.Ok? && p.value.count <= limit
  }

  // ----- what a split is -----

  /** A position at which `stream` may be cut. */
  ghost predicate IsBoundary(g: Grammar, stream: string, cut: nat)
    requires TypedMarkers.Lawful(g)
  {
    1 <= cut <= |stream| && SafeCut(MarkerSpans(g, stream), cut)
  }

  /** `body` is the piece taken off the front of `stream`. */
  ghost predicate IsStep(g: Grammar, fits: string -> bool, heading: string, stream: string, body: string)
    requires TypedMarkers.Lawful(g)
  {
    && body <= stream
    && IsBoundary(g, stream, |body|)
    && fits(heading + body)
    && (fits(heading + stream) ==> body == stream)
    // the piece cannot be extended to the next boundary
    && (forall cut :: |body| < cut && IsBoundary(g, stream, cut)
         && (forall between :: |body| < between < cut ==> !IsBoundary(g, stream, between))
         ==> !fits(heading + stream[..cut]))
  }

  /** Taking `bodies` off the front of `stream`, one step each, leaves `rest`. */
  ghost predicate Splits(g: Grammar, fits: string -> bool, heading: string, stream: string, bodies: seq<string>, rest: string)
    requires TypedMarkers.Lawful(g)
    decreases |bodies|
  {
    if bodies == [] then stream == rest
    else
      && bodies[0] <= stream
      && IsStep(g, fits, heading, stream, bodies[0])
      && Splits(g, fits, heading, stream[|bodies[0]|..], bodies[1..], rest)
  }

  lemma {:induction false} SplitsSnoc(g: Grammar, fits: string -> bool, heading: string, stream: string,
                                      bodies: seq<string>, rest: string, body: string)
    requires TypedMarkers.Lawful(g) && Splits(g, fits, heading, stream, bodies, rest)
    requires body <= rest && IsStep(g, fits, heading, rest, body)
    ensures Splits(g, fits, heading, stream, bodies + [body], rest[|body|..])
    decreases |bodies|
  {
    hide IsStep;
    if bodies != [] {
      SplitsSnoc(g, fits, heading, stream[|bodies[0]|..], bodies[1..], rest, body);
      assert (bodies + [body])[1..] == bodies[1..] + [body];
    }
  }

  /** Nothing is lost and nothing is added. */
  lemma {:induction false} SplitIsLossless(g: Grammar, fits: string -> bool, heading: string, stream: string,
                                           bodies: seq<string>, rest: string)
    requires TypedMarkers.Lawful(g) && Splits(g, fits, heading, stream, bodies, rest)
    ensures Flatten(bodies) + rest == stream
    decreases |bodies|
  {
    hide IsStep;
    if bodies != [] {
      var body := bodies[0];
      var tail := stream[|body|..];
      SplitIsLossless(g, fits, heading, tail, bodies[1..], rest);
      AppendAssoc(body, Flatten(bodies[1..]), rest);
      assert stream == body + tail;
    }
  }

  /** `span` of the stream lies wholly in `bodies[i]`, which starts at offset `|Flatten(bodies[..i])|`. */
  ghost predicate WholeIn(stream: string, span: Span, bodies: seq<string>, i: nat)
    requires i < |bodies| && span.start <= span.end <= |stream|
  {
    var offset := |Flatten(bodies[..i])|;
    && offset <= span.start
    && span.end <= offset + |bodies[i]|
    && bodies[i][span.start - offset..span.end - offset] == stream[span.start..span.end]
  }

  lemma WholeInFirst(stream: string, span: Span, bodies: seq<string>)
    requires bodies != [] && bodies[0] <= stream
    requires span.start <= span.end <= |bodies[0]|
    ensures WholeIn(stream, span, bodies, 0)
  {
    assert bodies[..0] == [];
  }

  lemma StepCutsSafely(g: Grammar, fits: string -> bool, heading: string, stream: string, body: string)
    requires TypedMarkers.Lawful(g) && IsStep(g, fits, heading, stream, body)
    ensures 1 <= |body| <= |stream| && SafeCut(MarkerSpans(g, stream), |body|)
  {
  }

  lemma WholeInTail(stream: string, span: Span, bodies: seq<string>, i: nat)
    requires 0 < i < |bodies| && span.start <= span.end <= |stream|
    requires bodies[0] <= stream && |bodies[0]| <= span.start
    requires WholeIn(stream[|bodies[0]|..], Span(span.start - |bodies[0]|, span.end - |bodies[0]|), bodies[1..], i - 1)
    ensures WholeIn(stream, span, bodies, i)
  {
    assert bodies[..i][1..] == bodies[1..][..i - 1];
    assert bodies[..i][0] == bodies[0];
    assert stream[|bodies[0]|..][span.start - |bodies[0]|..span.end - |bodies[0]|] == stream[span.start..span.end];
  }

  /**
    Marker atomicity: every typed marker that the scanner protects in the stream ends up wholly
    inside one piece, although the spans are recomputed from scratch on every suffix.
   */
  lemma {:induction false} MarkersStayWhole(g: Grammar, fits: string -> bool, heading: string, stream: string,
                                            bodies: seq<string>, span: Span)
    returns (i: nat)
    requires TypedMarkers.Lawful(g) && Splits(g, fits, heading, stream, bodies, "")
    requires span in MarkerSpans(g, stream)
    ensures i < |bodies| && WholeIn(stream, span, bodies, i)
    decreases |bodies|
  {
    hide IsStep, MarkerSpans, WholeIn;
    var body := bodies[0];
    StepCutsSafely(g, fits, heading, stream, body);
    if span.end <= |body| {
      WholeInFirst(stream, span, bodies);
      return 0;
    }
    assert !Inside(span, |body|);
    MarkersResynchronise(g, stream, |body|, span);
    i := MarkersStayWhole(g, fits, heading, stream[|body|..], bodies[1..],
                          Span(span.start - |body|, span.end - |body|));
    i := i + 1;
    WholeInTail(stream, span, bodies, i);
  }

  // ----- the splitting loop -----

  /** Whether a protected marker opens `rest`. */
  ghost predicate MarkerFirst(g: Grammar, rest: string)
    requires TypedMarkers.Lawful(g)
  {
    var spans := MarkerSpans(g, rest);
    spans != [] && spans[0].start == 0
  }

  /** The shortest piece that can be taken off `rest`: its leading marker, or one character. */
  ghost function FirstAtom(g: Grammar, rest: string): nat
    requires TypedMarkers.Lawful(g)
  {
    if MarkerFirst(g, rest) then MarkerSpans(g, rest)[0].end else 1
  }

  lemma FirstAtomIsFirstBoundary(g: Grammar, rest: string)
    requires TypedMarkers.Lawful(g) && rest != ""
    ensures IsBoundary(g, rest, FirstAtom(g, rest))
    ensures forall cut :: IsBoundary(g, rest, cut) ==> FirstAtom(g, rest) <= cut
  {
    hide MarkerSpans;
    var spans := MarkerSpans(g, rest);
    if MarkerFirst(g, rest) {
      assert spans[0] in spans;
      forall cut | IsBoundary(g, rest, cut)
        ensures spans[0].end <= cut
      {
        assert !Inside(spans[0], cut);
      }
    } else {
      forall span | span in spans
        ensures !Inside(span, 1)
      {
        var i :| 0 <= i < |spans| && spans[i] == span;
        assert spans[0].start <= spans[i].start;
      }
    }
  }

  /** Somewhere in the stream the shortest piece, with the heading in front, is over the limit. */
  ghost predicate AtomOverLimit(g: Grammar, fits: string -> bool, heading: string, stream: string, marker: bool)
    requires TypedMarkers.Lawful(g)
  {
    exists cut ::
      && 0 <= cut < |stream|
      && MarkerFirst(g, stream[cut..]) == marker
      && FirstAtom(g, stream[cut..]) <= |stream| - cut
      && !fits(heading + stream[cut..][..FirstAtom(g, stream[cut..])])
  }

  ghost function FitsWithin(prepare: Prepare, limit: nat): string -> bool {
    (text: string) => Fits(prepare, limit, text)
  }

  /** Each piece is a heading with its body, with the count of exactly that text, within the limit. */
  ghost predicate ArePieces(prepare: Prepare, limit: nat, heading: string, bodies: seq<string>, pieces: seq<Piece>) {
    && |pieces| == |bodies|
    && forall i :: 0 <= i < |pieces| ==>
         && pieces[i].text == heading + bodies[i]
         && prepare(Prefixed(pieces[i].text)) == Ok(pieces[i].prepared)
         && pieces[i].prepared.count <= limit
  }

  lemma PiecesSnoc(prepare: Prepare, limit: nat, heading: string, bodies: seq<string>, pieces: seq<Piece>, body: string,
                   prepared: Prepared)
    requires ArePieces(prepare, limit, heading, bodies, pieces)
    requires prepare(Prefixed(heading + body)) == Ok(prepared) && prepared.count <= limit
    ensures ArePieces(prepare, limit, heading, bodies + [body], pieces + [Piece(heading + body, prepared)])
  {
  }

  lemma BoundariesInRange(boundaries: seq<nat>, spans: seq<Span>, length: nat)
    requires AreSafeBoundaries(boundaries, spans, length)
    ensures forall i :: 0 <= i < |boundaries| ==> 1 <= boundaries[i] <= length
  {
    assert forall i :: 0 <= i < |boundaries| ==> boundaries[i] in boundaries;
  }

  lemma SplitsNothing(g: Grammar, prepare: Prepare, limit: nat, heading: string, stream: string)
    requires TypedMarkers.Lawful(g)
    ensures Splits(g, FitsWithin(prepare, limit), heading, stream, [], stream)
    ensures ArePieces(prepare, limit, heading, [], [])
  {
  }

  /** Binary search: the piece ends at `boundaries[low - 1]` fits, the next longer one does not. */
  method LongestFit(prepare: Prepare, limit: nat, heading: string, remaining: string, boundaries: seq<nat>)
    returns (r: Result<nat, string>)
    requires forall i :: 0 <= i < |boundaries| ==> boundaries[i] <= |remaining|
    ensures r.Err? ==> exists text :: prepare(text) == Err(r.error)
    ensures r.Ok? ==>
              && r.value <= |boundaries|
              && (r.value > 0 ==> Fits(prepare, limit, heading + remaining[..boundaries[r.value - 1]]))
              && (r.value < |boundaries| ==> !Fits(prepare, limit, heading + remaining[..boundaries[r.value]]))
  {
    var low, high := 0, |boundaries|;
    while low < high
      invariant 0 <= low <= high <= |boundaries|
      invariant low > 0 ==> Fits(prepare, limit, heading + remaining[..boundaries[low - 1]])
      invariant high < |boundaries| ==> !Fits(prepare, limit, heading + remaining[..boundaries[high]])
    {
      var mid := low + (high - low) / 2;
      var p := prepare(Prefixed(heading + remaining[..boundaries[mid]]));
      if p.Err? {
        return Err(p.error);
      }
      if p.value.count <= limit {
        low := mid + 1;
      } else {
        high := mid;
      }
    }
    return Ok(low);
  }

  lemma WholeIsStep(g: Grammar, fits: string -> bool, heading: string, stream: string)
    requires TypedMarkers.Lawful(g) && stream != "" && fits(heading + stream)
    ensures IsStep(g, fits, heading, stream, stream)
  {
    hide MarkerSpans;
  }

  /** The piece that the binary search chooses is a step of the split. */
  lemma ChosenIsStep(g: Grammar, fits: string -> bool, heading: string, stream: string, boundaries: seq<nat>, low: nat)
    requires TypedMarkers.Lawful(g) && !fits(heading + stream)
    requires AreSafeBoundaries(boundaries, MarkerSpans(g, stream), |stream|)
    requires forall i :: 0 <= i < |boundaries| ==> boundaries[i] <= |stream|
    requires 0 < low <= |boundaries|
    requires fits(heading + stream[..boundaries[low - 1]])
    requires low < |boundaries| ==> !fits(heading + stream[..boundaries[low]])
    ensures IsStep(g, fits, heading, stream, stream[..boundaries[low - 1]])
  {
    hide MarkerSpans;
    var last := boundaries[low - 1];
    assert last in boundaries;
    forall cut | last < cut && IsBoundary(g, stream, cut)
                 && (forall between :: last < between < cut ==> !IsBoundary(g, stream, between))
      ensures !fits(heading + stream[..cut])
    {
      assert cut in boundaries;
      var i :| 0 <= i < |boundaries| && boundaries[i] == cut;
      assert low <= i;
      assert boundaries[low] in boundaries;
      assert IsBoundary(g, stream, boundaries[low]);
    }
  }

  lemma FirstBoundaryOverLimit(g: Grammar, fits: string -> bool, heading: string, stream: string, cut: nat,
                               boundaries: seq<nat>)
    requires TypedMarkers.Lawful(g) && cut < |stream|
    requires AreSafeBoundaries(boundaries, MarkerSpans(g, stream[cut..]), |stream| - cut)
    requires boundaries != [] && boundaries[0] <= |stream| - cut
    requires !fits(heading + stream[cut..][..boundaries[0]])
    ensures AtomOverLimit(g, fits, heading, stream, MarkerFirst(g, stream[cut..]))
  {
    hide MarkerSpans;
    var rest := stream[cut..];
    FirstAtomIsFirstBoundary(g, rest);
    var atom := FirstAtom(g, rest);
    assert atom in boundaries;
    assert boundaries[0] in boundaries;
    assert IsBoundary(g, rest, boundaries[0]);
    assert atom == boundaries[0];
  }

  /**
    The splitting loop over one stream. It terminates on every stream and for every token counter;
    when it succeeds the pieces are an exact split, and it fails only because the counter fails or
    because some shortest piece does not fit beside the heading.
   */
  method SplitStream(g: Grammar, prepare: Prepare, limit: nat, heading: string, stream: string)
    returns (r: Result<seq<Piece>, SplitError>, ghost bodies: seq<string>)
    requires TypedMarkers.Lawful(g)
    ensures r.Ok? ==>
              && Splits(g, FitsWithin(prepare, limit), heading, stream, bodies, "")
              && ArePieces(prepare, limit, heading, bodies, r.value)
    ensures r.Err? && r.error.TokenizerFailed? ==> exists text :: prepare(text) == Err(r.error.detail)
    ensures r.Err? && !r.error.TokenizerFailed? ==>
              AtomOverLimit(g, FitsWithin(prepare, limit), heading, stream, r.error.OversizeMarker?)
  {
    hide Splits, IsStep, MarkerSpans, AtomOverLimit, FirstAtom, IsBoundary, ArePieces, AreSafeBoundaries;
    ghost var fits := FitsWithin(prepare, limit);
    var pieces: seq<Piece> := [];
    bodies := [];
    var remaining := stream;
    SplitsNothing(g, prepare, limit, heading, stream);
    while remaining != ""
      invariant |remaining| <= |stream| && remaining == stream[|stream| - |remaining|..]
      invariant Splits(g, fits, heading, stream, bodies, remaining)
      invariant ArePieces(prepare, limit, heading, bodies, pieces)
      decreases |remaining|
    {
      var whole := prepare(Prefixed(heading + remaining));
      if whole.Err? {
        return Err(TokenizerFailed(whole.error)), bodies;
      }
      if whole.value.count <= limit {
        WholeIsStep(g, fits, heading, remaining);
        assert remaining[|remaining|..] == "";
        SplitsSnoc(g, fits, heading, stream, bodies, remaining, remaining);
        PiecesSnoc(prepare, limit, heading, bodies, pieces, remaining, whole.value);
        pieces := pieces + [Piece(heading + remaining, whole.value)];
        bodies := bodies + [remaining];
        remaining := "";
        break;
      }
      var spans := TypedMarkerSpans(g, remaining);
      var boundaries := SafeSplitBoundaries(spans, |remaining|);
      BoundariesInRange(boundaries, spans, |remaining|);
      var search := LongestFit(prepare, limit, heading, remaining, boundaries);
      if search.Err? {
        return Err(TokenizerFailed(search.error)), bodies;
      }
      var low := search.value;
      if low == 0 {
        FirstBoundaryOverLimit(g, fits, heading, stream, |stream| - |remaining|, boundaries);
        if spans != [] && spans[0].start == 0 {
          return Err(OversizeMarker), bodies;
        }
        return Err(OversizeCharacter), bodies;
      }
      var split := boundaries[low - 1];
      ChosenIsStep(g, fits, heading, remaining, boundaries, low);
      SplitsSnoc(g, fits, heading, stream, bodies, remaining, remaining[..split]);
      var piece := prepare(Prefixed(heading + remaining[..split]));
      PiecesSnoc(prepare, limit, heading, bodies, pieces, remaining[..split], piece.value);
      pieces := pieces + [Piece(heading + remaining[..split], piece.value)];
      bodies := bodies + [remaining[..split]];
      remaining := remaining[split..];
    }
    return Ok(pieces), bodies;
  }

  // ----- the pass over all chunks -----

  /** The heading that every piece of `chunk` repeats; empty when none is repeated. */
  function RepeatedHeading(chunk: Chunk, repeats: bool): string {
    if repeats && chunk.headingContext.Some? then chunk.headingContext.value + PARAGRAPH_BREAK else ""
  }

  /** The heading is worth repeating: the first character and every marker of the body fit beside it. */
  ghost predicate HeadingRepeats(g: Grammar, fits: string -> bool, chunk: Chunk)
    requires TypedMarkers.Lawful(g)
  {
    var heading := RepeatedHeading(chunk, true);
    && chunk.headingContext.Some?
    && heading < chunk.text
    && var body := chunk.text[|heading|..];
       && fits(heading + body[..1])
       && forall span :: span in MarkerSpans(g, body) ==> fits(heading + body[span.start..span.end])
  }

  ghost predicate MarkerFits(prepare: Prepare, limit: nat, heading: string, body: string, span: Span)
    requires span.start <= span.end <= |body|
  {
    Fits(prepare, limit, heading + body[span.start..span.end])
  }

  lemma NothingBelow(g: Grammar, fits: string -> bool, chunk: Chunk)
    requires TypedMarkers.Lawful(g)
    requires chunk.headingContext.None? || chunk.text <= RepeatedHeading(chunk, true)
    ensures !HeadingRepeats(g, fits, chunk)
  {
    hide MarkerSpans;
  }

  lemma Measured(prepare: Prepare, limit: nat, text: string)
    requires prepare(Prefixed(text)).Ok?
    ensures Fits(prepare, limit, text) <==> prepare(Prefixed(text)).value.count <= limit
  {
  }

  lemma MarkerMeasured(prepare: Prepare, limit: nat, heading: string, body: string, span: Span)
    requires span.start <= span.end <= |body|
    ensures MarkerFits(prepare, limit, heading, body, span) == Fits(prepare, limit, heading + body[span.start..span.end])
  {
  }

  /** The answer from what the loop over the markers of the body finds. */
  lemma MarkersDecide(g: Grammar, prepare: Prepare, limit: nat, chunk: Chunk, heading: string, body: string,
                      markersFit: bool)
    requires TypedMarkers.Lawful(g) && chunk.headingContext.Some?
    requires heading == RepeatedHeading(chunk, true) && chunk.text == heading + body && body != ""
    requires markersFit <==> forall span <- MarkerSpans(g, body) :: MarkerFits(prepare, limit, heading, body, span)
    ensures HeadingRepeats(g, FitsWithin(prepare, limit), chunk)
            <==> Fits(prepare, limit, heading + body[..1]) && markersFit
  {
    hide MarkerSpans, Fits, RepeatedHeading;
    assert chunk.text[|heading|..] == body;
    var fits := FitsWithin(prepare, limit);
    assert forall span <- MarkerSpans(g, body) ::
        fits(heading + body[span.start..span.end]) == MarkerFits(prepare, limit, heading, body, span);
  }

  method ShouldRepeatHeading(g: Grammar, prepare: Prepare, limit: nat, chunk: Chunk) returns (r: Result<bool, SplitError>)
    requires TypedMarkers.Lawful(g)
    requires ContextOpensText(chunk.headingContext, chunk.text)
    ensures r.Ok? ==> r.value == HeadingRepeats(g, FitsWithin(prepare, limit), chunk)
    ensures r.Err? ==> r.error.TokenizerFailed? && exists text :: prepare(text) == Err(r.error.detail)
  {
    hide MarkerSpans, Prefixed, HeadingRepeats, Fits, MarkerFits, FitsWithin;
    if chunk.headingContext.None? {
      NothingBelow(g, FitsWithin(prepare, limit), chunk);
      return Ok(false);
    }
    var heading := RepeatedHeading(chunk, true);
    var body := chunk.text[|heading|..];
    if body == "" {
      NothingBelow(g, FitsWithin(prepare, limit), chunk);
      return Ok(false);
    }
    var first := prepare(Prefixed(heading + body[..1]));
    if first.Err? {
      return Err(TokenizerFailed(first.error));
    }
    var markersFit := true;
    var spans := TypedMarkerSpans(g, body);
    var i := 0;
    while i < |spans| && markersFit
      invariant 0 <= i <= |spans|
      invariant markersFit ==> forall k :: 0 <= k < i ==> MarkerFits(prepare, limit, heading, body, spans[k])
      invariant !markersFit ==> exists k :: 0 <= k < |spans| && !MarkerFits(prepare, limit, heading, body, spans[k])
      decreases |spans| - i, markersFit
    {
      var marker := prepare(Prefixed(heading + body[spans[i].start..spans[i].end]));
      if marker.Err? {
        return Err(TokenizerFailed(marker.error));
      }
      Measured(prepare, limit, heading + body[spans[i].start..spans[i].end]);
      MarkerMeasured(prepare, limit, heading, body, spans[i]);
      if marker.value.count > limit {
        markersFit := false;
      } else {
        i := i + 1;
      }
    }
    Measured(prepare, limit, heading + body[..1]);
    MarkersDecide(g, prepare, limit, chunk, heading, body, markersFit);
    return Ok(first.value.count <= limit && markersFit);
  }

  /** The heading that the pass sets in front of every piece of `chunk`. */
  ghost function GroupHeading(g: Grammar, prepare: Prepare, limit: nat, chunk: Chunk): string
    requires TypedMarkers.Lawful(g)
  {
    if Fits(prepare, limit, chunk.text) then ""
    else RepeatedHeading(chunk, HeadingRepeats(g, FitsWithin(prepare, limit), chunk))
  }

  function PieceChunk(chunk: Chunk, piece: Piece, index: nat, ord: int, repeats: bool): Chunk {
    Chunk(ord, chunk.anchor, piece.text, if index == 0 then chunk.definitionText else None,
          piece.prepared.count, piece.prepared.ids, if repeats then chunk.headingContext else None)
  }

  /** `group` is what the pass makes of `chunk`; `bodies` are its texts without a repeated heading. */
  ghost predicate IsGroupOf(g: Grammar, prepare: Prepare, limit: nat, chunk: Chunk, group: seq<Chunk>, bodies: seq<string>)
    requires TypedMarkers.Lawful(g)
  {
    if Fits(prepare, limit, chunk.text) then
      var p := prepare(Prefixed(chunk.text)).value;
      group == [chunk.(tokenCount := p.count, tokenIds := p.ids)] && bodies == [chunk.text]
    else
      var heading := GroupHeading(g, prepare, limit, chunk);
      && heading <= chunk.text
      && Splits(g, FitsWithin(prepare, limit), heading, chunk.text[|heading|..], bodies, "")
      && IsRelabelled(prepare, limit, chunk, heading, HeadingRepeats(g, FitsWithin(prepare, limit), chunk), group, bodies)
  }

  ghost predicate IsRelabelled(prepare: Prepare, limit: nat, chunk: Chunk, heading: string, repeats: bool,
                               group: seq<Chunk>, bodies: seq<string>)
  {
    && |group| == |bodies|
    && forall i :: 0 <= i < |group| ==>
         var prepared := Prepared(group[i].tokenCount, group[i].tokenIds);
         && prepare(Prefixed(heading + bodies[i])) == Ok(prepared)
         && prepared.count <= limit
         && group[i] == PieceChunk(chunk, Piece(heading + bodies[i], prepared), i, group[i].ord, repeats)
  }

  /**
    The labels of a group: every piece has the anchor of the chunk, the first one its definition text,
    and all or none its heading context, which then opens each text. A chunk that fits keeps its labels.
   */
  lemma GroupLabels(g: Grammar, prepare: Prepare, limit: nat, chunk: Chunk, group: seq<Chunk>, bodies: seq<string>, i: nat)
    requires TypedMarkers.Lawful(g) && IsGroupOf(g, prepare, limit, chunk, group, bodies) && i < |group|
    ensures group[i].anchor == chunk.anchor
    ensures group[i].definitionText == if i == 0 then chunk.definitionText else None
    ensures group[i].headingContext ==
            if Fits(prepare, limit, chunk.text) || HeadingRepeats(g, FitsWithin(prepare, limit), chunk) then chunk.headingContext else None
    ensures ContextOpensText(chunk.headingContext, chunk.text) ==> ContextOpensText(group[i].headingContext, group[i].text)
  {
    hide Splits, HeadingRepeats;
  }

  /** Why a chunk is refused: the counter fails, or a shortest piece of its stream does not fit beside its heading. */
  ghost predicate Refused(g: Grammar, prepare: Prepare, limit: nat, chunk: Chunk, error: SplitError)
    requires TypedMarkers.Lawful(g)
  {
    match error
    case TokenizerFailed(detail) => exists text :: prepare(text) == Err(detail)
    case _ =>
      var heading := GroupHeading(g, prepare, limit, chunk);
      && !Fits(prepare, limit, chunk.text) && heading <= chunk.text
      && AtomOverLimit(g, FitsWithin(prepare, limit), heading, chunk.text[|heading|..], error.OversizeMarker?)
  }

  lemma CounterRefuses(g: Grammar, prepare: Prepare, limit: nat, chunk: Chunk, text: string)
    requires TypedMarkers.Lawful(g) && prepare(text).Err?
    ensures Refused(g, prepare, limit, chunk, TokenizerFailed(prepare(text).error))
  {
  }

  lemma StreamRefuses(g: Grammar, prepare: Prepare, limit: nat, chunk: Chunk, repeats: bool, error: SplitError)
    requires TypedMarkers.Lawful(g) && !Fits(prepare, limit, chunk.text)
    requires repeats == HeadingRepeats(g, FitsWithin(prepare, limit), chunk) && RepeatedHeading(chunk, repeats) <= chunk.text
    requires error.TokenizerFailed? ==> exists text :: prepare(text) == Err(error.detail)
    requires !error.TokenizerFailed? ==>
               AtomOverLimit(g, FitsWithin(prepare, limit), RepeatedHeading(chunk, repeats),
                             chunk.text[|RepeatedHeading(chunk, repeats)|..], error.OversizeMarker?)
    ensures Refused(g, prepare, limit, chunk, error)
  {
    hide AtomOverLimit, HeadingRepeats, RepeatedHeading;
  }

  method EnforceChunk(g: Grammar, prepare: Prepare, limit: nat, chunk: Chunk, firstOrd: int)
    returns (r: Result<seq<Chunk>, SplitError>, ghost bodies: seq<string>)
    requires TypedMarkers.Lawful(g)
    requires Fits(prepare, limit, chunk.text) || ContextOpensText(chunk.headingContext, chunk.text)
    ensures r.Ok? ==> IsGroupOf(g, prepare, limit, chunk, r.value, bodies)
    ensures r.Err? ==> Refused(g, prepare, limit, chunk, r.error)
  {
    hide Splits, MarkerSpans, HeadingRepeats, IsGroupOf, RepeatedHeading, ArePieces, IsRelabelled, AtomOverLimit, Refused;
    var whole := prepare(Prefixed(chunk.text));
    if whole.Err? {
      CounterRefuses(g, prepare, limit, chunk, Prefixed(chunk.text));
      return Err(TokenizerFailed(whole.error)), [];
    }
    if whole.value.count <= limit {
      WholeIsGroup(g, prepare, limit, chunk);
      return Ok([chunk.(tokenCount := whole.value.count, tokenIds := whole.value.ids)]), [chunk.text];
    }
    var repeatsResult := ShouldRepeatHeading(g, prepare, limit, chunk);
    if repeatsResult.Err? {
      ghost var text :| prepare(text) == Err(repeatsResult.error.detail);
      CounterRefuses(g, prepare, limit, chunk, text);
      return Err(repeatsResult.error), [];
    }
    var repeats := repeatsResult.value;
    var heading := RepeatedHeading(chunk, repeats);
    HeadingOpens(chunk, repeats);
    var split;
    split, bodies := SplitStream(g, prepare, limit, heading, chunk.text[|heading|..]);
    if split.Err? {
      StreamRefuses(g, prepare, limit, chunk, repeats, split.error);
      return Err(split.error), bodies;
    }
    var pieces := split.value;
    var group: seq<Chunk> := [];
    for i := 0 to |pieces|
      invariant |group| == i
      invariant forall k :: 0 <= k < i ==> group[k] == PieceChunk(chunk, pieces[k], k, firstOrd + k, repeats)
    {
      group := group + [PieceChunk(chunk, pieces[i], i, firstOrd + i, repeats)];
    }
    PiecesAreGroup(g, prepare, limit, chunk, heading, bodies, pieces, group, firstOrd, repeats);
    return Ok(group), bodies;
  }

  lemma WholeIsGroup(g: Grammar, prepare: Prepare, limit: nat, chunk: Chunk)
    requires TypedMarkers.Lawful(g) && Fits(prepare, limit, chunk.text)
    ensures var p := prepare(Prefixed(chunk.text)).value;
            IsGroupOf(g, prepare, limit, chunk, [chunk.(tokenCount := p.count, tokenIds := p.ids)], [chunk.text])
  {
    hide Splits, HeadingRepeats;
  }

  lemma HeadingOpens(chunk: Chunk, repeats: bool)
    requires ContextOpensText(chunk.headingContext, chunk.text)
    ensures RepeatedHeading(chunk, repeats) <= chunk.text
  {
  }

  lemma PiecesAreGroup(g: Grammar, prepare: Prepare, limit: nat, chunk: Chunk, heading: string, bodies: seq<string>,
                       pieces: seq<Piece>, group: seq<Chunk>, firstOrd: int, repeats: bool)
    requires TypedMarkers.Lawful(g) && !Fits(prepare, limit, chunk.text)
    requires repeats == HeadingRepeats(g, FitsWithin(prepare, limit), chunk) && heading == RepeatedHeading(chunk, repeats)
    requires heading <= chunk.text && Splits(g, FitsWithin(prepare, limit), heading, chunk.text[|heading|..], bodies, "")
    requires ArePieces(prepare, limit, heading, bodies, pieces) && |group| == |pieces|
    requires forall k :: 0 <= k < |group| ==> group[k] == PieceChunk(chunk, pieces[k], k, firstOrd + k, repeats)
    ensures IsGroupOf(g, prepare, limit, chunk, group, bodies)
  {
    hide Splits, HeadingRepeats, RepeatedHeading;
    assert IsRelabelled(prepare, limit, chunk, heading, repeats, group, bodies);
  }

  /** The stored count and ids are those of the stored text, and within the limit. */
  ghost predicate Counted(prepare: Prepare, limit: nat, chunk: Chunk) {
    && prepare(Prefixed(chunk.text)) == Ok(Prepared(chunk.tokenCount, chunk.tokenIds))
    && chunk.tokenCount <= limit
  }

  lemma {:induction false} FlattenCounted(prepare: Prepare, limit: nat, groups: seq<seq<Chunk>>, n: nat)
    requires forall i, j :: 0 <= i < |groups| && 0 <= j < |groups[i]| ==> Counted(prepare, limit, groups[i][j])
    requires n < |Flatten(groups)|
    ensures Counted(prepare, limit, Flatten(groups)[n])
    decreases |groups|
  {
    hide Counted;
    if n >= |groups[0]| {
      assert forall i, j :: 0 <= i < |groups[1..]| && 0 <= j < |groups[1..][i]| ==> groups[1..][i][j] == groups[i + 1][j];
      FlattenCounted(prepare, limit, groups[1..], n - |groups[0]|);
    }
  }

  lemma GroupIsCounted(g: Grammar, prepare: Prepare, limit: nat, chunk: Chunk, group: seq<Chunk>, bodies: seq<string>)
    requires TypedMarkers.Lawful(g) && IsGroupOf(g, prepare, limit, chunk, group, bodies)
    ensures |group| == |bodies| && forall j :: 0 <= j < |group| ==> Counted(prepare, limit, group[j])
  {
    hide IsGroupOf, GroupHeading;
    GroupSize(g, prepare, limit, chunk, group, bodies);
    forall j | 0 <= j < |group| ensures Counted(prepare, limit, group[j]) {
      GroupWithinLimit(g, prepare, limit, chunk, group, bodies, j);
    }
  }

  lemma GroupSize(g: Grammar, prepare: Prepare, limit: nat, chunk: Chunk, group: seq<Chunk>, bodies: seq<string>)
    requires TypedMarkers.Lawful(g) && IsGroupOf(g, prepare, limit, chunk, group, bodies)
    ensures |group| == |bodies|
  {
    hide Splits, HeadingRepeats, RepeatedHeading, GroupHeading;
  }

  lemma SameCount(prepare: Prepare, limit: nat, chunk: Chunk, ord: int)
    ensures Counted(prepare, limit, chunk.(ord := ord)) <==> Counted(prepare, limit, chunk)
  {
  }

  /**
    The whole pass. Its output is one group per chunk, in order, renumbered from 0; every group is
    an exact split of its chunk.
   */
  method EnforceFinalTokenLimit(g: Grammar, prepare: Prepare, limit: nat, chunks: seq<Chunk>)
    returns (r: Result<seq<Chunk>, SplitError>, ghost groups: seq<seq<Chunk>>, ghost bodies: seq<seq<string>>)
    requires TypedMarkers.Lawful(g)
    requires forall i :: 0 <= i < |chunks| ==>
               Fits(prepare, limit, chunks[i].text) || ContextOpensText(chunks[i].headingContext, chunks[i].text)
    ensures r.Ok? ==>
              && |groups| == |bodies| == |chunks|
              && (forall i :: 0 <= i < |chunks| ==> IsGroupOf(g, prepare, limit, chunks[i], groups[i], bodies[i]))
              && |r.value| == |Flatten(groups)|
              && (forall i :: 0 <= i < |r.value| ==> r.value[i] == Flatten(groups)[i].(ord := i))
    ensures r.Ok? ==> forall i :: 0 <= i < |r.value| ==> r.value[i].ord == i && Counted(prepare, limit, r.value[i])
    ensures r.Err? ==> exists i :: 0 <= i < |chunks| && Refused(g, prepare, limit, chunks[i], r.error)
  {
    hide IsGroupOf, Counted, Refused, TypedMarkers.Lawful, Fits;
    var output: seq<Chunk> := [];
    groups, bodies := [], [];
    for i := 0 to |chunks|
      invariant |groups| == |bodies| == i
      invariant forall k :: 0 <= k < i ==> IsGroupOf(g, prepare, limit, chunks[k], groups[k], bodies[k])
      invariant output == Flatten(groups)
    {
      var group, groupBodies := EnforceChunk(g, prepare, limit, chunks[i], |output|);
      if group.Err? {
        return Err(group.error), groups, bodies;
      }
      FlattenSnoc(groups, group.value);
      output := output + group.value;
      groups := groups + [group.value];
      bodies := bodies + [groupBodies];
    }
    for ord := 0 to |output|
      invariant |output| == |Flatten(groups)|
      invariant forall k :: 0 <= k < ord ==> output[k] == Flatten(groups)[k].(ord := k)
      invariant forall k :: ord <= k < |output| ==> output[k] == Flatten(groups)[k]
    {
      output := output[ord := output[ord].(ord := ord)];
    }
    OutputIsCounted(g, prepare, limit, chunks, groups, bodies, output);
    return Ok(output), groups, bodies;
  }

  lemma OutputIsCounted(g: Grammar, prepare: Prepare, limit: nat, chunks: seq<Chunk>, groups: seq<seq<Chunk>>,
                        bodies: seq<seq<string>>, output: seq<Chunk>)
    requires TypedMarkers.Lawful(g) && |groups| == |bodies| == |chunks| && |output| == |Flatten(groups)|
    requires forall i :: 0 <= i < |chunks| ==> IsGroupOf(g, prepare, limit, chunks[i], groups[i], bodies[i])
    requires forall i :: 0 <= i < |output| ==> output[i] == Flatten(groups)[i].(ord := i)
    ensures forall n :: 0 <= n < |output| ==> Counted(prepare, limit, output[n])
  {
    hide IsGroupOf, Counted, Flatten, TypedMarkers.Lawful;
    forall i, j | 0 <= i < |groups| && 0 <= j < |groups[i]| ensures Counted(prepare, limit, groups[i][j]) {
      GroupIsCounted(g, prepare, limit, chunks[i], groups[i], bodies[i]);
    }
    forall n | 0 <= n < |output| ensures Counted(prepare, limit, output[n]) {
      FlattenCounted(prepare, limit, groups, n);
      SameCount(prepare, limit, Flatten(groups)[n], n);
    }
  }

  /** Every stored text is the repeated heading and a body, its count is exact and within the limit. */
  lemma GroupWithinLimit(g: Grammar, prepare: Prepare, limit: nat, chunk: Chunk, group: seq<Chunk>, bodies: seq<string>, i: nat)
    requires TypedMarkers.Lawful(g) && IsGroupOf(g, prepare, limit, chunk, group, bodies) && i < |group|
    ensures |group| == |bodies| && group[i].text == GroupHeading(g, prepare, limit, chunk) + bodies[i]
    ensures prepare(Prefixed(group[i].text)) == Ok(Prepared(group[i].tokenCount, group[i].tokenIds))
    ensures group[i].tokenCount <= limit
  {
    hide Splits, HeadingRepeats, RepeatedHeading;
  }

  /** Joining the pieces of a chunk, a repeated heading counted once, gives back its text exactly. */
  lemma GroupIsLossless(g: Grammar, prepare: Prepare, limit: nat, chunk: Chunk, group: seq<Chunk>, bodies: seq<string>)
    requires TypedMarkers.Lawful(g) && IsGroupOf(g, prepare, limit, chunk, group, bodies)
    ensures GroupHeading(g, prepare, limit, chunk) + Flatten(bodies) == chunk.text
  {
    if Fits(prepare, limit, chunk.text) {
      assert Flatten(bodies) == chunk.text + Flatten<char>([]);
    } else {
      hide Splits, HeadingRepeats, Flatten, RepeatedHeading, IsRelabelled;
      var heading := GroupHeading(g, prepare, limit, chunk);
      var stream := chunk.text[|heading|..];
      SplitIsLossless(g, FitsWithin(prepare, limit), heading, stream, bodies, "");
      assert Flatten(bodies) == stream;
      assert chunk.text == heading + stream;
    }
  }

  /** Every protected marker of a chunk's split stream is whole inside the text of one output chunk. */
  lemma GroupKeepsMarkersWhole(g: Grammar, prepare: Prepare, limit: nat, chunk: Chunk, group: seq<Chunk>,
                               bodies: seq<string>, span: Span)
    returns (i: nat)
    requires TypedMarkers.Lawful(g) && IsGroupOf(g, prepare, limit, chunk, group, bodies)
    requires !Fits(prepare, limit, chunk.text)
    requires span in MarkerSpans(g, chunk.text[|GroupHeading(g, prepare, limit, chunk)|..])
    ensures i < |group| == |bodies|
    ensures WholeIn(chunk.text[|GroupHeading(g, prepare, limit, chunk)|..], span, bodies, i)
  {
    hide Splits, HeadingRepeats, WholeIn, MarkerSpans, RepeatedHeading;
    var heading := GroupHeading(g, prepare, limit, chunk);
    i := MarkersStayWhole(g, FitsWithin(prepare, limit), heading, chunk.text[|heading|..], bodies, span);
  }
}

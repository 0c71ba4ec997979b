/**
  Scanners that walk a text with one cursor. At position `i` the scanner consumes the characters
  up to `next(i)` and, when `kept(i)` holds, protects them. The regions a scanner consumes may
  contain the beginnings of other regions, but a region that begins inside another one must not
  reach past its end (`Nested`). That alone makes the scanner re-synchronise.
 */
module CursorScan {
  datatype Span = Span(start: nat, end: nat)

  datatype Scanner = Scanner(length: nat, next: nat -> nat, kept: nat -> bool)

  ghost predicate Forward(s: Scanner) {
    forall i: nat :: i < s.length ==> i < s.next(i) <= s.length
  }

  ghost predicate Nested(s: Scanner) {
    forall i: nat, k: nat :: i < k < s.next(i) && i < s.length ==> s.next(k) <= s.next(i)
  }

  /** The spans protected by a scan that starts at `cursor`. */
  ghost function Spans(s: Scanner, cursor: nat): seq<Span>
    requires Forward(s) && cursor <= s.length
    decreases s.length - cursor
  {
    if cursor == s.length then []
    else if s.kept(cursor) then [Span(cursor, s.next(cursor))] + Spans(s, s.next(cursor))
    else Spans(s, s.next(cursor))
  }

  predicate Inside(span: Span, cut: nat) {
    span.start < cut < span.end
  }

  /** A cut that falls strictly inside no span. */
  ghost predicate SafeCut(spans: seq<Span>, cut: nat) {
    forall span :: span in spans ==> !Inside(span, cut)
  }

  ghost predicate Ordered(spans: seq<Span>, low: nat, high: nat) {
    && (forall i :: 0 <= i < |spans| ==> low <= spans[i].start < spans[i].end <= high)
    && (forall i, j :: 0 <= i < j < |spans| ==> spans[i].end <= spans[j].start)
  }

  /** Protected spans are disjoint and come in text order. */
  lemma {:induction false} SpansOrdered(s: Scanner, cursor: nat)
    requires Forward(s) && cursor <= s.length
    ensures Ordered(Spans(s, cursor), cursor, s.length)
    decreases s.length - cursor
  {
    if cursor < s.length {
      SpansOrdered(s, s.next(cursor));
    }
  }

  lemma {:induction false} SpanIsKept(s: Scanner, cursor: nat, span: Span)
    requires Forward(s) && cursor <= s.length && span in Spans(s, cursor)
    ensures s.kept(span.start) && span.end == s.next(span.start) && span.start < s.length
    decreases s.length - cursor
  {
    if span != Span(cursor, s.next(cursor)) || !s.kept(cursor) {
      SpanIsKept(s, s.next(cursor), span);
    }
  }

  /** The positions a scan that starts at `cursor` visits. */
  ghost predicate Visits(s: Scanner, cursor: nat, at: nat)
    requires Forward(s) && cursor <= s.length
    decreases s.length - cursor
  {
    cursor == at || (cursor < s.length && Visits(s, s.next(cursor), at))
  }

  /** A scan that starts inside a consumed region visits the end of that region. */
  lemma {:induction false} VisitsRegionEnd(s: Scanner, region: nat, cut: nat)
    requires Forward(s) && Nested(s) && region < s.length
    requires region < cut <= s.next(region)
    ensures Visits(s, cut, s.next(region))
    decreases s.length - cut
  {
    if cut < s.next(region) {
      VisitsRegionEnd(s, region, s.next(cut));
    }
  }

  /** What is protected from a visited position on is protected by the whole scan. */
  lemma {:induction false} SpansFromVisited(s: Scanner, cursor: nat, at: nat, span: Span)
    requires Forward(s) && cursor <= s.length && at <= s.length
    requires Visits(s, cursor, at) && span in Spans(s, at)
    ensures span in Spans(s, cursor)
    decreases s.length - cursor
  {
    if cursor != at {
      SpansFromVisited(s, s.next(cursor), at, span);
    }
  }

  /** From any safe cut the scanner finds every later span that it finds from an earlier cursor. */
  lemma {:induction false} SpansFromCut(s: Scanner, cursor: nat, cut: nat, span: Span)
    requires Forward(s) && Nested(s) && cursor <= cut <= s.length
    requires SafeCut(Spans(s, cursor), cut)
    requires span in Spans(s, cursor) && cut <= span.start
    ensures span in Spans(s, cut)
    decreases s.length - cursor
  {
    if cursor < cut {
      var end := s.next(cursor);
      if s.kept(cursor) {
        assert Span(cursor, end) in Spans(s, cursor);
        assert !Inside(Span(cursor, end), cut);
      }
      if end <= cut {
        SpansFromCut(s, end, cut, span);
      } else {
        VisitsRegionEnd(s, cursor, cut);
        SpansFromVisited(s, cut, end, span);
      }
    }
  }

  /** `suffix` scans what `s` scans, `origin` positions later. */
  ghost predicate ScansSuffix(suffix: Scanner, s: Scanner, origin: nat) {
    && origin + suffix.length == s.length
    && forall i: nat :: i < suffix.length ==>
         suffix.next(i) + origin == s.next(origin + i) && suffix.kept(i) == s.kept(origin + i)
  }

  lemma {:induction false} SpansOfSuffix(suffix: Scanner, s: Scanner, origin: nat, cursor: nat, span: Span)
    requires Forward(s) && Forward(suffix) && ScansSuffix(suffix, s, origin)
    requires cursor <= suffix.length && origin <= span.start <= span.end
    ensures span in Spans(s, origin + cursor) <==> Span(span.start - origin, span.end - origin) in Spans(suffix, cursor)
    decreases suffix.length - cursor
  {
    if cursor < suffix.length {
      SpansOfSuffix(suffix, s, origin, suffix.next(cursor), span);
    }
  }

  /** A scanner that starts afresh at a safe cut protects every later span of the earlier scan. */
  lemma SpansAfterCut(suffix: Scanner, s: Scanner, cut: nat, span: Span)
    requires Forward(s) && Nested(s) && Forward(suffix) && ScansSuffix(suffix, s, cut)
    requires SafeCut(Spans(s, 0), cut)
    requires span in Spans(s, 0) && cut <= span.start <= span.end
    ensures Span(span.start - cut, span.end - cut) in Spans(suffix, 0)
  {
    SpansFromCut(s, 0, cut, span);
    SpansOfSuffix(suffix, s, cut, 0, span);
  }

  // ----- scanners over a text -----

  /**
    What a scanner finds at the head of a text: the length of the region that opens there, 0 when
    none does, and whether that region is protected.
   */
  datatype Regions = Regions(length: string -> nat, kept: string -> bool)

  /** Regions lie in the text, and a region that opens inside another one does not outlast it. */
  ghost predicate Lawful(r: Regions) {
    && (forall rest :: r.length(rest) <= |rest|)
    && (forall rest :: r.kept(rest) ==> r.length(rest) > 0)
    && (forall rest, k :: 0 < k < r.length(rest) ==> k + r.length(rest[k..]) <= r.length(rest))
  }

  ghost function NextCursor(r: Regions, text: string, i: nat): nat {
    if i < |text| && r.length(text[i..]) > 0 then i + r.length(text[i..]) else i + 1
  }

  ghost predicate KeptCursor(r: Regions, text: string, i: nat) {
    i < |text| && r.kept(text[i..])
  }

  ghost function TextScanner(r: Regions, text: string): Scanner {
    Scanner(|text|, (i: nat) => NextCursor(r, text, i), (i: nat) => KeptCursor(r, text, i))
  }

  lemma SuffixOfSuffix(text: string, cut: nat, i: nat)
    requires cut + i <= |text|
    ensures text[cut..][i..] == text[cut + i..]
  {
  }

  lemma NextNests(r: Regions, text: string, i: nat, k: nat)
    requires Lawful(r)
    requires i < k < NextCursor(r, text, i) && i < |text|
    ensures NextCursor(r, text, k) <= NextCursor(r, text, i)
  {
    SuffixOfSuffix(text, i, k - i);
  }

  lemma TextScannerLawful(r: Regions, text: string)
    requires Lawful(r)
    ensures Forward(TextScanner(r, text)) && Nested(TextScanner(r, text))
  {
    var s := TextScanner(r, text);
    forall i: nat, k: nat | i < k < s.next(i) && i < s.length
      ensures s.next(k) <= s.next(i)
    {
      NextNests(r, text, i, k);
    }
  }

  lemma TextScannerOfSuffix(r: Regions, text: string, cut: nat)
    requires cut <= |text|
    ensures ScansSuffix(TextScanner(r, text[cut..]), TextScanner(r, text), cut)
  {
    var tail := text[cut..];
    forall i: nat | i < |tail|
      ensures NextCursor(r, tail, i) + cut == NextCursor(r, text, cut + i)
      ensures KeptCursor(r, tail, i) == KeptCursor(r, text, cut + i)
    {
      SuffixOfSuffix(text, cut, i);
    }
  }

  /** The spans that a scanner protects in `text`. */
  ghost function ProtectedSpans(r: Regions, text: string): (spans: seq<Span>)
    requires Lawful(r)
    ensures Ordered(spans, 0, |text|)
  {
    TextScannerLawful(r, text);
    SpansOrdered(TextScanner(r, text), 0);
    Spans(TextScanner(r, text), 0)
  }

  /**
    Re-synchronisation: cut the text at any place that is inside no protected span, even one
    inside a region that was consumed without being protected, scan what follows from scratch,
    and every later protected span is found again, at its shifted position.
   */
  lemma Resynchronises(r: Regions, text: string, cut: nat, span: Span)
    requires Lawful(r) && cut <= |text| && SafeCut(ProtectedSpans(r, text), cut)
    requires span in ProtectedSpans(r, text) && cut <= span.start
    ensures Span(span.start - cut, span.end - cut) in ProtectedSpans(r, text[cut..])
  {
    TextScannerLawful(r, text);
    TextScannerLawful(r, text[cut..]);
    TextScannerOfSuffix(r, text, cut);
    SpansAfterCut(TextScanner(r, text[cut..]), TextScanner(r, text), cut, span);
  }

  // ----- the boundaries between which text may be cut -----

  /** Exactly the safe cuts of a text of length `length`, in increasing order, the end included. */
  ghost predicate AreSafeBoundaries(boundaries: seq<nat>, spans: seq<Span>, length: nat) {
    && (forall i, j :: 0 <= i < j < |boundaries| ==> boundaries[i] < boundaries[j])
    && (forall cut :: cut in boundaries <==> 1 <= cut <= length && SafeCut(spans, cut))
  }

  lemma SafeBySpan(spans: seq<Span>, low: nat, high: nat, index: nat, cut: nat)
    requires Ordered(spans, low, high) && index <= |spans|
    requires forall i :: 0 <= i < index ==> spans[i].end <= cut
    requires index < |spans| ==> cut < spans[index].end
    ensures SafeCut(spans, cut) <==> index == |spans| || !Inside(spans[index], cut)
  {
    if index < |spans| {
      assert spans[index] in spans;
    }
  }

  /** One pass over the characters with an index into the protected spans. */
  method SafeSplitBoundaries(spans: seq<Span>, length: nat) returns (boundaries: seq<nat>)
    requires Ordered(spans, 0, length)
    ensures AreSafeBoundaries(boundaries, spans, length)
    ensures length > 0 ==> boundaries != [] && boundaries[|boundaries| - 1] == length
  {
    boundaries := [];
    var index := 0;
    for cut := 1 to length + 1
      invariant index <= |spans|
      invariant forall i :: 0 <= i < index ==> spans[i].end <= cut
      invariant forall i :: 0 <= i < |boundaries| ==> boundaries[i] < cut
      invariant forall i, j :: 0 <= i < j < |boundaries| ==> boundaries[i] < boundaries[j]
      invariant forall b :: b in boundaries <==> 1 <= b < cut && SafeCut(spans, b)
      invariant cut > length > 0 ==> boundaries != [] && boundaries[|boundaries| - 1] == length
    {
      while index < |spans| && spans[index].end <= cut
        invariant index <= |spans|
        invariant forall i :: 0 <= i < index ==> spans[i].end <= cut
      {
        index := index + 1;
      }
      SafeBySpan(spans, 0, length, index, cut);
      if index == |spans| || !Inside(spans[index], cut) {
        boundaries := boundaries + [cut];
      }
    }
  }
}

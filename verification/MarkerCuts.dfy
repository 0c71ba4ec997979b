/**
  Typed markers under the approximate splits. Word windows never cut one. Sentence and row splits
  take no notice of markers and may cut one whose value holds white space.
 */
module MarkerCuts {
  import opened Common
  import opened CursorScan
  import opened TypedMarkers
  import opened Packing
  import Text

  // ----- windows -----

  /** `piece` is `text` from `at` on, and `span` lies in it. */
  ghost predicate HoldsSpan(text: string, span: Span, piece: string, at: nat) {
    && at + |piece| <= |text| && piece == text[at..at + |piece|]
    && at <= span.start && span.end <= at + |piece|
  }

  lemma WindowCutIsSafe(g: Grammar, text: string, candidate: nat, split: nat)
    requires TypedMarkers.Lawful(g) && IsWindowCut(g, text, candidate, split)
    ensures SafeCut(MarkerSpans(g, text), split)
  {
    hide MarkerSpans;
    var spans := MarkerSpans(g, text);
    if !SafeCut(spans, candidate) {
      var span :| span in spans && Inside(span, candidate) && split == if span.start > 0 then span.start else span.end;
      var i :| 0 <= i < |spans| && spans[i] == span;
      SpanEndsAreSafe(spans, 0, |text|, i);
    }
  }

  /** White space after a safe cut may be skipped: what follows is a safe cut as well. */
  lemma SkippingIsSafe(ws: char -> bool, g: Grammar, text: string, split: nat, cut: nat)
    requires Text.Lawful(ws) && TypedMarkers.Lawful(g) && SafeCut(MarkerSpans(g, text), split) && split <= cut <= |text|
    requires forall i :: split <= i < cut ==> ws(text[i])
    ensures SafeCut(MarkerSpans(g, text), cut)
    ensures forall span :: span in MarkerSpans(g, text) && split <= span.start ==> cut <= span.start
  {
    hide MarkerSpans;
    forall span | span in MarkerSpans(g, text)
      ensures !Inside(span, cut) && (split <= span.start ==> cut <= span.start)
    {
      MarkerIsAccepted(g, text, span);
      assert !Inside(span, split);
    }
  }

  /** One window either holds the marker or leaves it whole in the rest. */
  lemma WindowStep(ws: char -> bool, g: Grammar, target: nat, text: string, piece: string, rest: string, span: Span)
    returns (here: bool, cut: nat)
    requires Text.Lawful(ws) && TypedMarkers.Lawful(g) && IsWindow(ws, g, target, text, piece, rest) && span in MarkerSpans(g, text)
    ensures here ==> HoldsSpan(text, span, piece, 0)
    ensures !here ==>
              && cut <= span.start && cut <= |text| && rest == text[cut..]
              && Span(span.start - cut, span.end - cut) in MarkerSpans(g, rest)
  {
    hide MarkerSpans, Text.WordCount, IsWindowCut, IsWordEnd, Text.Lawful, TypedMarkers.Lawful, Text.TrimEnd;
    MarkerIsAccepted(g, text, span);
    cut := 0;
    if Text.WordCount(ws, text) <= target {
      here := true;
      assert text[0..|text|] == text;
    } else {
      var candidate: nat, split: nat :| WindowAt(ws, g, target, text, piece, rest, candidate, split);
      WindowCutIsSafe(g, text, candidate, split);
      assert !Inside(span, split);
      here := span.end <= split;
      if here {
        FrontHolds(ws, text, span, split);
      } else {
        cut := split + Text.LeadingBlanks(ws, text[split..], 0);
        assert rest == text[cut..];
        assert forall k :: split <= k < cut ==> text[k] == text[split..][k - split];
        SkippingIsSafe(ws, g, text, split, cut);
        MarkersResynchronise(g, text, cut, span);
      }
    }
  }

  lemma HoldsInRest(text: string, span: Span, piece: string, cut: nat, at: nat)
    requires cut <= |text| && cut <= span.start <= span.end
    requires HoldsSpan(text[cut..], Span(span.start - cut, span.end - cut), piece, at)
    ensures HoldsSpan(text, span, piece, at + cut)
  {
    assert text[cut..][at..at + |piece|] == text[at + cut..at + cut + |piece|];
  }

  /** Every marker of a text is whole in one window, although markers are sought anew after every window. */
  lemma {:induction false} WindowsKeepMarkers(ws: char -> bool, g: Grammar, target: nat, text: string, pieces: seq<string>, span: Span)
    returns (i: nat, at: nat)
    requires Text.Lawful(ws) && TypedMarkers.Lawful(g) && AreTaken(ws, g, target, text, pieces, "")
    requires span in MarkerSpans(g, text)
    ensures i < |pieces| && HoldsSpan(text, span, pieces[i], at)
    decreases |pieces|
  {
    hide MarkerSpans, IsWindow, Text.Lawful, TypedMarkers.Lawful, HoldsSpan;
    MarkerIsAccepted(g, text, span);
    var rest :| IsWindow(ws, g, target, text, pieces[0], rest) && AreTaken(ws, g, target, rest, pieces[1..], "");
    var here, cut := WindowStep(ws, g, target, text, pieces[0], rest, span);
    if here {
      i, at := 0, 0;
    } else {
      i, at := WindowsKeepMarkers(ws, g, target, rest, pieces[1..], Span(span.start - cut, span.end - cut));
      HoldsInRest(text, span, pieces[1..][i], cut, at);
      i, at := i + 1, at + cut;
    }
  }

  lemma FrontHolds(ws: char -> bool, text: string, span: Span, split: nat)
    requires Text.Lawful(ws) && span.start < span.end <= split <= |text| && text[span.end - 1] == ']'
    ensures HoldsSpan(text, span, Text.TrimEnd(ws, text[..split]), 0)
  {
    var front := text[..split];
    var n := Text.TrailingEnd(ws, front, split);
    assert front[span.end - 1] == ']' && !ws(front[span.end - 1]);
    assert front[..n] == text[0..n];
  }

  // ----- sentences and rows -----

  lemma LeadingFrom(ws: char -> bool, s: string, from: nat, n: nat)
    requires from <= n < |s| && !ws(s[n]) && forall i :: from <= i < n ==> ws(s[i])
    ensures Text.LeadingBlanks(ws, s, from) == n
  {
  }

  /** Whether a sentence ends inside a marker can be read off the marker alone. */
  lemma SentenceEndInMarker(ws: char -> bool, g: Grammar, text: string, span: Span, i: nat)
    requires Text.Lawful(ws) && TypedMarkers.Lawful(g) && span in MarkerSpans(g, text) && span.start <= i < span.end - 1
    ensures span.end <= |text|
    ensures SentenceEnds(ws, text, i) <==> SentenceEnds(ws, text[span.start..span.end], i - span.start)
  {
    hide MarkerSpans;
    MarkerIsAccepted(g, text, span);
    var marker := text[span.start..span.end];
    var j := Text.LeadingBlanks(ws, text, i + 1);
    assert !ws(text[span.end - 1]) && j <= span.end - 1;
    assert forall k :: span.start <= k < span.end ==> marker[k - span.start] == text[k];
    assert forall k :: i + 1 - span.start <= k < j - span.start ==> marker[k] == text[k + span.start];
    LeadingFrom(ws, marker, i + 1 - span.start, j - span.start);
  }

  /** A position of the marker, not its last, at which it would be cut. */
  ghost predicate HasInnerEnd(ends: nat -> bool, marker: string) {
    exists i: nat :: i + 1 < |marker| && ends(i)
  }

  ghost predicate CutsInside(ends: nat -> bool, span: Span) {
    exists i: nat :: span.start <= i && i + 1 < span.end && ends(i)
  }

  /** A sentence or row cut falls inside a marker exactly when the marker's own text would be cut. */
  lemma MarkerIsCutExactly(ws: char -> bool, g: Grammar, text: string, span: Span)
    requires Text.Lawful(ws) && TypedMarkers.Lawful(g) && span in MarkerSpans(g, text)
    ensures span.start <= span.end <= |text|
    ensures CutsInside(SentenceEnd(ws, text), span) <==> HasInnerEnd(SentenceEnd(ws, text[span.start..span.end]), text[span.start..span.end])
    ensures CutsInside(LineEnd(text), span) <==> HasInnerEnd(LineEnd(text[span.start..span.end]), text[span.start..span.end])
  {
    hide MarkerSpans, SentenceEnds, Text.Lawful, TypedMarkers.Lawful;
    MarkerIsAccepted(g, text, span);
    var marker := text[span.start..span.end];
    if i: nat :| span.start <= i && i + 1 < span.end && SentenceEnd(ws, text)(i) {
      SentenceEndInMarker(ws, g, text, span, i);
      assert SentenceEnd(ws, marker)(i - span.start);
    }
    if i: nat :| i + 1 < |marker| && SentenceEnd(ws, marker)(i) {
      SentenceEndInMarker(ws, g, text, span, i + span.start);
      assert SentenceEnd(ws, text)(i + span.start);
    }
    if i: nat :| span.start <= i && i + 1 < span.end && LineEnd(text)(i) {
      assert LineEnd(marker)(i - span.start);
    }
    if i: nat :| i + 1 < |marker| && LineEnd(marker)(i) {
      assert LineEnd(text)(i + span.start);
    }
  }

  /** A marker whose value holds no white space is never cut. */
  lemma SpacelessIsNeverCut(ws: char -> bool, rules: MarkerRules, marker: string)
    requires Text.Lawful(ws) && AcceptsRegion(rules, marker) && marker[|marker| - 1] == ']'
    requires forall i :: |Prefix(Opening(marker).value)| <= i < |marker| ==> !ws(marker[i])
    ensures !HasInnerEnd(SentenceEnd(ws, marker), marker) && !HasInnerEnd(LineEnd(marker), marker)
  {
    hide ValidValue;
    var prefix := Prefix(Opening(marker).value);
    PlainPrefix(Opening(marker).value);
    assert forall i :: 0 <= i < |prefix| ==> marker[i] == prefix[i];
    forall i: nat | i + 1 < |marker| ensures !SentenceEnd(ws, marker)(i) && !LineEnd(marker)(i) {
      if i >= |prefix| {
        LeadingFrom(ws, marker, i + 1, i + 1);
      } else {
        assert marker[i] in prefix;
      }
    }
  }

  lemma PlainPrefix(kind: Kind)
    ensures forall c :: c in Prefix(kind) ==> c != '.' && c != '!' && c != '?' && c != '\n'
  {
  }

  /** A document reference with a text that ends a sentence. */
  function CitedMarker(id: string): string {
    "[doc:" + id + " v. A]"
  }

  /** For any document id such a reference is protected, and a sentence split cuts it. */
  lemma DocMarkerIsCut(ws: char -> bool, rules: MarkerRules, id: string)
    requires Text.Lawful(ws) && !ws('A') && rules.whitespace(' ') && rules.document(id) && ByteLen(id) <= 500
    requires forall c :: c in id ==> c != ']' && c != '@' && !rules.whitespace(c)
    ensures var marker := CitedMarker(id);
            && TypedMarkers.Lawful(TypedMarkerGrammar(rules))
            && Span(0, |marker|) in MarkerSpans(TypedMarkerGrammar(rules), marker)
            && HasInnerEnd(SentenceEnd(ws, marker), marker)
  {
    hide ByteLen, AcceptsRegion;
    var marker := CitedMarker(id);
    CitedIsAccepted(rules, id);
    WholeIsSpan(TypedMarkerGrammar(rules), marker);
    CitedEnds(ws, id);
  }

  lemma CitedEnds(ws: char -> bool, id: string)
    requires Text.Lawful(ws) && !ws('A')
    ensures HasInnerEnd(SentenceEnd(ws, CitedMarker(id)), CitedMarker(id))
  {
    var marker, dot := CitedMarker(id), |id| + 7;
    assert marker[dot] == '.' && marker[dot + 1] == ' ' && marker[dot + 2] == 'A';
    LeadingFrom(ws, marker, dot + 1, dot + 2);
    assert SentenceEnd(ws, marker)(dot);
  }

  lemma WholeIsSpan(g: Grammar, marker: string)
    requires TypedMarkers.Lawful(g) && marker != "" && RegionLength(g, marker) == |marker| && g.accepts(marker)
    ensures Span(0, |marker|) in MarkerSpans(g, marker)
  {
    assert marker[0..] == marker && marker[..|marker|] == marker;
    MarkerRegionsLawful(g);
    TextScannerLawful(MarkerRegions(g), marker);
  }

  lemma {:induction false} ByteLenAppend(a: string, b: string)
    ensures ByteLen(a + b) == ByteLen(a) + ByteLen(b)
  {
    if a == [] {
      assert a + b == b;
    } else {
      assert (a + b)[1..] == a[1..] + b;
      ByteLenAppend(a[1..], b);
    }
  }

  lemma {:induction false} IdentityIs(rules: MarkerRules, id: string, rest: string)
    requires rules.whitespace(' ') && rest != [] && rest[0] == ' '
    requires forall c :: c in id ==> c != '@' && !rules.whitespace(c)
    ensures Identity(rules, id + rest) == id
  {
    if id == [] {
      assert id + rest == rest;
    } else {
      assert (id + rest)[1..] == id[1..] + rest && id == [id[0]] + id[1..];
      assert forall c :: c in id[1..] ==> c in id;
      IdentityIs(rules, id[1..], rest);
    }
  }

  lemma CitedIsAccepted(rules: MarkerRules, id: string)
    requires rules.whitespace(' ') && rules.document(id) && ByteLen(id) <= 500
    requires forall c :: c in id ==> c != ']' && c != '@' && !rules.whitespace(c)
    ensures TypedMarkers.Lawful(TypedMarkerGrammar(rules))
    ensures AcceptsRegion(rules, CitedMarker(id)) && RegionLength(TypedMarkerGrammar(rules), CitedMarker(id)) == |CitedMarker(id)|
  {
    hide ByteLen, Identity, Find;
    TypedMarkerGrammarLawful(rules);
    var marker, value := CitedMarker(id), id + " v. A";
    CitedShape(id);
    IdentityIs(rules, id, " v. A");
    CitedLength(id);
    CitedCloses(id);
  }

  lemma CitedShape(id: string)
    ensures var marker := CitedMarker(id);
            && |marker| == |id| + 11 && marker[0] == '[' && marker[|marker| - 1] == ']'
            && Prefix(Doc) <= marker && Opening(marker) == Some(Doc)
            && marker[|Prefix(Doc)|..|marker| - 1] == id + " v. A"
  {
    var marker := CitedMarker(id);
    assert marker[1] == 'd';
    assert Prefix(Anchor)[1] == 'a' && Prefix(Asset)[1] == 'a';
  }

  lemma CitedLength(id: string)
    requires ByteLen(id) <= 500
    ensures ByteLen(id + " v. A") <= 505 && ByteLen(CitedMarker(id)) <= 511
  {
    hide ByteLen;
    ByteLenAppend(id, " v. A");
    ByteLenAppend("[doc:", id);
    ByteLenAppend("[doc:" + id, " v. A]");
    ByteLenAppend(" v. A", "]");
    assert " v. A" + "]" == " v. A]";
    ShortLengths();
  }

  lemma CitedCloses(id: string)
    requires forall c :: c in id ==> c != ']'
    ensures Find(']', CitedMarker(id), |Prefix(Doc)|) == |CitedMarker(id)| - 1
  {
    hide Find;
    var marker := CitedMarker(id);
    assert forall i :: 5 <= i < |id| + 5 ==> marker[i] == id[i - 5];
    var tail := " v. A";
    assert forall k :: 0 <= k < 5 ==> tail[k] != ']' by {
      assert tail[0] != ']' && tail[1] != ']' && tail[2] != ']' && tail[3] != ']' && tail[4] != ']';
    }
    forall i | 5 <= i < |marker| - 1 ensures marker[i] != ']' {
      if i < |id| + 5 {
        assert id[i - 5] in id;
      } else {
        assert marker[i] == tail[i - |id| - 5];
      }
    }
    assert marker[|marker| - 1] == ']';
  }

  lemma ShortLengths()
    ensures ByteLen(" v. A") == 5 && ByteLen("[doc:") == 5 && ByteLen("]") == 1
  {
    ByteLenAppend("[d", "oc:");
    assert "[d" + "oc:" == "[doc:";
    ByteLenAppend(" v", ". A");
    assert " v" + ". A" == " v. A";
  }
}

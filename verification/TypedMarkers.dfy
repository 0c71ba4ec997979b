/**
  Bracket markers in rendered text. What opens a marker and which bracket regions are protected is
  a `Grammar`; the program's grammar is that of the four typed markers `[anchor:…]`, `[asset:…]`,
  `[doc:…]` and `[fetch:…]`. Positions are character indices; the two limits the scanner measures
  in bytes use the UTF-8 length of the characters concerned.
 */
module TypedMarkers {
  import opened Common
  import opened CursorScan

  const MAX_MARKER_BYTES := 600
  const MAX_DOC_VALUE_BYTES := 512

  function Utf8Len(c: char): nat {
    if c as int < 0x80 then 1
    else if c as int < 0x800 then 2
    else if c as int < 0x1_0000 then 3
    else 4
  }

  function ByteLen(s: string): nat {
    if s == [] then 0 else Utf8Len(s[0]) + ByteLen(s[1..])
  }

  /**
    `opening(rest)` is the length of the marker prefix with which `rest` starts, 0 when there is
    none; `accepts(region)` says whether a region, from its `[` to its `]`, is protected.
   */
  datatype Grammar = Grammar(opening: string -> nat, accepts: string -> bool)

  /** Prefixes start with `[` and hold no `]`. */
  ghost predicate Lawful(g: Grammar) {
    forall rest :: g.opening(rest) > 0 ==> g.opening(rest) <= |rest| && rest[0] == '[' && ']' !in rest[..g.opening(rest)]
  }

  /** The first occurrence of `c` in `s` at or after `from`; the length of `s` when there is none. */
  function Find(c: char, s: string, from: nat): (i: nat)
    requires from <= |s|
    ensures from <= i <= |s|
    ensures i < |s| ==> s[i] == c
    ensures forall k :: from <= k < i ==> s[k] != c
    decreases |s| - from
  {
    if from == |s| || s[from] == c then from else Find(c, s, from + 1)
  }

  /** How many characters a region that opens `rest` takes, its `]` included; 0 when none opens here. */
  ghost function RegionLength(g: Grammar, rest: string): (length: nat)
    requires Lawful(g)
    ensures length <= |rest|
  {
    var offset := g.opening(rest);
    if offset == 0 then 0
    else
      var close := Find(']', rest, offset);
      if close == |rest| then 0 else close + 1
  }

  /** Whether a protected region opens `rest`. */
  ghost predicate IsMarker(g: Grammar, rest: string)
    requires Lawful(g)
  {
    RegionLength(g, rest) > 0 && g.accepts(rest[..RegionLength(g, rest)])
  }

  /** A region opens with `[`, and its only `]` is its last character. */
  lemma RegionShape(g: Grammar, rest: string)
    requires Lawful(g) && RegionLength(g, rest) > 0
    ensures rest[0] == '[' && rest[RegionLength(g, rest) - 1] == ']'
    ensures forall k :: 0 <= k < RegionLength(g, rest) - 1 ==> rest[k] != ']'
  {
    var offset := g.opening(rest);
    forall k | 0 <= k < RegionLength(g, rest) - 1
      ensures rest[k] != ']'
    {
      if k < offset {
        assert rest[k] == rest[..offset][k];
      }
    }
  }

  /** A region that opens inside another one closes with it. */
  lemma RegionsNest(g: Grammar, rest: string, k: nat)
    requires Lawful(g)
    requires 0 < k < RegionLength(g, rest)
    ensures k + RegionLength(g, rest[k..]) <= RegionLength(g, rest)
  {
    var inner := rest[k..];
    RegionShape(g, rest);
    if RegionLength(g, inner) > 0 {
      RegionShape(g, inner);
      var last := RegionLength(g, rest) - 1;
      assert inner[last - k] == rest[last];
    }
  }

  /** The bracket regions of a text, as its scanner sees them. */
  ghost function MarkerRegions(g: Grammar): Regions
    requires Lawful(g)
  {
    Regions((rest: string) => RegionLength(g, rest), (rest: string) => IsMarker(g, rest))
  }

  lemma MarkerRegionsLawful(g: Grammar)
    requires Lawful(g)
    ensures CursorScan.Lawful(MarkerRegions(g))
  {
    forall rest, k | 0 < k < RegionLength(g, rest)
      ensures k + RegionLength(g, rest[k..]) <= RegionLength(g, rest)
    {
      RegionsNest(g, rest, k);
    }
  }

  /** The marker spans that the program protects in `text`. */
  ghost function MarkerSpans(g: Grammar, text: string): (spans: seq<Span>)
    requires Lawful(g)
    ensures Ordered(spans, 0, |text|)
  {
    MarkerRegionsLawful(g);
    ProtectedSpans(MarkerRegions(g), text)
  }

  /** A protected span is where a marker opens the rest of the text. */
  lemma SpanIsMarker(g: Grammar, text: string, span: Span)
    requires Lawful(g) && span in MarkerSpans(g, text)
    ensures span.start < |text| && IsMarker(g, text[span.start..])
    ensures span.end == span.start + RegionLength(g, text[span.start..])
  {
    hide RegionLength, IsMarker, Lawful;
    MarkerRegionsLawful(g);
    TextScannerLawful(MarkerRegions(g), text);
    SpanIsKept(TextScanner(MarkerRegions(g), text), 0, span);
    MarkerHasLength(g, text[span.start..]);
  }

  lemma MarkerHasLength(g: Grammar, rest: string)
    requires Lawful(g)
    ensures IsMarker(g, rest) ==> RegionLength(g, rest) > 0
  {
  }

  /** What is protected is an accepted region, from its `[` to its `]`. */
  lemma MarkerIsAccepted(g: Grammar, text: string, span: Span)
    requires Lawful(g) && span in MarkerSpans(g, text)
    ensures span.start < span.end <= |text| && g.accepts(text[span.start..span.end])
    ensures text[span.start] == '[' && text[span.end - 1] == ']'
  {
    hide MarkerSpans, RegionLength, Lawful;
    SpanIsMarker(g, text, span);
    var rest := text[span.start..];
    RegionShape(g, rest);
    assert rest[..span.end - span.start] == text[span.start..span.end];
  }

  /** Every marker after a safe cut, even one inside an invalid or over-long region, is found again. */
  lemma MarkersResynchronise(g: Grammar, text: string, cut: nat, span: Span)
    requires Lawful(g) && cut <= |text| && SafeCut(MarkerSpans(g, text), cut)
    requires span in MarkerSpans(g, text) && cut <= span.start
    ensures Span(span.start - cut, span.end - cut) in MarkerSpans(g, text[cut..])
  {
    MarkerRegionsLawful(g);
    Resynchronises(MarkerRegions(g), text, cut, span);
  }

  // ----- the scanner as the program runs it -----

  ghost function SpansFrom(g: Grammar, text: string, cursor: nat): seq<Span>
    requires Lawful(g) && cursor <= |text|
  {
    MarkerRegionsLawful(g);
    TextScannerLawful(MarkerRegions(g), text);
    Spans(TextScanner(MarkerRegions(g), text), cursor)
  }

  lemma {:induction false} SkipPlainText(g: Grammar, text: string, cursor: nat, to: nat)
    requires Lawful(g)
    requires cursor <= to <= |text| && forall k :: cursor <= k < to ==> text[k] != '['
    ensures SpansFrom(g, text, cursor) == SpansFrom(g, text, to)
    decreases |text| - cursor
  {
    if cursor < to {
      if RegionLength(g, text[cursor..]) > 0 {
        RegionShape(g, text[cursor..]);
        assert false;
      }
      SkipPlainText(g, text, cursor + 1, to);
    }
  }

  lemma FindInSuffix(c: char, text: string, cut: nat, from: nat)
    requires cut + from <= |text|
    ensures Find(c, text[cut..], from) + cut == Find(c, text, cut + from)
    decreases |text| - cut - from
  {
    if cut + from < |text| && text[cut + from] != c {
      FindInSuffix(c, text, cut, from + 1);
    }
  }

  lemma NoRegion(g: Grammar, text: string, start: nat)
    requires Lawful(g) && start < |text| && RegionLength(g, text[start..]) == 0
    ensures SpansFrom(g, text, start) == SpansFrom(g, text, start + 1)
  {
  }

  lemma RegionAt(g: Grammar, text: string, start: nat)
    requires Lawful(g) && start < |text| && g.opening(text[start..]) > 0
    ensures start + g.opening(text[start..]) <= |text|
    ensures var close := Find(']', text, start + g.opening(text[start..]));
            && RegionLength(g, text[start..]) == (if close == |text| then 0 else close + 1 - start)
            && (close < |text| ==> text[start..][..close + 1 - start] == text[start..close + 1])
  {
    FindInSuffix(']', text, start, g.opening(text[start..]));
  }

  lemma OpenRegion(g: Grammar, text: string, start: nat, length: nat)
    requires Lawful(g) && start < |text| && length == RegionLength(g, text[start..]) > 0
    ensures SpansFrom(g, text, start)
            == (if g.accepts(text[start..][..length]) then [Span(start, start + length)] else [])
               + SpansFrom(g, text, start + length)
  {
  }

  lemma ScanEnds(g: Grammar, text: string)
    requires Lawful(g)
    ensures SpansFrom(g, text, |text|) == [] && SpansFrom(g, text, 0) == MarkerSpans(g, text)
  {
  }

  /** One round of the scanner: it moves the cursor and finds at most one protected span. */
  method ScanRound(g: Grammar, text: string, cursor: nat) returns (next: nat, found: Option<Span>)
    requires Lawful(g) && cursor < |text|
    ensures cursor < next <= |text|
    ensures SpansFrom(g, text, cursor) == (if found.Some? then [found.value] else []) + SpansFrom(g, text, next)
  {
    hide SpansFrom;
    var start := Find('[', text, cursor);
    SkipPlainText(g, text, cursor, start);
    if start == |text| {
      ScanEnds(g, text);
      return start, None;
    }
    var offset := g.opening(text[start..]);
    if offset == 0 {
      NoRegion(g, text, start);
      return start + 1, None;
    }
    RegionAt(g, text, start);
    var close := Find(']', text, start + offset);
    if close == |text| {
      NoRegion(g, text, start);
      return start + 1, None;
    }
    var end := close + 1;
    OpenRegion(g, text, start, end - start);
    return end, if g.accepts(text[start..end]) then Some(Span(start, end)) else None;
  }

  /** The scanner: exactly the protected spans, in text order. */
  method TypedMarkerSpans(g: Grammar, text: string) returns (spans: seq<Span>)
    requires Lawful(g)
    ensures spans == MarkerSpans(g, text)
  {
    hide SpansFrom;
    ScanEnds(g, text);
    spans := [];
    var cursor := 0;
    while cursor < |text|
      invariant cursor <= |text|
      invariant spans + SpansFrom(g, text, cursor) == SpansFrom(g, text, 0)
      decreases |text| - cursor
    {
      var next, found := ScanRound(g, text, cursor);
      if found.Some? {
        AppendAssoc(spans, [found.value], SpansFrom(g, text, next));
        spans := spans + [found.value];
      }
      cursor := next;
    }
  }

  // ----- the program's grammar -----

  /** The validators of the four marker values, and Unicode white space; their tables are not modelled. */
  datatype MarkerRules = MarkerRules(
    anchor: string -> bool,
    asset: string -> bool,
    document: string -> bool,
    fetch: string -> bool,
    whitespace: char -> bool)

  datatype Kind = Anchor | Asset | Doc | Fetch

  function Prefix(kind: Kind): string {
    match kind
    case Anchor => "[anchor:"
    case Asset => "[asset:"
    case Doc => "[doc:"
    case Fetch => "[fetch:"
  }

  /** The marker prefix with which `rest` starts, if any. */
  function Opening(rest: string): (kind: Option<Kind>)
    ensures kind.Some? ==> Prefix(kind.value) <= rest
  {
    if Prefix(Anchor) <= rest then Some(Anchor)
    else if Prefix(Asset) <= rest then Some(Asset)
    else if Prefix(Doc) <= rest then Some(Doc)
    else if Prefix(Fetch) <= rest then Some(Fetch)
    else None
  }

  function OpeningLength(rest: string): nat {
    match Opening(rest)
    case None => 0
    case Some(kind) => |Prefix(kind)|
  }

  /** The part of a `[doc:` value before the first white space or `@`. */
  function Identity(rules: MarkerRules, value: string): string {
    if value == [] || rules.whitespace(value[0]) || value[0] == '@' then []
    else [value[0]] + Identity(rules, value[1..])
  }

  predicate ValidValue(rules: MarkerRules, kind: Kind, value: string) {
    match kind
    case Anchor => rules.anchor(value)
    case Asset => rules.asset(value)
    case Doc => ByteLen(value) <= MAX_DOC_VALUE_BYTES && rules.document(Identity(rules, value))
    case Fetch => rules.fetch(value)
  }

  /** A region is protected when its value is valid for its prefix and it is not too long. */
  predicate AcceptsRegion(rules: MarkerRules, region: string) {
    match Opening(region)
    case None => false
    case Some(kind) =>
      && |Prefix(kind)| < |region|
      && ValidValue(rules, kind, region[|Prefix(kind)| .. |region| - 1])
      && ByteLen(region) <= MAX_MARKER_BYTES
  }

  function TypedMarkerGrammar(rules: MarkerRules): Grammar {
    Grammar((rest: string) => OpeningLength(rest), (region: string) => AcceptsRegion(rules, region))
  }

  lemma PrefixShape(kind: Kind)
    ensures Prefix(kind)[0] == '[' && ']' !in Prefix(kind)
  {
  }

  /** Where the identity of a `[doc:` value ends: at the first white space or `@`, or with the value. */
  predicate IdentityEnds(rules: MarkerRules, value: string, n: nat) {
    && n <= |value| && (forall i :: 0 <= i < n ==> !rules.whitespace(value[i]) && value[i] != '@')
    && (n < |value| ==> rules.whitespace(value[n]) || value[n] == '@')
  }

  lemma {:induction false} IdentityIs(rules: MarkerRules, value: string, n: nat)
    requires IdentityEnds(rules, value, n)
    ensures Identity(rules, value) == value[..n]
  {
    if n > 0 {
      assert forall i :: 0 <= i < n - 1 ==> value[1..][i] == value[i + 1];
      IdentityIs(rules, value[1..], n - 1);
      assert value[..n] == [value[0]] + value[1..][..n - 1];
    }
  }

  lemma {:induction false} SomeIdentity(rules: MarkerRules, value: string) returns (n: nat)
    ensures IdentityEnds(rules, value, n)
  {
    if value == "" || rules.whitespace(value[0]) || value[0] == '@' {
      n := 0;
    } else {
      var m := SomeIdentity(rules, value[1..]);
      n := m + 1;
      assert forall i :: 0 <= i < m ==> value[i + 1] == value[1..][i];
      forall i | 0 <= i < n ensures !rules.whitespace(value[i]) && value[i] != '@' {
        if i > 0 {
          assert value[i] == value[1..][i - 1];
        }
      }
    }
  }

  /** A marker with this value, written out. */
  ghost predicate IsMarkerOf(rules: MarkerRules, region: string, value: string) {
    || (region == "[anchor:" + value + "]" && rules.anchor(value))
    || (region == "[asset:" + value + "]" && rules.asset(value))
    || (region == "[doc:" + value + "]" && ByteLen(value) <= 512
        && exists n: nat :: IdentityEnds(rules, value, n) && rules.document(value[..n]))
    || (region == "[fetch:" + value + "]" && rules.fetch(value))
  }

  lemma OpeningOf(kind: Kind, value: string)
    ensures Opening(Prefix(kind) + value + "]") == Some(kind)
  {
    var region := Prefix(kind) + value + "]";
    assert region[..|Prefix(kind)|] == Prefix(kind);
    assert region[1] == Prefix(kind)[1] && region[2] == Prefix(kind)[2];
  }

  lemma ValidExactly(rules: MarkerRules, value: string)
    ensures ValidValue(rules, Doc, value) <==>
            ByteLen(value) <= 512 && exists n: nat :: IdentityEnds(rules, value, n) && rules.document(value[..n])
  {
    var n := SomeIdentity(rules, value);
    IdentityIs(rules, value, n);
    forall m: nat | IdentityEnds(rules, value, m) ensures Identity(rules, value) == value[..m] {
      IdentityIs(rules, value, m);
    }
  }

  lemma AcceptsKind(rules: MarkerRules, kind: Kind, value: string)
    ensures AcceptsRegion(rules, Prefix(kind) + value + "]") <==>
            ValidValue(rules, kind, value) && ByteLen(Prefix(kind) + value + "]") <= 600
  {
    hide ValidValue, ByteLen, Opening;
    var region := Prefix(kind) + value + "]";
    OpeningOf(kind, value);
    assert region[|Prefix(kind)| .. |region| - 1] == value;
  }

  /** A region that ends in a bracket is protected exactly when it is one of the four markers and at most 600 bytes long. */
  lemma AcceptsExactly(rules: MarkerRules, region: string)
    requires region != "" && region[|region| - 1] == ']'
    ensures AcceptsRegion(rules, region) <==> ByteLen(region) <= 600 && exists value :: IsMarkerOf(rules, region, value)
  {
    hide ValidValue, ByteLen, AcceptsRegion, IsMarkerOf, Prefix;
    if AcceptsRegion(rules, region) {
      var kind, value := AcceptedParts(rules, region);
      AcceptsKind(rules, kind, value);
      ValidMarker(rules, kind, value);
    }
    if value :| IsMarkerOf(rules, region, value) {
      var kind := MarkerKind(rules, region, value);
      AcceptsKind(rules, kind, value);
    }
  }

  lemma AcceptedParts(rules: MarkerRules, region: string) returns (kind: Kind, value: string)
    requires region != "" && AcceptsRegion(rules, region) && region[|region| - 1] == ']'
    ensures region == Prefix(kind) + value + "]"
  {
    hide ValidValue, ByteLen, Prefix;
    kind := Opening(region).value;
    value := region[|Prefix(kind)| .. |region| - 1];
  }

  lemma ValidMarker(rules: MarkerRules, kind: Kind, value: string)
    requires ValidValue(rules, kind, value)
    ensures IsMarkerOf(rules, Prefix(kind) + value + "]", value)
  {
    hide ByteLen;
    if kind == Doc {
      ValidExactly(rules, value);
    }
  }

  lemma MarkerKind(rules: MarkerRules, region: string, value: string) returns (kind: Kind)
    requires IsMarkerOf(rules, region, value)
    ensures region == Prefix(kind) + value + "]" && ValidValue(rules, kind, value)
  {
    hide ByteLen, Identity;
    ValidExactly(rules, value);
    kind :=
      if region == "[anchor:" + value + "]" && rules.anchor(value) then Anchor
      else if region == "[asset:" + value + "]" && rules.asset(value) then Asset
      else if region == "[fetch:" + value + "]" && rules.fetch(value) then Fetch
      else Doc;
  }

  /** The bytes of a character in UTF-8 (section 3 of RFC 3629): the fewest whose payload bits hold it. */
  lemma Utf8LenIsFewest(c: char)
    ensures Utf8Len(c) == 1 <==> c as int <= 0x7f
    ensures Utf8Len(c) == 2 <==> 0x80 <= c as int <= 0x7ff
    ensures Utf8Len(c) == 3 <==> 0x800 <= c as int <= 0xffff
    ensures Utf8Len(c) == 4 <==> 0x1_0000 <= c as int
  {
  }

  /** The program's grammar is one to which every theorem of this module applies. */
  lemma TypedMarkerGrammarLawful(rules: MarkerRules)
    ensures Lawful(TypedMarkerGrammar(rules))
  {
    hide OpeningLength, AcceptsRegion;
    forall rest | OpeningLength(rest) > 0
      ensures OpeningLength(rest) <= |rest| && rest[0] == '[' && ']' !in rest[..OpeningLength(rest)]
    {
      OpeningShape(rest);
    }
  }

  lemma OpeningShape(rest: string)
    requires OpeningLength(rest) > 0
    ensures OpeningLength(rest) <= |rest| && rest[0] == '[' && ']' !in rest[..OpeningLength(rest)]
  {
    hide Prefix;
    var prefix := Prefix(Opening(rest).value);
    PrefixShape(Opening(rest).value);
    assert rest[..|prefix|] == prefix;
  }
}

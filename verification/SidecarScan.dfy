/**
  The exact scan of a verified sidecar: the eligibility bitmap, and the blocked scan whose folds
  are merged over an arbitrary reduction tree.
 */
module SidecarScan {
  import opened Common
  import opened Bitmap
  import opened TopK
  import opened DotKernels

  const SCAN_BLOCK_ROWS := 16 * 1024

  /** What the scan needs of an opened sidecar: one chunk id and one vector a row. */
  datatype Sidecar = Sidecar(ids: seq<nat>, vectors: seq<Document>)

  ghost predicate StrictlyIncreasing(ids: seq<nat>) {
    forall i, j :: 0 <= i < j < |ids| ==> ids[i] < ids[j]
  }

  ghost function IdSet(ids: seq<nat>): set<nat> {
    set i | 0 <= i < |ids| :: ids[i]
  }

  // ----- the eligibility bitmap -----

  datatype Eligible = Eligible(words: seq<nat>, rowCount: nat, eligibleCount: nat)

  /** Every word fits its 64 bits. */
  predicate AreWords(words: seq<nat>) {
    forall i :: 0 <= i < |words| ==> words[i] < Power2(WORD_BITS)
  }

  predicate ContainsRow(words: seq<nat>, row: nat)
    requires words != [] ==> row / 64 < |words|
  {
    words != [] && HasBit(words[row / 64], row % 64)
  }

  lemma SetRow(words: seq<nat>, row: nat, other: nat)
    requires row / 64 < |words| && other / 64 < |words|
    ensures var w := words[row / 64 := WithBit(words[row / 64], row % 64)];
            ContainsRow(w, other) <==> row == other || ContainsRow(words, other)
  {
    hide WithBit, HasBit;
    if row / 64 == other / 64 {
      SetBit(words[row / 64], row % 64, other % 64);
    }
  }

  /** The bitmap marks exactly the rows below `count` whose chunk id is requested. */
  ghost predicate Marks(words: seq<nat>, ids: seq<nat>, requested: set<nat>, count: nat)
    requires count <= |ids|
  {
    && |ids| <= 64 * |words| && AreWords(words)
    && forall row :: 0 <= row < |ids| ==> (ContainsRow(words, row) <==> row < count && ids[row] in requested)
  }

  lemma MarkRow(words: seq<nat>, ids: seq<nat>, requested: set<nat>, row: nat)
    requires row < |ids| && Marks(words, ids, requested, row)
    ensures ids[row] in requested ==> Marks(words[row / 64 := WithBit(words[row / 64], row % 64)], ids, requested, row + 1)
    ensures ids[row] !in requested ==> Marks(words, ids, requested, row + 1)
  {
    hide ContainsRow, WithBit, Power2;
    if ids[row] in requested {
      SetBitFits(words[row / 64], row % 64, WORD_BITS);
      var w := words[row / 64 := WithBit(words[row / 64], row % 64)];
      forall other | 0 <= other < |ids|
        ensures ContainsRow(w, other) <==> other < row + 1 && ids[other] in requested
      {
        SetRow(words, row, other);
      }
    }
  }

  lemma MatchedGrows(ids: seq<nat>, requested: set<nat>, row: nat)
    requires StrictlyIncreasing(ids) && row < |ids|
    ensures |requested * IdSet(ids[..row + 1])|
            == |requested * IdSet(ids[..row])| + if ids[row] in requested then 1 else 0
  {
    assert IdSet(ids[..row + 1]) == IdSet(ids[..row]) + {ids[row]} by {
      assert forall i :: 0 <= i < row ==> ids[..row + 1][i] == ids[..row][i];
      assert ids[..row + 1][row] == ids[row];
    }
    assert ids[row] !in IdSet(ids[..row]);
    var before, after := requested * IdSet(ids[..row]), requested * IdSet(ids[..row + 1]);
    assert after == if ids[row] in requested then before + {ids[row]} else before;
  }

  lemma SubsetSize(a: set<nat>, b: set<nat>)
    requires a <= b
    ensures |a| <= |b| && |b - a| == |b| - |a| && (|a| == |b| ==> a == b)
  {
    assert b == a + (b - a);
    if |a| == |b| {
      assert b - a == {};
    }
  }

  lemma NoBits(words: seq<nat>, ids: seq<nat>, requested: set<nat>)
    requires |ids| <= 64 * |words| && forall i :: 0 <= i < |words| ==> words[i] == 0
    ensures Marks(words, ids, requested, 0)
  {
    ZeroFits(WORD_BITS);
    forall row | 0 <= row < |ids| ensures !ContainsRow(words, row) {
      NoBitOfZero(row % 64);
    }
  }

  /** How many of the first `n` rows are eligible. */
  ghost function CountRows(e: Eligible, n: nat): nat
    requires n <= e.rowCount && (e.words != [] ==> e.rowCount <= 64 * |e.words|)
  {
    if n == 0 then 0 else CountRows(e, n - 1) + if ContainsRow(e.words, n - 1) then 1 else 0
  }

  ghost predicate WellFormed(e: Eligible) {
    && (e.words != [] ==> e.rowCount <= 64 * |e.words|)
    && e.eligibleCount == CountRows(e, e.rowCount)
  }

  lemma {:induction false} CountMarked(e: Eligible, ids: seq<nat>, requested: set<nat>, n: nat)
    requires n <= |ids| == e.rowCount && StrictlyIncreasing(ids)
    requires e.words != [] && Marks(e.words, ids, requested, |ids|)
    ensures CountRows(e, n) == |requested * IdSet(ids[..n])|
  {
    hide ContainsRow, Marks, IdSet, StrictlyIncreasing;
    if n == 0 {
      assert requested * IdSet(ids[..0]) == {} by {
        NoIds(ids);
      }
    } else {
      MarksFit(e.words, ids, requested);
      CountMarked(e, ids, requested, n - 1);
      MatchedGrows(ids, requested, n - 1);
      RowIsMarked(e.words, ids, requested, n - 1);
    }
  }

  lemma NoIds(ids: seq<nat>)
    ensures IdSet(ids[..0]) == {}
  {
  }

  lemma MarksFit(words: seq<nat>, ids: seq<nat>, requested: set<nat>)
    requires Marks(words, ids, requested, |ids|)
    ensures |ids| <= 64 * |words|
  {
  }

  lemma RowIsMarked(words: seq<nat>, ids: seq<nat>, requested: set<nat>, row: nat)
    requires Marks(words, ids, requested, |ids|) && row < |ids|
    ensures row / 64 < |words| && (ContainsRow(words, row) <==> ids[row] in requested)
  {
    hide ContainsRow;
  }

  lemma {:induction false} CountNothing(e: Eligible, n: nat)
    requires n <= e.rowCount && e.words == []
    ensures CountRows(e, n) == 0
  {
    if n > 0 {
      CountNothing(e, n - 1);
    }
  }

  /**
    Eligibility of `requested` in a sidecar whose ids strictly increase. It succeeds exactly when
    every requested id is in the sidecar; then the bits are exactly the requested rows and the
    count is the size of the request. Otherwise it reports how many ids are absent.
   */
  method EligibleRows(sidecar: Sidecar, requested: set<nat>) returns (r: Result<Eligible, nat>)
    requires StrictlyIncreasing(sidecar.ids)
    ensures r.Ok? <==> requested <= IdSet(sidecar.ids)
    ensures r.Ok? ==>
              && WellFormed(r.value) && AreWords(r.value.words)
              && r.value.rowCount == |sidecar.ids|
              && r.value.eligibleCount == |requested|
              && forall row :: 0 <= row < |sidecar.ids| ==>
                   (ContainsRow(r.value.words, row) <==> sidecar.ids[row] in requested)
    ensures r.Err? ==> r.error == |requested - IdSet(sidecar.ids)| > 0
  {
    hide ContainsRow, WithBit;
    var ids := sidecar.ids;
    if |requested| == 0 {
      CountNothing(Eligible([], |ids|, 0), |ids|);
      NothingMarked(ids);
      return Ok(Eligible([], |ids|, 0));
    }
    var words := new nat[(|ids| + 63) / 64](_ => 0);
    var matched := 0;
    NoBits(words[..], ids, requested);
    for row := 0 to |ids|
      invariant Marks(words[..], ids, requested, row)
      invariant matched == |requested * IdSet(ids[..row])|
    {
      MarkRow(words[..], ids, requested, row);
      MatchedGrows(ids, requested, row);
      if ids[row] in requested {
        words[row / 64] := WithBit(words[row / 64], row % 64);
        matched := matched + 1;
      }
    }
    MatchedAll(ids, requested);
    if matched != |requested| {
      return Err(|requested| - matched);
    }
    CountMarked(Eligible(words[..], |ids|, matched), ids, requested, |ids|);
    return Ok(Eligible(words[..], |ids|, matched));
  }

  /** What the number of matched ids says at the end of the loop. */
  lemma MatchedAll(ids: seq<nat>, requested: set<nat>)
    ensures ids[..|ids|] == ids
    ensures |requested - IdSet(ids)| == |requested| - |requested * IdSet(ids)|
    ensures |requested * IdSet(ids)| == |requested| <==> requested <= IdSet(ids)
    ensures requested <= IdSet(ids) && |requested| > 0 ==> ids != []
  {
    assert ids[..|ids|] == ids;
    var found := requested * IdSet(ids);
    SubsetSize(found, requested);
    assert requested - found == requested - IdSet(ids);
    assert requested <= IdSet(ids) ==> found == requested;
    if ids == [] {
      assert found == {};
    }
  }

  lemma NothingMarked(ids: seq<nat>)
    ensures forall row :: 0 <= row < |ids| ==> !ContainsRow([], row)
  {
  }

  // ----- the scan -----

  ghost function RowHit(sidecar: Sidecar, query: Query, row: nat): Hit
    requires row < |sidecar.ids| == |sidecar.vectors|
  {
    Hit(sidecar.ids[row], Dot(query, sidecar.vectors[row]))
  }

  /** The hits of the eligible rows in `[begin, end)`. */
  ghost function RangeHits(sidecar: Sidecar, query: Query, e: Eligible, begin: nat, end: nat): multiset<Hit>
    requires begin <= end <= |sidecar.ids| == |sidecar.vectors| == e.rowCount && WellFormed(e)
    decreases end - begin
  {
    if begin == end then multiset{}
    else RangeHits(sidecar, query, e, begin, end - 1)
         + if ContainsRow(e.words, end - 1) then multiset{RowHit(sidecar, query, end - 1)} else multiset{}
  }

  ghost predicate Scannable(sidecar: Sidecar, e: Eligible) {
    && |sidecar.ids| == |sidecar.vectors| == e.rowCount
    && WellFormed(e)
  }

  lemma {:induction false} RangeSplits(sidecar: Sidecar, query: Query, e: Eligible, begin: nat, middle: nat, end: nat)
    requires Scannable(sidecar, e) && begin <= middle <= end <= e.rowCount
    ensures RangeHits(sidecar, query, e, begin, end)
            == RangeHits(sidecar, query, e, begin, middle) + RangeHits(sidecar, query, e, middle, end)
    decreases end
  {
    if middle < end {
      RangeSplits(sidecar, query, e, begin, middle, end - 1);
    }
  }

  lemma {:induction false} RangeSize(sidecar: Sidecar, query: Query, e: Eligible, n: nat)
    requires Scannable(sidecar, e) && n <= e.rowCount
    ensures |RangeHits(sidecar, query, e, 0, n)| == CountRows(e, n)
  {
    if n > 0 {
      RangeSize(sidecar, query, e, n - 1);
    }
  }

  lemma EmptyRange(sidecar: Sidecar, query: Query, e: Eligible, n: nat)
    requires Scannable(sidecar, e) && n <= e.rowCount
    ensures RangeHits(sidecar, query, e, n, n) == multiset{}
  {
  }

  function BlockBegin(e: Eligible, block: nat): nat {
    Min(e.rowCount, block * SCAN_BLOCK_ROWS)
  }

  /** Every way the parallel iterator may split, fold and merge: each leaf folds a run of blocks. */
  datatype Reduction = Identity | Fold(first: nat, count: nat) | Reduce(left: Reduction, right: Reduction)

  /** `tree` covers the blocks from `first` up to `end`, in order. */
  ghost predicate Covers(tree: Reduction, first: nat, end: nat) {
    match tree
    case Identity => first == end
    case Fold(f, count) => f == first && first + count == end
    case Reduce(left, right) => exists middle: nat :: Covers(left, first, middle) && Covers(right, middle, end)
  }

  lemma {:induction false} CoversForward(tree: Reduction, first: nat, end: nat)
    requires Covers(tree, first, end)
    ensures first <= end
  {
    match tree
    case Identity =>
    case Fold(_, _) =>
    case Reduce(left, right) =>
      var middle: nat :| Covers(left, first, middle) && Covers(right, middle, end);
      CoversForward(left, first, middle);
      CoversForward(right, middle, end);
  }

  method ScanRange(dot: PreparedDot, sidecar: Sidecar, e: Eligible, begin: nat, end: nat, top: Heap, ghost query: Query)
    requires Scannable(sidecar, e) && begin <= end <= e.rowCount && Prepares(dot, query) && top.Valid()
    modifies top
    ensures top.Valid() && top.seen == old(top.seen) + RangeHits(sidecar, query, e, begin, end)
  {
    hide ContainsRow, Dot, Prepares, WellFormed, IsBest, Heap.Valid, RangeHits;
    EmptyRange(sidecar, query, e, begin);
    for row := begin to end
      invariant top.Valid() && top.seen == old(top.seen) + RangeHits(sidecar, query, e, begin, row)
    {
      ScannableRow(sidecar, e, row);
      RangeStep(sidecar, query, e, begin, row, old(top.seen));
      if ContainsRow(e.words, row) {
        var score := Score(dot, sidecar.vectors[row], query);
        top.Push(Hit(sidecar.ids[row], score));
      }
    }
  }

  lemma RangeStep(sidecar: Sidecar, query: Query, e: Eligible, begin: nat, row: nat, seen: multiset<Hit>)
    requires Scannable(sidecar, e) && begin <= row < e.rowCount
    ensures e.words != [] ==> row / 64 < |e.words|
    ensures seen + RangeHits(sidecar, query, e, begin, row + 1)
            == seen + RangeHits(sidecar, query, e, begin, row)
               + if ContainsRow(e.words, row) then multiset{Hit(sidecar.ids[row], Dot(query, sidecar.vectors[row]))} else multiset{}
  {
    hide ContainsRow, Dot;
  }

  lemma ScannableRow(sidecar: Sidecar, e: Eligible, row: nat)
    requires Scannable(sidecar, e) && row < e.rowCount
    ensures e.words != [] ==> row / 64 < |e.words|
  {
  }

  /** Run one reduction: a fresh heap a leaf, merged pairwise. */
  method RunReduction(tree: Reduction, dot: PreparedDot, sidecar: Sidecar, e: Eligible, limit: nat, ghost query: Query,
                      ghost first: nat, ghost end: nat)
    returns (top: Heap)
    requires Scannable(sidecar, e) && Prepares(dot, query) && Covers(tree, first, end)
    ensures fresh(top) && top.Valid() && top.limit == limit
    ensures BlockBegin(e, first) <= BlockBegin(e, end)
    ensures top.seen == RangeHits(sidecar, query, e, BlockBegin(e, first), BlockBegin(e, end))
    decreases tree
  {
    hide WellFormed, Prepares, IsBest, Heap.Valid, RangeHits;
    CoversForward(tree, first, end);
    EmptyRange(sidecar, query, e, BlockBegin(e, first));
    match tree
    case Identity =>
      top := new Heap(limit);
    case Fold(f, count) =>
      top := new Heap(limit);
      for block := f to f + count
        invariant fresh(top) && top.Valid() && top.limit == limit
        invariant BlockBegin(e, f) <= BlockBegin(e, block)
        invariant top.seen == RangeHits(sidecar, query, e, BlockBegin(e, f), BlockBegin(e, block))
      {
        var begin, stop := BlockBegin(e, block), BlockBegin(e, block + 1);
        ScanRange(dot, sidecar, e, begin, stop, top, query);
        RangeSplits(sidecar, query, e, BlockBegin(e, f), begin, stop);
      }
    case Reduce(left, right) =>
      ghost var middle: nat :| Covers(left, first, middle) && Covers(right, middle, end);
      top := RunReduction(left, dot, sidecar, e, limit, query, first, middle);
      var other := RunReduction(right, dot, sidecar, e, limit, query, middle, end);
      top.Merge(other);
      RangeSplits(sidecar, query, e, BlockBegin(e, first), BlockBegin(e, middle), BlockBegin(e, end));
  }

  datatype ScanError = RowCountMismatch | Underfilled(expected: int, found: int)

  function BlockCount(rows: nat): nat {
    (rows + SCAN_BLOCK_ROWS - 1) / SCAN_BLOCK_ROWS
  }

  // ----- what the hits are, in rows, scores and ids -----

  ghost function MarkedRows(e: Eligible): set<nat>
    requires WellFormed(e)
  {
    set row | 0 <= row < e.rowCount && ContainsRow(e.words, row)
  }

  ghost function RequestedRows(sidecar: Sidecar, requested: set<nat>): set<nat> {
    set row | 0 <= row < |sidecar.ids| && sidecar.ids[row] in requested
  }

  /**
    Every hit is one of `rows`; scores fall strictly, or stay and ids rise strictly; every one of `rows`
    that is not returned scores less than every hit, or the same with a larger id.
   */
  ghost predicate AreTopRows(sidecar: Sidecar, query: Query, rows: set<nat>, hits: seq<Hit>)
    requires |sidecar.ids| == |sidecar.vectors| && forall row :: row in rows ==> row < |sidecar.ids|
  {
    && (forall i :: 0 <= i < |hits| ==>
          exists row :: row in rows && hits[i].chunkId == sidecar.ids[row] && hits[i].score == Dot(query, sidecar.vectors[row]))
    && (forall i, j :: 0 <= i < j < |hits| ==>
          hits[i].score > hits[j].score || (hits[i].score == hits[j].score && hits[i].chunkId < hits[j].chunkId))
    && forall row, i :: row in rows && 0 <= i < |hits| && !Returned(hits, sidecar.ids[row]) ==>
         && var score := Dot(query, sidecar.vectors[row]);
            score < hits[i].score || (score == hits[i].score && sidecar.ids[row] > hits[i].chunkId)
  }

  ghost predicate Returned(hits: seq<Hit>, id: nat) {
    exists i :: 0 <= i < |hits| && hits[i].chunkId == id
  }

  lemma {:induction false} RangeHolds(sidecar: Sidecar, query: Query, e: Eligible, n: nat, hit: Hit)
    requires Scannable(sidecar, e) && n <= e.rowCount
    ensures hit in RangeHits(sidecar, query, e, 0, n) <==>
            exists row :: 0 <= row < n && ContainsRow(e.words, row) && hit == RowHit(sidecar, query, row)
  {
    hide ContainsRow, Dot;
    if n > 0 {
      RangeHolds(sidecar, query, e, n - 1, hit);
      ScannableRow(sidecar, e, n - 1);
    }
  }

  /** With different ids no hit occurs twice. */
  lemma {:induction false} RangeHoldsOnce(sidecar: Sidecar, query: Query, e: Eligible, n: nat, hit: Hit)
    requires Scannable(sidecar, e) && n <= e.rowCount && StrictlyIncreasing(sidecar.ids)
    ensures RangeHits(sidecar, query, e, 0, n)[hit] <= 1
  {
    hide ContainsRow, Dot;
    if n > 0 {
      RangeHoldsOnce(sidecar, query, e, n - 1, hit);
      RangeHolds(sidecar, query, e, n - 1, hit);
      ScannableRow(sidecar, e, n - 1);
    }
  }

  lemma HitIsRow(sidecar: Sidecar, query: Query, e: Eligible, hits: seq<Hit>, i: nat) returns (row: nat)
    requires Scannable(sidecar, e) && i < |hits| && multiset(hits) <= RangeHits(sidecar, query, e, 0, e.rowCount)
    ensures row < e.rowCount && ContainsRow(e.words, row) && hits[i] == RowHit(sidecar, query, row)
  {
    hide ContainsRow, Dot, RangeHits, RowHit, WellFormed;
    assert hits[i] in multiset(hits);
    RangeHolds(sidecar, query, e, e.rowCount, hits[i]);
    RowsFit(sidecar, e);
    row :| 0 <= row < e.rowCount && ContainsRow(e.words, row) && hits[i] == RowHit(sidecar, query, row);
  }

  lemma RowsFit(sidecar: Sidecar, e: Eligible)
    requires Scannable(sidecar, e)
    ensures e.words != [] ==> e.rowCount <= 64 * |e.words|
  {
  }

  lemma TwiceHeld(hits: seq<Hit>, i: nat, j: nat)
    requires i < j < |hits| && hits[i] == hits[j]
    ensures multiset(hits)[hits[i]] >= 2
  {
    assert hits == hits[..j] + [hits[j]] + hits[j + 1..];
    assert hits[..j][i] in hits[..j];
    assert multiset(hits[..j])[hits[i]] >= 1;
  }

  lemma HitIsReturned(hits: seq<Hit>, hit: Hit)
    ensures hit in multiset(hits) ==> Returned(hits, hit.chunkId)
  {
  }

  /** The best selection of what the marked rows give, in sorted order, is their top rows. */
  lemma BestAreTopRows(sidecar: Sidecar, query: Query, e: Eligible, limit: nat, hits: seq<Hit>)
    requires Scannable(sidecar, e) && StrictlyIncreasing(sidecar.ids) && Sorted(hits)
    requires IsBest(multiset(hits), limit, RangeHits(sidecar, query, e, 0, e.rowCount))
    ensures AreTopRows(sidecar, query, MarkedRows(e), hits)
  {
    hide ContainsRow, Dot, RangeHits, WellFormed, Sorted, IsBest;
    var all, rows := RangeHits(sidecar, query, e, 0, e.rowCount), MarkedRows(e);
    BestIsHighest(multiset(hits), limit, all);
    SortedDescends(hits);
    forall i | 0 <= i < |hits|
      ensures exists row :: row in rows && hits[i].chunkId == sidecar.ids[row] && hits[i].score == Dot(query, sidecar.vectors[row])
    {
      var row := HitIsRow(sidecar, query, e, hits, i);
    }
    forall i, j | 0 <= i < j < |hits|
      ensures hits[i].score > hits[j].score || (hits[i].score == hits[j].score && hits[i].chunkId < hits[j].chunkId)
    {
      RangeHoldsOnce(sidecar, query, e, e.rowCount, hits[i]);
      if hits[i] == hits[j] {
        TwiceHeld(hits, i, j);
      }
    }
    forall row, i | row in rows && 0 <= i < |hits| && !Returned(hits, sidecar.ids[row])
      ensures var score := Dot(query, sidecar.vectors[row]);
              score < hits[i].score || (score == hits[i].score && sidecar.ids[row] > hits[i].chunkId)
    {
      LeftOutIsLower(sidecar, query, e, hits, row, i);
    }
  }

  lemma LeftOutIsLower(sidecar: Sidecar, query: Query, e: Eligible, hits: seq<Hit>, row: nat, i: nat)
    requires Scannable(sidecar, e) && row < e.rowCount && ContainsRow(e.words, row) && i < |hits|
    requires !Returned(hits, sidecar.ids[row])
    requires multiset(hits) <= RangeHits(sidecar, query, e, 0, e.rowCount)
    requires AreHighest(multiset(hits), RangeHits(sidecar, query, e, 0, e.rowCount))
    ensures var score := Dot(query, sidecar.vectors[row]);
            score < hits[i].score || (score == hits[i].score && sidecar.ids[row] > hits[i].chunkId)
  {
    hide ContainsRow, Dot, RangeHits, WellFormed;
    var all, hit := RangeHits(sidecar, query, e, 0, e.rowCount), RowHit(sidecar, query, row);
    RangeHolds(sidecar, query, e, e.rowCount, hit);
    HitIsReturned(hits, hit);
    assert hit in all - multiset(hits) && hits[i] in multiset(hits);
    assert hits[i].chunkId != sidecar.ids[row];
  }

  /**
    The exact scan. For every reduction of the blocks it returns the first
    `min(limit, eligible count)` eligible rows, ordered by score descending and then chunk id
    ascending; it never underfills.
   */
  method ScanSidecar(sidecar: Sidecar, query: Query, e: Eligible, limit: nat, processor: Processor, tree: Reduction)
    returns (r: Result<seq<Hit>, ScanError>)
    requires |sidecar.ids| == |sidecar.vectors| && WellFormed(e)
    requires Covers(tree, 0, BlockCount(|sidecar.ids|))
    ensures r == Err(RowCountMismatch) <==> e.rowCount != |sidecar.ids|
    ensures e.rowCount == |sidecar.ids| ==>
              && r.Ok?
              && |r.value| == Min(limit, e.eligibleCount)
              && Sorted(r.value)
              && IsBest(multiset(r.value), Min(limit, e.eligibleCount), RangeHits(sidecar, query, e, 0, e.rowCount))
              && forall sorted :: Sorted(sorted) && multiset(sorted) == RangeHits(sidecar, query, e, 0, e.rowCount) ==>
                   r.value == sorted[..Min(limit, |sorted|)]
    ensures e.rowCount == |sidecar.ids| && StrictlyIncreasing(sidecar.ids) ==> AreTopRows(sidecar, query, MarkedRows(e), r.value)
  {
    hide AreTopRows, StrictlyIncreasing, MarkedRows;
    hide RangeHits, IsBest, WellFormed, Prepares, Covers, Sorted;
    if e.rowCount != |sidecar.ids| {
      return Err(RowCountMismatch);
    }
    RangeSizeOf(sidecar, query, e);
    ghost var all := RangeHits(sidecar, query, e, 0, e.rowCount);
    if limit == 0 || e.eligibleCount == 0 {
      EmptyFront(all, limit);
      TopRowsOf(sidecar, query, e, Min(limit, |all|), []);
      return Ok([]);
    }
    var wanted := Min(limit, e.eligibleCount);
    var dot := Prepare(query, processor);
    var blocks := BlockCount(|sidecar.ids|);
    var top := RunReduction(tree, dot, sidecar, e, wanted, query, 0, blocks);
    var hits := top.IntoSorted();
    assert BlockBegin(e, 0) == 0 && BlockBegin(e, blocks) == e.rowCount;
    BestHits(hits, wanted, all);
    FrontOfAll(hits, wanted, limit, all);
    if |hits| != wanted {
      return Err(Underfilled(wanted, |hits|));
    }
    TopRowsOf(sidecar, query, e, wanted, hits);
    return Ok(hits);
  }

  lemma TopRowsOf(sidecar: Sidecar, query: Query, e: Eligible, limit: nat, hits: seq<Hit>)
    requires Scannable(sidecar, e) && Sorted(hits) && IsBest(multiset(hits), limit, RangeHits(sidecar, query, e, 0, e.rowCount))
    ensures StrictlyIncreasing(sidecar.ids) ==> AreTopRows(sidecar, query, MarkedRows(e), hits)
  {
    hide AreTopRows, IsBest, Sorted, RangeHits, WellFormed;
    if StrictlyIncreasing(sidecar.ids) {
      BestAreTopRows(sidecar, query, e, limit, hits);
    }
  }

  /**
    Marking the requested chunks and scanning: the highest scores among them, whatever the reduction
    and the kernel, and as many as there are and are wanted.
   */
  method ScanRequested(sidecar: Sidecar, query: Query, requested: set<nat>, limit: nat, processor: Processor, tree: Reduction)
    returns (r: Result<seq<Hit>, nat>)
    requires |sidecar.ids| == |sidecar.vectors| && StrictlyIncreasing(sidecar.ids)
    requires Covers(tree, 0, BlockCount(|sidecar.ids|))
    ensures r.Ok? <==> forall id :: id in requested ==> id in sidecar.ids
    ensures r.Ok? ==>
              && |r.value| == Min(limit, |requested|)
              && AreTopRows(sidecar, query, RequestedRows(sidecar, requested), r.value)
  {
    hide Covers, WellFormed, AreTopRows, RangeHits, IsBest, Sorted, ContainsRow;
    var eligible := EligibleRows(sidecar, requested);
    if eligible.Err? {
      return Err(eligible.error);
    }
    var e := eligible.value;
    assert MarkedRows(e) == RequestedRows(sidecar, requested);
    var hits := ScanSidecar(sidecar, query, e, limit, processor, tree);
    return Ok(hits.value);
  }

  lemma RangeSizeOf(sidecar: Sidecar, query: Query, e: Eligible)
    requires Scannable(sidecar, e)
    ensures |RangeHits(sidecar, query, e, 0, e.rowCount)| == e.eligibleCount
  {
    RangeSize(sidecar, query, e, e.rowCount);
  }

  lemma EmptyFront(all: multiset<Hit>, limit: nat)
    requires limit == 0 || |all| == 0
    ensures Sorted([]) && IsBest(multiset([]), Min(limit, |all|), all)
    ensures forall sorted: seq<Hit> :: multiset(sorted) == all ==> [] == sorted[..Min(limit, |sorted|)]
  {
    forall sorted: seq<Hit> | multiset(sorted) == all
      ensures [] == sorted[..Min(limit, |sorted|)]
    {
      assert |multiset(sorted)| == |sorted|;
    }
  }

  lemma BestHits(hits: seq<Hit>, wanted: nat, all: multiset<Hit>)
    requires IsBest(multiset(hits), wanted, all) && wanted <= |all|
    ensures |hits| == wanted
  {
    assert |multiset(hits)| == |hits|;
  }

  lemma FrontOfAll(hits: seq<Hit>, wanted: nat, limit: nat, all: multiset<Hit>)
    requires Sorted(hits) && IsBest(multiset(hits), wanted, all) && wanted == Min(limit, |all|)
    ensures forall sorted :: Sorted(sorted) && multiset(sorted) == all ==> hits == sorted[..Min(limit, |sorted|)]
  {
    forall sorted | Sorted(sorted) && multiset(sorted) == all
      ensures hits == sorted[..Min(limit, |sorted|)]
    {
      assert |multiset(sorted)| == |sorted|;
      BestSortedIsFront(hits, sorted, wanted);
    }
  }
}

/**
  The three dot-product kernels of the vector scan: the scalar one, the widened pairwise one and
  the unsigned-offset one. Vector instructions are modelled lane by lane with 32-bit wrap-around.
 */
module DotKernels {
  const DIM := 256
  const TWO_31 := 0x8000_0000
  const TWO_32 := 0x1_0000_0000

  type i8 = x: int | -128 <= x < 128

  /** Eight 32-bit lanes. */
  type Lanes = s: seq<int> | |s| == 8 witness [0, 0, 0, 0, 0, 0, 0, 0]

  type Query = s: seq<i8> | |s| == DIM witness seq(DIM, i => 0)

  /** The raw bytes of a stored vector. */
  type Document = s: seq<bv8> | |s| == DIM witness seq(DIM, i => 0 as bv8)

  function Wrap32(x: int): int {
    (x + TWO_31) % TWO_32 - TWO_31
  }

  lemma NoWrap(x: int)
    requires -TWO_31 <= x < TWO_31
    ensures Wrap32(x) == x
  {
  }

  /** A byte read as a signed component. */
  function Signed(b: bv8): i8 {
    if b < 0x80 then b as int else b as int - 256
  }

  /** Flipping the top bit turns a signed component into its unsigned offset by 128. */
  lemma FlipOffsets(b: bv8)
    ensures (b ^ 0x80) as int == Signed(b) + 128
  {
  }

  // ----- the reference -----

  ghost function Sum(f: nat -> int, n: nat): int {
    if n == 0 then 0 else Sum(f, n - 1) + f(n - 1)
  }

  ghost function Products(query: Query, document: Document): nat -> int {
    (i: nat) => if i < DIM then query[i] * Signed(document[i]) else 0
  }

  /** The signed dot product. */
  ghost function Dot(query: Query, document: Document): int {
    Sum(Products(query, document), DIM)
  }

  lemma {:induction false} SumBounded(f: nat -> int, bound: int, n: nat)
    requires 0 <= bound && forall i: nat :: -bound <= f(i) <= bound
    ensures -(bound * n) <= Sum(f, n) <= bound * n
  {
    if n > 0 {
      SumBounded(f, bound, n - 1);
    }
  }

  lemma MulNonNegative(x: int, y: int)
    requires 0 <= x && 0 <= y
    ensures 0 <= x * y
  {
  }

  lemma ProductBounded(a: int, b: int, bound: int)
    requires -bound <= a <= bound && -128 <= b <= 128
    ensures -(bound * 128) <= a * b <= bound * 128
  {
    MulNonNegative(bound - a, 128 - b);
    MulNonNegative(bound + a, 128 + b);
    MulNonNegative(bound - a, 128 + b);
    MulNonNegative(bound + a, 128 - b);
    assert (bound - a) * (128 - b) == bound * 128 - bound * b - a * 128 + a * b;
    assert (bound + a) * (128 + b) == bound * 128 + bound * b + a * 128 + a * b;
    assert (bound - a) * (128 + b) == bound * 128 + bound * b - a * 128 - a * b;
    assert (bound + a) * (128 - b) == bound * 128 - bound * b + a * 128 - a * b;
  }

  lemma ProductsBounded(query: Query, document: Document)
    ensures forall i: nat :: -16384 <= Products(query, document)(i) <= 16384
  {
    forall i: nat
      ensures -16384 <= Products(query, document)(i) <= 16384
    {
      if i < DIM {
        ProductBounded(query[i], Signed(document[i]), 128);
      }
    }
  }

  method DotScalar(query: Query, document: Document) returns (score: int)
    ensures score == Dot(query, document)
  {
    ghost var f := Products(query, document);
    ProductsBounded(query, document);
    score := 0;
    for i := 0 to DIM
      invariant score == Sum(f, i)
    {
      SumBounded(f, 16384, i + 1);
      score := Wrap32(score + query[i] * Signed(document[i]));
    }
  }

  // ----- lanes -----

  ghost function LaneSum(v: Lanes): int {
    v[0] + v[1] + v[2] + v[3] + v[4] + v[5] + v[6] + v[7]
  }

  ghost predicate LanesWithin(v: Lanes, bound: int) {
    forall l :: 0 <= l < 8 ==> -bound <= v[l] <= bound
  }

  function AddEpi32(a: Lanes, b: Lanes): Lanes {
    seq(8, l requires 0 <= l < 8 => Wrap32(a[l] + b[l]))
  }

  lemma AddExact(a: Lanes, b: Lanes, x: int, y: int)
    requires LanesWithin(a, x) && LanesWithin(b, y) && x + y < TWO_31
    ensures LaneSum(AddEpi32(a, b)) == LaneSum(a) + LaneSum(b)
    ensures LanesWithin(AddEpi32(a, b), x + y)
  {
    hide Wrap32;
    forall l | 0 <= l < 8
      ensures AddEpi32(a, b)[l] == a[l] + b[l]
    {
      NoWrap(a[l] + b[l]);
    }
  }

  /** Fold the upper half onto the lower one, then add neighbours twice. */
  function HorizontalSum(v: Lanes): int {
    var s0, s1, s2, s3 := Wrap32(v[0] + v[4]), Wrap32(v[1] + v[5]), Wrap32(v[2] + v[6]), Wrap32(v[3] + v[7]);
    Wrap32(Wrap32(s0 + s1) + Wrap32(s2 + s3))
  }

  lemma HorizontalExact(v: Lanes, bound: int)
    requires LanesWithin(v, bound) && 8 * bound < TWO_31
    ensures HorizontalSum(v) == LaneSum(v)
  {
    hide Wrap32;
    assert -bound <= v[0] <= bound && -bound <= v[1] <= bound && -bound <= v[2] <= bound && -bound <= v[3] <= bound;
    assert -bound <= v[4] <= bound && -bound <= v[5] <= bound && -bound <= v[6] <= bound && -bound <= v[7] <= bound;
    NoWrap(v[0] + v[4]);
    NoWrap(v[1] + v[5]);
    NoWrap(v[2] + v[6]);
    NoWrap(v[3] + v[7]);
    NoWrap(v[0] + v[4] + (v[1] + v[5]));
    NoWrap(v[2] + v[6] + (v[3] + v[7]));
    NoWrap(LaneSum(v));
  }

  /** Four running accumulators; block `i` goes to accumulator `i % 4`. */
  method SumAccumulators(a: seq<Lanes>, ghost bound: int, ghost total: int) returns (h: int)
    requires |a| == 4 && 32 * bound < TWO_31
    requires forall k :: 0 <= k < 4 ==> LanesWithin(a[k], bound)
    requires total == LaneSum(a[0]) + LaneSum(a[1]) + LaneSum(a[2]) + LaneSum(a[3])
    ensures h == total
  {
    hide LaneSum, AddEpi32, HorizontalSum, LanesWithin;
    AddExact(a[0], a[1], bound, bound);
    AddExact(a[2], a[3], bound, bound);
    AddExact(AddEpi32(a[0], a[1]), AddEpi32(a[2], a[3]), 2 * bound, 2 * bound);
    h := HorizontalSum(AddEpi32(AddEpi32(a[0], a[1]), AddEpi32(a[2], a[3])));
    HorizontalExact(AddEpi32(AddEpi32(a[0], a[1]), AddEpi32(a[2], a[3])), 4 * bound);
  }

  ghost function FourSum(a: seq<Lanes>): int
    requires |a| == 4
  {
    LaneSum(a[0]) + LaneSum(a[1]) + LaneSum(a[2]) + LaneSum(a[3])
  }

  /** Each lane `l` of the update adds `width` consecutive terms of `f`, starting at `start + width * l`. */
  ghost predicate AddsTerms(before: Lanes, after: Lanes, f: nat -> int, start: nat, width: nat) {
    forall l :: 0 <= l < 8 ==> after[l] == before[l] + Sum(f, start + width * l + width) - Sum(f, start + width * l)
  }

  lemma TermsAdded(before: Lanes, after: Lanes, f: nat -> int, start: nat, width: nat)
    requires AddsTerms(before, after, f, start, width)
    ensures LaneSum(after) == LaneSum(before) + Sum(f, start + 8 * width) - Sum(f, start)
  {
    hide Sum;
    assert forall l :: 0 <= l < 8 ==> start + width * l + width == start + width * (l + 1);
    assert after[0] == before[0] + Sum(f, start + width) - Sum(f, start);
    assert after[1] == before[1] + Sum(f, start + 2 * width) - Sum(f, start + width);
    assert after[2] == before[2] + Sum(f, start + 3 * width) - Sum(f, start + 2 * width);
    assert after[3] == before[3] + Sum(f, start + 4 * width) - Sum(f, start + 3 * width);
    assert after[4] == before[4] + Sum(f, start + 5 * width) - Sum(f, start + 4 * width);
    assert after[5] == before[5] + Sum(f, start + 6 * width) - Sum(f, start + 5 * width);
    assert after[6] == before[6] + Sum(f, start + 7 * width) - Sum(f, start + 6 * width);
    assert after[7] == before[7] + Sum(f, start + 8 * width) - Sum(f, start + 7 * width);
  }

  // ----- the unsigned-offset kernel -----

  datatype OffsetQuery = OffsetQuery(query: Query, correction: int)

  method PrepareOffset(query: Query) returns (prepared: OffsetQuery)
    ensures prepared == OffsetQuery(query, 128 * Sum(Components(query), DIM))
  {
    ghost var f := Components(query);
    var total := 0;
    for i := 0 to DIM
      invariant total == Sum(f, i)
    {
      SumBounded(f, 128, i + 1);
      total := Wrap32(total + query[i]);
    }
    SumBounded(f, 128, DIM);
    prepared := OffsetQuery(query, Wrap32(128 * total));
  }

  ghost function Components(query: Query): nat -> int {
    (i: nat) => if i < DIM then query[i] as int else 0
  }

  ghost function OffsetProducts(query: Query, document: Document): nat -> int {
    (i: nat) => if i < DIM then (Signed(document[i]) + 128) * query[i] else 0
  }

  lemma OffsetProductsBounded(query: Query, document: Document)
    ensures forall i: nat :: -32768 <= OffsetProducts(query, document)(i) <= 32768
  {
    forall i: nat
      ensures -32768 <= OffsetProducts(query, document)(i) <= 32768
    {
      if i < DIM {
        ProductBounded(Signed(document[i]) + 128, query[i], 256);
      }
    }
  }

  /** The correction restores the signed product exactly. */
  lemma {:induction false} OffsetCorrects(query: Query, document: Document, n: nat)
    requires n <= DIM
    ensures Sum(OffsetProducts(query, document), n)
            == Sum(Products(query, document), n) + 128 * Sum(Components(query), n)
  {
    hide Products, OffsetProducts, Components;
    if n > 0 {
      OffsetCorrects(query, document, n - 1);
      OffsetOne(query, document, n - 1);
    }
  }

  lemma OffsetOne(query: Query, document: Document, i: nat)
    requires i < DIM
    ensures OffsetProducts(query, document)(i) == Products(query, document)(i) + 128 * Components(query)(i)
  {
    hide Signed;
    var d, q := Signed(document[i]) as int, query[i] as int;
    assert (d + 128) * q == q * d + 128 * q;
  }

  /** Multiply unsigned by signed bytes, four to a lane, and add to the lane. */
  function Dpbusd(acc: Lanes, unsigned: seq<int>, signed: seq<int>): Lanes
    requires |unsigned| == |signed| == 32
  {
    seq(8, l requires 0 <= l < 8 =>
      Wrap32(acc[l] + unsigned[4 * l] * signed[4 * l] + unsigned[4 * l + 1] * signed[4 * l + 1]
             + unsigned[4 * l + 2] * signed[4 * l + 2] + unsigned[4 * l + 3] * signed[4 * l + 3]))
  }

  function Flip(document: Document, start: nat): (r: seq<int>)
    requires start + 32 <= DIM
    ensures |r| == 32 && forall i :: 0 <= i < 32 ==> r[i] == Signed(document[start + i]) + 128
  {
    FlipAll(document);
    seq(32, i requires 0 <= i < 32 => (document[start + i] ^ 0x80) as int)
  }

  lemma FlipAll(document: Document)
    ensures forall i :: 0 <= i < DIM ==> (document[i] ^ 0x80) as int == Signed(document[i]) + 128
  {
    forall i | 0 <= i < DIM
      ensures (document[i] ^ 0x80) as int == Signed(document[i]) + 128
    {
      FlipOffsets(document[i]);
    }
  }

  function Widen(query: seq<i8>): (r: seq<int>)
    ensures |r| == |query| && forall i :: 0 <= i < |r| ==> r[i] == query[i]
  {
    seq(|query|, i requires 0 <= i < |query| => query[i] as int)
  }

  lemma Sum4(f: nat -> int, n: nat)
    ensures Sum(f, n + 4) == Sum(f, n) + f(n) + f(n + 1) + f(n + 2) + f(n + 3)
  {
    assert Sum(f, n + 4) == Sum(f, n + 3) + f(n + 3);
    assert Sum(f, n + 3) == Sum(f, n + 2) + f(n + 2);
    assert Sum(f, n + 2) == Sum(f, n + 1) + f(n + 1);
  }

  lemma OffsetTerm(query: Query, document: Document, start: nat, i: nat)
    requires start + 32 <= DIM && i < 32
    ensures Flip(document, start)[i] * Widen(query[start..start + 32])[i] == OffsetProducts(query, document)(start + i)
  {
  }

  lemma DpbusdLane(acc: Lanes, query: Query, document: Document, start: nat, bound: int, l: nat)
    requires start + 32 <= DIM && l < 8 && -bound <= acc[l] <= bound && 0 <= bound && bound + 131072 < TWO_31
    requires forall i: nat :: -32768 <= OffsetProducts(query, document)(i) <= 32768
    ensures var f := OffsetProducts(query, document);
            var after := Dpbusd(acc, Flip(document, start), Widen(query[start..start + 32]));
            && after[l] == acc[l] + Sum(f, start + 4 * l + 4) - Sum(f, start + 4 * l)
            && -(bound + 131072) <= after[l] <= bound + 131072
  {
    hide OffsetProducts, Flip, Widen, Sum, Wrap32;
    var f := OffsetProducts(query, document);
    var at := start + 4 * l;
    Sum4(f, at);
    OffsetTerm(query, document, start, 4 * l);
    OffsetTerm(query, document, start, 4 * l + 1);
    OffsetTerm(query, document, start, 4 * l + 2);
    OffsetTerm(query, document, start, 4 * l + 3);
    assert start + (4 * l + 1) == at + 1 && start + (4 * l + 2) == at + 2 && start + (4 * l + 3) == at + 3;
    NoWrap(acc[l] + f(at) + f(at + 1) + f(at + 2) + f(at + 3));
  }

  lemma DpbusdExact(acc: Lanes, query: Query, document: Document, start: nat, bound: int)
    requires start + 32 <= DIM && LanesWithin(acc, bound) && 0 <= bound && bound + 131072 < TWO_31
    ensures var after := Dpbusd(acc, Flip(document, start), Widen(query[start..start + 32]));
            && AddsTerms(acc, after, OffsetProducts(query, document), start, 4)
            && LanesWithin(after, bound + 131072)
  {
    hide OffsetProducts, Flip, Widen, Sum, Wrap32, Dpbusd;
    OffsetProductsBounded(query, document);
    forall l | 0 <= l < 8
      ensures var f := OffsetProducts(query, document);
              var after := Dpbusd(acc, Flip(document, start), Widen(query[start..start + 32]));
              && after[l] == acc[l] + Sum(f, start + 4 * l + 4) - Sum(f, start + 4 * l)
              && -(bound + 131072) <= after[l] <= bound + 131072
    {
      DpbusdLane(acc, query, document, start, bound, l);
    }
  }

  /** The accumulators after some blocks: their total is the sum of the terms so far, with room to spare. */
  ghost predicate Accumulated(a: seq<Lanes>, f: nat -> int, terms: nat, bound: int) {
    && |a| == 4
    && (forall k :: 0 <= k < 4 ==> LanesWithin(a[k], bound))
    && FourSum(a) == Sum(f, terms)
  }

  lemma NothingAccumulated(f: nat -> int)
    ensures Accumulated([[0, 0, 0, 0, 0, 0, 0, 0], [0, 0, 0, 0, 0, 0, 0, 0],
                         [0, 0, 0, 0, 0, 0, 0, 0], [0, 0, 0, 0, 0, 0, 0, 0]], f, 0, 0)
  {
  }

  lemma AccumulateBlock(a: seq<Lanes>, f: nat -> int, width: nat, block: nat, bound: int, step: int, after: Lanes)
    requires Accumulated(a, f, 8 * width * block, bound) && 0 <= step
    requires AddsTerms(a[block % 4], after, f, 8 * width * block, width) && LanesWithin(after, bound + step)
    ensures Accumulated(a[block % 4 := after], f, 8 * width * (block + 1), bound + step)
  {
    hide Sum, LaneSum, AddsTerms;
    TermsAdded(a[block % 4], after, f, 8 * width * block, width);
    assert 8 * width * (block + 1) == 8 * width * block + 8 * width;
  }

  method DotOffset(document: Document, prepared: OffsetQuery, ghost query: Query) returns (score: int)
    requires prepared == OffsetQuery(query, 128 * Sum(Components(query), DIM))
    ensures score == Dot(query, document)
  {
    hide OffsetProducts, Products, Components, Sum, Flip, Widen, Dpbusd, LanesWithin, AddsTerms, Accumulated, FourSum;
    ghost var f := OffsetProducts(query, document);
    var a: seq<Lanes> := [[0, 0, 0, 0, 0, 0, 0, 0], [0, 0, 0, 0, 0, 0, 0, 0],
                          [0, 0, 0, 0, 0, 0, 0, 0], [0, 0, 0, 0, 0, 0, 0, 0]];
    NothingAccumulated(f);
    for i := 0 to 8
      invariant |a| == 4 && Accumulated(a, f, 8 * 4 * i, 131072 * i)
    {
      var after := Dpbusd(a[i % 4], Flip(document, 32 * i), Widen(prepared.query[32 * i..32 * i + 32]));
      AccumulatedWithin(a, f, 8 * 4 * i, 131072 * i, i % 4);
      DpbusdExact(a[i % 4], query, document, 32 * i, 131072 * i);
      AccumulateBlock(a, f, 4, i, 131072 * i, 131072, after);
      a := a[i % 4 := after];
    }
    AccumulatedTotal(a, f, 256, 131072 * 8);
    var h := SumAccumulators(a, 131072 * 8, Sum(f, 256));
    OffsetCorrects(query, document, DIM);
    ProductsBounded(query, document);
    SumBounded(Products(query, document), 16384, DIM);
    score := Wrap32(h - prepared.correction);
  }

  lemma AccumulatedWithin(a: seq<Lanes>, f: nat -> int, terms: nat, bound: int, k: nat)
    requires Accumulated(a, f, terms, bound) && k < 4
    ensures LanesWithin(a[k], bound)
  {
  }

  lemma AccumulatedTotal(a: seq<Lanes>, f: nat -> int, terms: nat, bound: int)
    requires Accumulated(a, f, terms, bound)
    ensures |a| == 4 && forall k :: 0 <= k < 4 ==> LanesWithin(a[k], bound)
    ensures LaneSum(a[0]) + LaneSum(a[1]) + LaneSum(a[2]) + LaneSum(a[3]) == Sum(f, terms)
  {
    hide LaneSum, LanesWithin, Sum;
  }

  // ----- the widened pairwise kernel -----

  function WidenDocument(document: Document, start: nat): (r: seq<int>)
    requires start + 16 <= DIM
    ensures |r| == 16 && forall i :: 0 <= i < 16 ==> r[i] == Signed(document[start + i])
  {
    seq(16, i requires 0 <= i < 16 => Signed(document[start + i]) as int)
  }

  /** Multiply sixteen-bit components and add neighbours. */
  function MaddEpi16(a: seq<int>, b: seq<int>): Lanes
    requires |a| == |b| == 16
  {
    seq(8, l requires 0 <= l < 8 => Wrap32(a[2 * l] * b[2 * l] + a[2 * l + 1] * b[2 * l + 1]))
  }

  lemma MaddLane(acc: Lanes, query: Query, document: Document, start: nat, bound: int, l: nat)
    requires start + 16 <= DIM && l < 8 && -bound <= acc[l] <= bound && 0 <= bound && bound + 32768 < TWO_31
    requires forall i: nat :: -16384 <= Products(query, document)(i) <= 16384
    ensures var f := Products(query, document);
            var after := AddEpi32(acc, MaddEpi16(WidenDocument(document, start), Widen(query[start..start + 16])));
            && after[l] == acc[l] + Sum(f, start + 2 * l + 2) - Sum(f, start + 2 * l)
            && -(bound + 32768) <= after[l] <= bound + 32768
  {
    hide Products, WidenDocument, Widen, Wrap32;
    var f := Products(query, document);
    var at := start + 2 * l;
    assert Sum(f, at + 2) == Sum(f, at + 1) + f(at + 1);
    MaddTerm(query, document, start, 2 * l);
    MaddTerm(query, document, start, 2 * l + 1);
    assert start + (2 * l + 1) == at + 1;
    NoWrap(f(at) + f(at + 1));
    NoWrap(acc[l] + (f(at) + f(at + 1)));
  }

  lemma MaddTerm(query: Query, document: Document, start: nat, i: nat)
    requires start + 16 <= DIM && i < 16
    ensures WidenDocument(document, start)[i] * Widen(query[start..start + 16])[i] == Products(query, document)(start + i)
  {
    hide WidenDocument, Widen, Signed;
    assert Widen(query[start..start + 16])[i] == query[start + i];
    assert WidenDocument(document, start)[i] == Signed(document[start + i]);
  }

  lemma MaddExact(acc: Lanes, query: Query, document: Document, start: nat, bound: int)
    requires start + 16 <= DIM && LanesWithin(acc, bound) && 0 <= bound && bound + 32768 < TWO_31
    ensures var after := AddEpi32(acc, MaddEpi16(WidenDocument(document, start), Widen(query[start..start + 16])));
            && AddsTerms(acc, after, Products(query, document), start, 2)
            && LanesWithin(after, bound + 32768)
  {
    hide Products, WidenDocument, Widen, Sum, Wrap32, AddEpi32, MaddEpi16;
    ProductsBounded(query, document);
    forall l | 0 <= l < 8
      ensures var f := Products(query, document);
              var after := AddEpi32(acc, MaddEpi16(WidenDocument(document, start), Widen(query[start..start + 16])));
              && after[l] == acc[l] + Sum(f, start + 2 * l + 2) - Sum(f, start + 2 * l)
              && -(bound + 32768) <= after[l] <= bound + 32768
    {
      MaddLane(acc, query, document, start, bound, l);
    }
  }

  method DotWidened(document: Document, query: Query) returns (score: int)
    ensures score == Dot(query, document)
  {
    hide Products, Sum, Widen, WidenDocument, AddEpi32, MaddEpi16, LanesWithin, AddsTerms, Accumulated, FourSum;
    ghost var f := Products(query, document);
    var a: seq<Lanes> := [[0, 0, 0, 0, 0, 0, 0, 0], [0, 0, 0, 0, 0, 0, 0, 0],
                          [0, 0, 0, 0, 0, 0, 0, 0], [0, 0, 0, 0, 0, 0, 0, 0]];
    NothingAccumulated(f);
    for i := 0 to 16
      invariant |a| == 4 && Accumulated(a, f, 8 * 2 * i, 32768 * i)
    {
      var after := AddEpi32(a[i % 4], MaddEpi16(WidenDocument(document, 16 * i), Widen(query[16 * i..16 * i + 16])));
      AccumulatedWithin(a, f, 8 * 2 * i, 32768 * i, i % 4);
      MaddExact(a[i % 4], query, document, 16 * i, 32768 * i);
      AccumulateBlock(a, f, 2, i, 32768 * i, 32768, after);
      a := a[i % 4 := after];
    }
    AccumulatedTotal(a, f, 256, 32768 * 16);
    score := SumAccumulators(a, 32768 * 16, Sum(f, 256));
  }

  // ----- whichever kernel the processor offers -----

  datatype PreparedDot = Offset(prepared: OffsetQuery) | Widened(query: Query) | Scalar(query: Query)

  datatype Processor = Processor(vnni: bool, avx2: bool)

  ghost predicate Prepares(dot: PreparedDot, query: Query) {
    match dot
    case Offset(prepared) => prepared == OffsetQuery(query, 128 * Sum(Components(query), DIM))
    case Widened(q) => q == query
    case Scalar(q) => q == query
  }

  method Prepare(query: Query, processor: Processor) returns (dot: PreparedDot)
    ensures Prepares(dot, query)
  {
    if processor.vnni && processor.avx2 {
      var prepared := PrepareOffset(query);
      return Offset(prepared);
    }
    return if processor.avx2 then Widened(query) else Scalar(query);
  }

  /** Every kernel gives the signed dot product, on every processor. */
  method Score(dot: PreparedDot, document: Document, ghost query: Query) returns (score: int)
    requires Prepares(dot, query)
    ensures score == Dot(query, document)
  {
    match dot
    case Offset(prepared) => score := DotOffset(document, prepared, query);
    case Widened(q) => score := DotWidened(document, q);
    case Scalar(q) => score := DotScalar(q, document);
  }
}

/**
  The bounded heap behind the exact vector scan. Whatever is pushed, merged and in whatever order,
  it holds exactly the best hits seen so far.
 */
module TopK {
  import opened Common

  datatype Hit = Hit(chunkId: nat, score: int)

  /** Higher scores first, exact ties by smaller chunk id. */
  predicate Better(a: Hit, b: Hit) {
    a.score > b.score || (a.score == b.score && a.chunkId < b.chunkId)
  }

  lemma MultisetAtMost(m: multiset<Hit>, n: multiset<Hit>)
    requires m <= n
    ensures |m| <= |n| && (|m| == |n| ==> m == n)
  {
    assert n == m + (n - m);
    if |m| == |n| {
      assert n - m == multiset{};
    }
  }

  /** A larger multiset holds some element more often. */
  lemma HoldsMore(m: multiset<Hit>, n: multiset<Hit>) returns (x: Hit)
    requires |m| >= |n| && m != n
    ensures m[x] > n[x]
  {
    if m <= n {
      MultisetAtMost(m, n);
      assert false;
    }
    x :| x in m && m[x] > n[x];
  }

  /** `kept` are the best `limit` elements of `all`. */
  ghost predicate IsBest(kept: multiset<Hit>, limit: nat, all: multiset<Hit>) {
    && kept <= all
    && |kept| == Min(limit, |all|)
    && forall x, y :: x in kept && y in all - kept ==> !Better(y, x)
  }

  /** In scores and ids: every hit left out scores less than every hit kept, or the same with an id not smaller. */
  ghost predicate AreHighest(kept: multiset<Hit>, all: multiset<Hit>) {
    forall x, y :: x in kept && y in all - kept ==> y.score < x.score || (y.score == x.score && x.chunkId <= y.chunkId)
  }

  /** In scores and ids: scores fall, and among equal scores ids do not fall. */
  ghost predicate Descends(hits: seq<Hit>) {
    forall i, j :: 0 <= i < j < |hits| ==>
      hits[i].score > hits[j].score || (hits[i].score == hits[j].score && hits[i].chunkId <= hits[j].chunkId)
  }

  lemma BestIsHighest(kept: multiset<Hit>, limit: nat, all: multiset<Hit>)
    ensures IsBest(kept, limit, all) <==> kept <= all && |kept| == Min(limit, |all|) && AreHighest(kept, all)
  {
    if IsBest(kept, limit, all) {
      forall x, y | x in kept && y in all - kept ensures y.score < x.score || (y.score == x.score && x.chunkId <= y.chunkId) {
        assert !Better(y, x);
      }
    }
  }

  lemma KeptAndDroppedAgree(a: multiset<Hit>, b: multiset<Hit>, limit: nat, all: multiset<Hit>, x: Hit, y: Hit)
    requires IsBest(a, limit, all) && IsBest(b, limit, all)
    requires 0 < a[x] && b[x] < all[x] && 0 < b[y] && a[y] < all[y]
    ensures x == y
  {
    assert x in all - b && y in all - a;
  }

  /** There is only one such selection. */
  lemma BestIsUnique(a: multiset<Hit>, b: multiset<Hit>, limit: nat, all: multiset<Hit>)
    requires IsBest(a, limit, all) && IsBest(b, limit, all)
    ensures a == b
  {
    if a != b {
      var x := HoldsMore(a, b);
      var y := HoldsMore(b, a);
      KeptAndDroppedAgree(a, b, limit, all, x, y);
      assert false;
    }
  }

  lemma BestOfFew(kept: multiset<Hit>, limit: nat, all: multiset<Hit>)
    requires IsBest(kept, limit, all) && |kept| < limit
    ensures kept == all
  {
    MultisetAtMost(kept, all);
  }

  lemma PushRoom(kept: multiset<Hit>, limit: nat, all: multiset<Hit>, hit: Hit)
    requires IsBest(kept, limit, all) && |kept| < limit
    ensures IsBest(kept + multiset{hit}, limit, all + multiset{hit})
  {
    BestOfFew(kept, limit, all);
    assert (all + multiset{hit}) - (kept + multiset{hit}) == multiset{};
  }

  ghost predicate IsWorst(worst: Hit, kept: multiset<Hit>) {
    worst in kept && forall x :: x in kept ==> !Better(worst, x)
  }

  lemma PushReplaces(kept: multiset<Hit>, limit: nat, all: multiset<Hit>, hit: Hit, worst: Hit)
    requires IsBest(kept, limit, all) && |kept| == limit
    requires IsWorst(worst, kept) && Better(hit, worst)
    ensures IsBest(kept - multiset{worst} + multiset{hit}, limit, all + multiset{hit})
  {
    var kept' := kept - multiset{worst} + multiset{hit};
    var all' := all + multiset{hit};
    assert all' - kept' == (all - kept) + multiset{worst};
  }

  lemma PushRejects(kept: multiset<Hit>, limit: nat, all: multiset<Hit>, hit: Hit)
    requires IsBest(kept, limit, all) && |kept| == limit
    requires limit == 0 || exists worst :: IsWorst(worst, kept) && !Better(hit, worst)
    ensures IsBest(kept, limit, all + multiset{hit})
  {
    var all' := all + multiset{hit};
    assert all' - kept == (all - kept) + multiset{hit};
    MultisetAtMost(kept, all);
  }

  lemma RetainedDropout(kept: multiset<Hit>, limit: nat, all: multiset<Hit>, x: Hit, z: Hit)
    requires IsBest(kept, limit, all) && x in kept && kept[z] < all[z]
    ensures !Better(z, x)
  {
    assert z in all - kept;
  }

  /** The best of a set may be found by replacing a part of it by that part's best. */
  lemma MergeBest(kept: multiset<Hit>, limit: nat, left: multiset<Hit>, right: multiset<Hit>, rightKept: multiset<Hit>)
    requires IsBest(rightKept, limit, right) && IsBest(kept, limit, left + rightKept)
    ensures IsBest(kept, limit, left + right)
  {
    MultisetAtMost(rightKept, right);
    var all := left + right;
    forall x, y | x in kept && y in all - kept
      ensures !Better(y, x)
    {
      if Better(y, x) && y !in (left + rightKept) - kept {
        assert y in right - rightKept;
        assert |rightKept| == limit == |kept|;
        var others := kept - multiset{x};
        assert |others| < |kept|;
        var z := HoldsMore(rightKept, others);
        RetainedDropout(kept, limit, left + rightKept, x, z);
        assert false;
      }
    }
  }

  lemma SomeWorst(kept: multiset<Hit>) returns (worst: Hit)
    requires kept != multiset{}
    ensures IsWorst(worst, kept)
    decreases |kept|
  {
    var x :| x in kept;
    var rest := kept - multiset{x};
    if rest == multiset{} {
      assert kept == multiset{x};
      return x;
    }
    var w := SomeWorst(rest);
    assert kept == rest + multiset{x};
    worst := if Better(w, x) then x else w;
  }

  lemma SomeBest(kept: multiset<Hit>) returns (best: Hit)
    requires kept != multiset{}
    ensures best in kept && forall x :: x in kept ==> !Better(x, best)
    decreases |kept|
  {
    var x :| x in kept;
    var rest := kept - multiset{x};
    if rest == multiset{} {
      assert kept == multiset{x};
      return x;
    }
    var b := SomeBest(rest);
    assert kept == rest + multiset{x};
    best := if Better(x, b) then x else b;
  }

  ghost predicate Sorted(hits: seq<Hit>) {
    forall i, j :: 0 <= i < j < |hits| ==> !Better(hits[j], hits[i])
  }

  lemma SortedDescends(hits: seq<Hit>)
    ensures Sorted(hits) <==> Descends(hits)
  {
  }

  lemma MoveOne(before: multiset<Hit>, pushed: multiset<Hit>, rest: multiset<Hit>, hit: Hit)
    requires hit in rest
    ensures (before + pushed) + multiset{hit} == before + (pushed + multiset{hit})
    ensures (pushed + multiset{hit}) + (rest - multiset{hit}) == pushed + rest
    ensures |rest - multiset{hit}| < |rest|
  {
  }

  /** The heap with its limit; `seen` is everything it was ever given. */
  class Heap {
    const limit: nat
    var heap: multiset<Hit>
    ghost var seen: multiset<Hit>

    ghost predicate Valid()
      reads this
    {
      IsBest(heap, limit, seen)
    }

    constructor (limit: nat)
      ensures Valid() && this.limit == limit && seen == multiset{}
    {
      this.limit := limit;
      heap := multiset{};
      seen := multiset{};
    }

    /** The root of the heap: the worst retained hit. */
    method Peek() returns (worst: Option<Hit>)
      ensures worst.None? <==> heap == multiset{}
      ensures worst.Some? ==> IsWorst(worst.value, heap)
    {
      if |heap| == 0 {
        return None;
      }
      ghost var some := SomeWorst(heap);
      var w :| w in heap && forall x | x in heap :: !Better(w, x);
      return Some(w);
    }

    method Push(hit: Hit)
      requires Valid()
      modifies this
      ensures Valid() && seen == old(seen) + multiset{hit}
      ensures heap <= seen && |heap| == Min(limit, |seen|) && AreHighest(heap, seen)
    {
      hide IsBest, Better, AreHighest;
      BestIsHighest(heap, limit, seen);
      seen := seen + multiset{hit};
      if |heap| < limit {
        PushRoom(heap, limit, old(seen), hit);
        heap := heap + multiset{hit};
      } else {
        var worst := Peek();
        if worst.Some? && Better(hit, worst.value) {
          PushReplaces(heap, limit, old(seen), hit, worst.value);
          heap := heap - multiset{worst.value};
          heap := heap + multiset{hit};
        } else {
          PushRejects(heap, limit, old(seen), hit);
        }
      }
      BestIsHighest(heap, limit, seen);
    }

    /** Push the retained hits of `other`, in any order: the result is the best of both histories. */
    method Merge(other: Heap)
      requires Valid() && other.Valid() && other != this && other.limit == limit
      modifies this
      ensures Valid() && seen == old(seen) + other.seen
      ensures heap <= seen && |heap| == Min(limit, |seen|) && AreHighest(heap, seen)
    {
      hide IsBest, Better, AreHighest;
      var rest := other.heap;
      ghost var pushed: multiset<Hit> := multiset{};
      ghost var before := seen;
      while rest != multiset{}
        invariant Valid() && unchanged(other)
        invariant seen == before + pushed && pushed + rest == other.heap
        decreases |rest|
      {
        var hit :| hit in rest;
        Push(hit);
        MoveOne(before, pushed, rest, hit);
        pushed := pushed + multiset{hit};
        rest := rest - multiset{hit};
      }
      assert pushed == other.heap;
      MergeBest(heap, limit, old(seen), other.seen, other.heap);
      seen := old(seen) + other.seen;
      BestIsHighest(heap, limit, seen);
    }

    method IntoSorted() returns (hits: seq<Hit>)
      ensures multiset(hits) == heap && Sorted(hits) && Descends(hits)
    {
      hits := [];
      var rest := heap;
      while rest != multiset{}
        invariant multiset(hits) + rest == heap
        invariant Sorted(hits)
        invariant forall x, i :: x in rest && 0 <= i < |hits| ==> !Better(x, hits[i])
        decreases |rest|
      {
        ghost var some := SomeBest(rest);
        var best :| best in rest && forall x | x in rest :: !Better(x, best);
        hits := hits + [best];
        rest := rest - multiset{best};
      }
      SortedDescends(hits);
    }
  }

  // ----- against sorting everything -----

  lemma {:induction false} SortedIsUnique(a: seq<Hit>, b: seq<Hit>)
    requires Sorted(a) && Sorted(b) && multiset(a) == multiset(b)
    ensures a == b
    decreases |a|
  {
    hide Better;
    assert |a| == |multiset(a)| == |b|;
    if a != [] {
      var i := Occurs(a, b, 0);
      var j := Occurs(b, a, 0);
      SameHit(a[0], b[0]);
      TailContents(a);
      TailContents(b);
      SortedIsUnique(a[1..], b[1..]);
      assert a == [a[0]] + a[1..] && b == [b[0]] + b[1..];
    }
  }

  lemma SameHit(a: Hit, b: Hit)
    ensures !Better(a, b) && !Better(b, a) ==> a == b
    ensures !Better(a, a)
  {
  }

  /** The front of the fully sorted hits is the best selection. */
  lemma SortedFrontIsBest(sorted: seq<Hit>, limit: nat)
    requires Sorted(sorted)
    ensures IsBest(multiset(sorted[..Min(limit, |sorted|)]), limit, multiset(sorted))
  {
    hide Better;
    var n := Min(limit, |sorted|);
    var front, back := sorted[..n], sorted[n..];
    FrontAndBack(sorted, n);
    forall x, y | x in multiset(front) && y in multiset(sorted) - multiset(front) ensures !Better(y, x) {
      var i :| 0 <= i < |front| && front[i] == x;
      assert y in multiset(back);
      var j :| 0 <= j < |back| && back[j] == y;
      assert x == sorted[i] && y == sorted[n + j];
    }
  }

  lemma FrontAndBack(s: seq<Hit>, n: nat)
    requires n <= |s|
    ensures multiset(s[..n]) <= multiset(s) && multiset(s) - multiset(s[..n]) == multiset(s[n..])
    ensures |multiset(s[..n])| == n && |multiset(s)| == |s|
  {
    assert s == s[..n] + s[n..];
  }

  /** The accelerator equals sort-and-truncate: its sorted output is the front of everything sorted. */
  lemma BestSortedIsFront(hits: seq<Hit>, sorted: seq<Hit>, limit: nat)
    requires Sorted(hits) && Sorted(sorted) && IsBest(multiset(hits), limit, multiset(sorted))
    ensures hits == sorted[..Min(limit, |sorted|)]
  {
    var front := sorted[..Min(limit, |sorted|)];
    SortedFrontIsBest(sorted, limit);
    BestIsUnique(multiset(hits), multiset(front), limit, multiset(sorted));
    SortedIsUnique(hits, front);
  }
}

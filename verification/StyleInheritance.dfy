/**
  Inheritance along references: a paragraph style is based on another style (section 17.7.4.3 of
  ECMA-376 Part 1), a numbering instance may take its levels from the instance of a linked style.
  Values are resolved recursively, remembered, and guarded against cycles and deep chains.
 */
module StyleInheritance {
  import opened Common

  const MAX_REFERENCE_DEPTH := 128

  /** Where an item inherits from. `Broken` stands for a link that leads nowhere. */
  datatype Link<K> = Root | Base(to: K) | Broken

  /** The items, and how an item's value follows from the inherited one, if it does. */
  datatype Source<!K(==), !V> = Source(links: map<K, Link<K>>, derive: (K, Option<V>) -> Option<V>)

  // ----- plain recursion -----

  /** The value of `k` by plain recursion along its links, no deeper than `fuel`. */
  function Eval<K, V>(src: Source<K, V>, k: K, fuel: nat): Option<V> {
    if fuel == 0 || k !in src.links then None
    else
      match src.links[k]
      case Root => src.derive(k, None)
      case Broken => None
      case Base(b) =>
        var inherited := Eval(src, b, fuel - 1);
        if inherited.None? then None else src.derive(k, inherited)
  }

  ghost predicate HasValue<K, V>(src: Source<K, V>, k: K, v: V) {
    exists fuel: nat :: Eval(src, k, fuel) == Some(v)
  }

  lemma {:induction false} MoreFuel<K, V>(src: Source<K, V>, k: K, fuel: nat, more: nat)
    requires Eval(src, k, fuel).Some? && fuel <= more
    ensures Eval(src, k, more) == Eval(src, k, fuel)
  {
    if src.links[k].Base? {
      MoreFuel(src, src.links[k].to, fuel - 1, more - 1);
    }
  }

  /** An item has at most one value. */
  lemma ValueIsUnique<K, V>(src: Source<K, V>, k: K, v: V, w: V)
    requires HasValue(src, k, v) && HasValue(src, k, w)
    ensures v == w
  {
    var f: nat :| Eval(src, k, f) == Some(v);
    var g: nat :| Eval(src, k, g) == Some(w);
    MoreFuel(src, k, f, f + g);
    MoreFuel(src, k, g, f + g);
  }

  /** Items each of which inherits from the next. */
  ghost predicate IsChain<K, V>(src: Source<K, V>, path: seq<K>) {
    forall i :: 0 <= i < |path| - 1 ==> path[i] in src.links && src.links[path[i]] == Base(path[i + 1])
  }

  lemma {:induction false} EvalAlong<K, V>(src: Source<K, V>, path: seq<K>, fuel: nat)
    requires path != [] && IsChain(src, path) && Eval(src, path[0], fuel).Some?
    ensures |path| <= fuel && Eval(src, path[|path| - 1], fuel - (|path| - 1)).Some?
  {
    if |path| > 1 {
      assert src.links[path[0]] == Base(path[1]);
      assert forall i :: 0 <= i < |path[1..]| - 1 ==> path[1..][i] == path[i + 1];
      EvalAlong(src, path[1..], fuel - 1);
    }
  }

  /** What inherits from itself has no value, at any depth. */
  lemma {:induction false} CyclesFail<K, V>(src: Source<K, V>, path: seq<K>, fuel: nat)
    requires |path| > 1 && IsChain(src, path) && path[0] == path[|path| - 1]
    ensures Eval(src, path[0], fuel).None?
    decreases fuel
  {
    if Eval(src, path[0], fuel).Some? {
      EvalAlong(src, path, fuel);
      CyclesFail(src, path, fuel - (|path| - 1));
    }
  }

  /** Nor has what inherits, however indirectly, from a missing item or a broken link. */
  lemma MissingBaseFails<K, V>(src: Source<K, V>, path: seq<K>, fuel: nat)
    requires path != [] && IsChain(src, path)
    requires path[|path| - 1] in src.links ==> src.links[path[|path| - 1]].Broken?
    ensures Eval(src, path[0], fuel).None?
  {
    if Eval(src, path[0], fuel).Some? {
      EvalAlong(src, path, fuel);
    }
  }

  // ----- remembering -----

  /** How many items are met before a remembered one. */
  function Uncached<K, V>(src: Source<K, V>, cached: set<K>, k: K, fuel: nat): nat {
    if k in cached then 0
    else if fuel == 0 || k !in src.links || !src.links[k].Base? then 1
    else 1 + Uncached(src, cached, src.links[k].to, fuel - 1)
  }

  ghost predicate IsRight<K, V>(src: Source<K, V>, cached: map<K, V>) {
    forall k :: k in cached ==> HasValue(src, k, cached[k])
  }

  /** The value exists, and the items in progress leave enough depth to reach a remembered item. */
  ghost predicate Resolvable<K, V>(src: Source<K, V>, cached: set<K>, inProgress: nat, k: K) {
    exists fuel: nat :: CanReach(src, cached, inProgress, k, fuel)
  }

  ghost predicate CanReach<K, V>(src: Source<K, V>, cached: set<K>, inProgress: nat, k: K, fuel: nat) {
    Eval(src, k, fuel).Some? && inProgress + Uncached(src, cached, k, fuel) <= MAX_REFERENCE_DEPTH
  }

  datatype ResolveError<K> = TooDeep | Cycle(at: K) | Missing(id: K) | BrokenLink(at: K) | Invalid(at: K)

  class Resolver<K(!new, ==), V(!new)> {
    const src: Source<K, V>
    var resolving: set<K>
    var resolved: map<K, V>
    ghost var path: seq<K>

    constructor (src: Source<K, V>)
      ensures this.src == src && Valid() && path == [] && resolved == map[]
    {
      this.src := src;
      resolving, resolved, path := {}, map[], [];
    }

    /** The items in progress are a chain of items not remembered yet; remembered values are right. */
    ghost predicate Valid()
      reads this
    {
      && IsRight(src, resolved)
      && IsChain(src, path)
      && (forall k :: k in resolving <==> k in path)
      && |resolving| == |path| <= MAX_REFERENCE_DEPTH
      && forall k :: k in path ==> k !in resolved
    }

    /** `k` is what the last item in progress inherits from. */
    ghost predicate IsNext(k: K)
      reads this
    {
      IsChain(src, path + [k])
    }

    method Resolve(k: K) returns (r: Result<V, ResolveError<K>>)
      requires Valid() && IsNext(k)
      modifies this
      ensures r.Ok? <==> old(Resolvable(src, resolved.Keys, |resolving|, k))
      ensures r.Ok? ==> HasValue(src, k, r.value)
      ensures r.Ok? ==> Valid() && resolving == old(resolving) && path == old(path)
      ensures r.Ok? ==> k in resolved && resolved[k] == r.value && resolved.Keys == After(src, old(resolved.Keys), k)
      ensures forall q :: q in old(resolved) ==> q in resolved && resolved[q] == old(resolved)[q]
      ensures IsRight(src, resolved)
      decreases src.links.Keys - resolving, 0
    {
      hide Eval, HasValue, Uncached, IsRight, IsChain, After, Resolvable;
      if k in resolved {
        CachedIsResolvable(src, resolved, |resolving|, k);
        AfterCached(src, resolved.Keys, k, resolved[k]);
        return Ok(resolved[k]);
      }
      if |resolving| >= MAX_REFERENCE_DEPTH {
        UncachedIsDeep(src, resolved.Keys, |resolving|, k);
        return Err(TooDeep);
      }
      if k in resolving {
        InProgressHasNoValue(src, resolved.Keys, path, k);
        return Err(Cycle(k));
      }
      ghost var before, cached := resolving, resolved.Keys;
      resolving := resolving + {k};
      if k !in src.links {
        NoLinkFails(src, resolved.Keys, |before|, k);
        return Err(Missing(k));
      }
      path := path + [k];
      var inherited := Inherit(k);
      if inherited.Err? {
        return Err(inherited.error);
      }
      path := path[..|path| - 1];
      assert path == old(path);
      var value := src.derive(k, inherited.value);
      DerivedValue(src, cached, |before|, k, inherited.value);
      if value.None? {
        return Err(Invalid(k));
      }
      resolving := resolving - {k};
      assert resolving == before;
      Remember(k, value.value, cached);
      return Ok(value.value);
    }

    method Remember(k: K, v: V, ghost cached: set<K>)
      requires Valid() && HasValue(src, k, v) && k !in cached && k in src.links && k !in path
      requires resolved.Keys == if src.links[k].Base? then After(src, cached, src.links[k].to) else cached
      modifies this`resolved
      ensures Valid() && resolved == old(resolved)[k := v] && resolved.Keys == After(src, cached, k)
    {
      hide HasValue, IsRight, IsChain, After;
      AddRight(src, resolved, k, v);
      AfterUncached(src, cached, k, v);
      ghost var known := resolved.Keys;
      resolved := resolved[k := v];
      assert resolved.Keys == {k} + known;
    }

    /** The inherited value of the item last in progress. */
    method Inherit(k: K) returns (r: Result<Option<V>, ResolveError<K>>)
      requires Valid() && path != [] && path[|path| - 1] == k && k in src.links
      modifies this
      ensures r.Ok? ==> Valid() && resolving == old(resolving) && path == old(path)
      ensures r.Ok? ==> !src.links[k].Broken? && k !in resolved
      ensures r.Ok? && src.links[k].Root? ==> r.value.None? && resolved == old(resolved)
      ensures r.Ok? && src.links[k].Base? ==>
                && r.value.Some? && HasValue(src, src.links[k].to, r.value.value)
                && old(Resolvable(src, resolved.Keys, |resolving|, src.links[k].to))
                && resolved.Keys == After(src, old(resolved.Keys), src.links[k].to)
      ensures r.Err? ==> !old(Resolvable(src, resolved.Keys, |resolving| - 1, k))
      ensures forall q :: q in old(resolved) ==> q in resolved && resolved[q] == old(resolved)[q]
      ensures IsRight(src, resolved)
      decreases src.links.Keys - resolving, 1
    {
      hide Eval, HasValue, Uncached, IsRight, IsChain, After, Resolvable;
      match src.links[k] {
        case Root =>
          return Ok(None);
        case Broken =>
          NoLinkFails(src, resolved.Keys, |resolving| - 1, k);
          return Err(BrokenLink(k));
        case Base(b) =>
          ChainGrows(src, path, b);
          DeeperIsSame(src, resolved.Keys, |resolving| - 1, k);
          var base := Resolve(b);
          if base.Err? {
            return Err(base.error);
          }
          return Ok(Some(base.value));
      }
    }

    /** All items, in the given order; it succeeds exactly when that order does. */
    method ResolveAll(ids: seq<K>) returns (r: Result<(), ResolveError<K>>)
      requires Valid() && path == []
      modifies this
      ensures r.Ok? <==> old(Succeeds(src, resolved.Keys, ids))
      ensures r.Ok? ==> forall k :: k in ids ==> k in resolved && HasValue(src, k, resolved[k])
      ensures r.Ok? ==> Valid() && path == []
    {
      hide Eval, HasValue, Uncached, IsRight, IsChain, Resolvable, After;
      assert ids[0..] == ids;
      for i := 0 to |ids|
        invariant Valid() && path == []
        invariant Succeeds(src, resolved.Keys, ids[i..]) == old(Succeeds(src, resolved.Keys, ids))
        invariant forall j :: 0 <= j < i ==> ids[j] in resolved
      {
        assert IsNext(ids[i]) by {
          AloneIsChain(src, ids[i]);
        }
        assert |resolving| == 0;
        assert ids[i..][0] == ids[i] && ids[i..][1..] == ids[i + 1..];
        var one := Resolve(ids[i]);
        if one.Err? {
          return Err(one.error);
        }
      }
      forall k | k in ids ensures k in resolved && HasValue(src, k, resolved[k]) {
        RightAt(src, resolved, k);
      }
      return Ok(());
    }
  }

  // ----- what is remembered -----

  /** The items met before a remembered one. */
  function Visited<K, V>(src: Source<K, V>, cached: set<K>, k: K, fuel: nat): set<K> {
    if k in cached then {}
    else if fuel == 0 || k !in src.links || !src.links[k].Base? then {k}
    else {k} + Visited(src, cached, src.links[k].to, fuel - 1)
  }

  /** The items remembered after resolving `k`. */
  ghost function After<K(!new), V(!new)>(src: Source<K, V>, cached: set<K>, k: K): set<K> {
    if exists fuel: nat :: Eval(src, k, fuel).Some? then
      var fuel: nat :| Eval(src, k, fuel).Some?;
      cached + Visited(src, cached, k, fuel)
    else cached
  }

  lemma {:induction false} VisitedMoreFuel<K, V>(src: Source<K, V>, cached: set<K>, k: K, fuel: nat, more: nat)
    requires Eval(src, k, fuel).Some? && fuel <= more
    ensures Visited(src, cached, k, more) == Visited(src, cached, k, fuel)
  {
    if src.links[k].Base? {
      VisitedMoreFuel(src, cached, src.links[k].to, fuel - 1, more - 1);
    }
  }

  lemma AfterIs<K(!new), V(!new)>(src: Source<K, V>, cached: set<K>, k: K, fuel: nat)
    requires Eval(src, k, fuel).Some?
    ensures After(src, cached, k) == cached + Visited(src, cached, k, fuel)
  {
    var f: nat :| Eval(src, k, f).Some? && After(src, cached, k) == cached + Visited(src, cached, k, f);
    VisitedMoreFuel(src, cached, k, f, f + fuel);
    VisitedMoreFuel(src, cached, k, fuel, f + fuel);
  }

  lemma AfterCached<K(!new), V(!new)>(src: Source<K, V>, cached: set<K>, k: K, v: V)
    requires k in cached && HasValue(src, k, v)
    ensures After(src, cached, k) == cached
  {
    var fuel: nat :| Eval(src, k, fuel) == Some(v);
    AfterIs(src, cached, k, fuel);
  }

  lemma AfterUncached<K(!new), V(!new)>(src: Source<K, V>, cached: set<K>, k: K, v: V)
    requires k !in cached && HasValue(src, k, v)
    ensures After(src, cached, k) == {k} + if src.links[k].Base? then After(src, cached, src.links[k].to) else cached
  {
    var fuel: nat :| Eval(src, k, fuel) == Some(v);
    AfterIs(src, cached, k, fuel);
    if src.links[k].Base? {
      AfterIs(src, cached, src.links[k].to, fuel - 1);
    }
  }

  /** Resolving the items one after another succeeds. */
  ghost predicate Succeeds<K(!new), V(!new)>(src: Source<K, V>, cached: set<K>, ids: seq<K>)
    decreases |ids|
  {
    ids == [] || (Resolvable(src, cached, 0, ids[0]) && Succeeds(src, After(src, cached, ids[0]), ids[1..]))
  }

  lemma {:induction false} ResolvableSucceed<K(!new), V(!new)>(src: Source<K, V>, cached: set<K>, ids: seq<K>)
    requires forall k :: k in ids ==> Resolvable(src, {}, 0, k)
    ensures Succeeds(src, cached, ids)
    decreases |ids|
  {
    hide Resolvable, After;
    if ids != [] {
      MoreCachedIsResolvable(src, {}, cached, 0, ids[0]);
      assert forall k :: k in ids[1..] ==> k in ids;
      ResolvableSucceed(src, After(src, cached, ids[0]), ids[1..]);
    }
  }

  /** An order in which all items may be visited. */
  ghost predicate IsOrder<K(!new), V(!new)>(src: Source<K, V>, ids: seq<K>) {
    (forall k :: k in ids <==> k in src.links) && forall i, j :: 0 <= i < j < |ids| ==> ids[i] != ids[j]
  }

  ghost predicate AllOrdersSucceed<K(!new), V(!new)>(src: Source<K, V>) {
    forall ids :: IsOrder(src, ids) ==> Succeeds(src, {}, ids)
  }

  /** Every visiting order succeeds if and only if every item can be resolved with nothing remembered. */
  lemma AllOrdersSucceedExactly<K(!new), V(!new)>(src: Source<K, V>)
    ensures AllOrdersSucceed(src) <==> forall k :: k in src.links ==> Resolvable(src, {}, 0, k)
  {
    hide Resolvable, After;
    if forall k :: k in src.links ==> Resolvable(src, {}, 0, k) {
      forall ids | IsOrder(src, ids) ensures Succeeds(src, {}, ids) {
        ResolvableSucceed(src, {}, ids);
      }
    } else {
      var k :| k in src.links && !Resolvable(src, {}, 0, k);
      var rest := Enumerated(src.links.Keys - {k});
      var ids := [k] + rest;
      assert forall x :: x in ids <==> x in src.links;
      assert IsOrder(src, ids);
      assert !Succeeds(src, {}, ids);
    }
  }

  lemma RightAt<K, V>(src: Source<K, V>, cached: map<K, V>, k: K)
    requires IsRight(src, cached)
    ensures k in cached ==> HasValue(src, k, cached[k])
  {
  }

  lemma AloneIsChain<K, V>(src: Source<K, V>, k: K)
    ensures IsChain(src, [] + [k])
  {
  }

  lemma ChainGrows<K, V>(src: Source<K, V>, path: seq<K>, b: K)
    requires path != [] && IsChain(src, path) && path[|path| - 1] in src.links && src.links[path[|path| - 1]] == Base(b)
    ensures IsChain(src, path + [b])
  {
  }

  lemma CachedIsResolvable<K, V>(src: Source<K, V>, cached: map<K, V>, inProgress: nat, k: K)
    requires IsRight(src, cached) && k in cached && inProgress <= MAX_REFERENCE_DEPTH
    ensures Resolvable(src, cached.Keys, inProgress, k) && HasValue(src, k, cached[k])
  {
    var fuel: nat :| Eval(src, k, fuel) == Some(cached[k]);
    assert CanReach(src, cached.Keys, inProgress, k, fuel);
  }

  lemma UncachedIsDeep<K, V>(src: Source<K, V>, cached: set<K>, inProgress: nat, k: K)
    requires k !in cached && inProgress >= MAX_REFERENCE_DEPTH
    ensures !Resolvable(src, cached, inProgress, k)
  {
  }

  lemma InProgressHasNoValue<K, V>(src: Source<K, V>, cached: set<K>, path: seq<K>, k: K)
    requires k in path && IsChain(src, path + [k])
    ensures !Resolvable(src, cached, |path|, k)
  {
    var i :| 0 <= i < |path| && path[i] == k;
    var cycle := (path + [k])[i..];
    assert forall j :: 0 <= j < |cycle| ==> cycle[j] == (path + [k])[i + j];
    forall fuel: nat ensures Eval(src, k, fuel).None? {
      CyclesFail(src, cycle, fuel);
    }
  }

  lemma NoLinkFails<K, V>(src: Source<K, V>, cached: set<K>, inProgress: nat, k: K)
    requires k in src.links ==> src.links[k].Broken?
    ensures !Resolvable(src, cached, inProgress, k)
  {
  }

  /** An uncached item is in reach when its base is, one deeper, and its value can be derived. */
  lemma DeeperIsSame<K, V>(src: Source<K, V>, cached: set<K>, inProgress: nat, k: K)
    requires k in src.links && src.links[k].Base? && k !in cached
    ensures Resolvable(src, cached, inProgress, k) ==> Resolvable(src, cached, inProgress + 1, src.links[k].to)
  {
    if Resolvable(src, cached, inProgress, k) {
      var fuel: nat :| CanReach(src, cached, inProgress, k, fuel);
      assert CanReach(src, cached, inProgress + 1, src.links[k].to, fuel - 1);
    }
  }

  lemma DerivedValue<K, V>(src: Source<K, V>, cached: set<K>, inProgress: nat, k: K, inherited: Option<V>)
    requires k in src.links && !src.links[k].Broken? && k !in cached && inProgress < MAX_REFERENCE_DEPTH
    requires src.links[k].Root? ==> inherited.None?
    requires src.links[k].Base? ==>
               inherited.Some? && HasValue(src, src.links[k].to, inherited.value)
               && Resolvable(src, cached, inProgress + 1, src.links[k].to)
    ensures var value := src.derive(k, inherited);
            && (value.Some? <==> Resolvable(src, cached, inProgress, k))
            && (value.Some? ==> HasValue(src, k, value.value))
  {
    var value := src.derive(k, inherited);
    if src.links[k].Root? {
      assert Eval(src, k, 1) == value;
      if value.Some? {
        assert CanReach(src, cached, inProgress, k, 1);
      }
    } else {
      var b := src.links[k].to;
      var fuel: nat :| CanReach(src, cached, inProgress + 1, b, fuel);
      assert HasValue(src, b, Eval(src, b, fuel).value);
      ValueIsUnique(src, b, Eval(src, b, fuel).value, inherited.value);
      assert Eval(src, k, fuel + 1) == value;
      if value.Some? {
        assert CanReach(src, cached, inProgress, k, fuel + 1);
      } else {
        forall other: nat ensures Eval(src, k, other).None? {
          if Eval(src, k, other).Some? {
            MoreFuel(src, k, other, other + fuel + 1);
            MoreFuel(src, b, fuel, other + fuel);
          }
        }
      }
    }
  }

  lemma AddRight<K, V>(src: Source<K, V>, cached: map<K, V>, k: K, v: V)
    requires IsRight(src, cached) && HasValue(src, k, v)
    ensures IsRight(src, cached[k := v])
  {
  }

  lemma {:induction false} UncachedShrinks<K, V>(src: Source<K, V>, less: set<K>, more: set<K>, k: K, fuel: nat)
    requires less <= more
    ensures Uncached(src, more, k, fuel) <= Uncached(src, less, k, fuel)
  {
    if k !in more && fuel > 0 && k in src.links && src.links[k].Base? {
      UncachedShrinks(src, less, more, src.links[k].to, fuel - 1);
    }
  }

  /** What has been resolved earlier never takes anything out of reach. */
  lemma MoreCachedIsResolvable<K, V>(src: Source<K, V>, less: set<K>, more: set<K>, inProgress: nat, k: K)
    requires less <= more && Resolvable(src, less, inProgress, k)
    ensures Resolvable(src, more, inProgress, k)
  {
    var fuel: nat :| CanReach(src, less, inProgress, k, fuel);
    UncachedShrinks(src, less, more, k, fuel);
    assert CanReach(src, more, inProgress, k, fuel);
  }

  // ----- the order of visits -----

  /** 129 items, each inheriting from the one before. */
  function Ladder(): Source<int, int> {
    Source(Rungs(MAX_REFERENCE_DEPTH), (k, inherited) => Some(0))
  }

  function Rungs(top: nat): (r: map<int, Link<int>>)
    ensures forall i :: i in r <==> 0 <= i <= top
    ensures forall i :: i in r ==> r[i] == if i == 0 then Root else Base(i - 1)
  {
    if top == 0 then map[0 := Root] else Rungs(top - 1)[top := Base(top - 1)]
  }

  lemma {:induction false} LadderValue(k: int)
    requires 0 <= k <= MAX_REFERENCE_DEPTH
    ensures Eval(Ladder(), k, k + 1) == Some(0)
    ensures forall fuel :: fuel > k ==> Uncached(Ladder(), {}, k, fuel) == k + 1
  {
    if k > 0 {
      LadderValue(k - 1);
      forall fuel | fuel > k ensures Uncached(Ladder(), {}, k, fuel) == k + 1 {
        assert Uncached(Ladder(), {}, k - 1, fuel - 1) == k;
      }
    }
  }

  lemma LadderFuel(k: int, fuel: nat)
    requires 0 <= k <= MAX_REFERENCE_DEPTH && Eval(Ladder(), k, fuel).Some?
    ensures fuel > k
    decreases k
  {
    if k > 0 {
      LadderFuel(k - 1, fuel - 1);
    }
  }

  /**
    Every item of the ladder has a value, but whether it is found depends on the order: the top cannot
    be resolved first, and each item can be once the one below it is remembered.
   */
  lemma OrderMatters(cached: set<int>, k: int)
    requires 0 < k <= 128 && k - 1 in cached
    ensures !Resolvable(Ladder(), {}, 0, 128)
    ensures Resolvable(Ladder(), {}, 0, 0) && Resolvable(Ladder(), cached, 0, k)
  {
    LadderValue(MAX_REFERENCE_DEPTH);
    forall fuel: nat ensures !CanReach(Ladder(), {}, 0, MAX_REFERENCE_DEPTH, fuel) {
      if Eval(Ladder(), MAX_REFERENCE_DEPTH, fuel).Some? {
        LadderFuel(MAX_REFERENCE_DEPTH, fuel);
      }
    }
    LadderValue(0);
    assert CanReach(Ladder(), {}, 0, 0, 1);
    LadderValue(k);
    assert CanReach(Ladder(), cached, 0, k, k + 1);
  }

  // ----- paragraph styles -----

  datatype Setting = Setting(instance: Option<int>, level: Option<nat>)

  datatype Numbering = Numbering(instance: int, level: nat)

  datatype Style = Style(basedOn: Option<string>, numbering: Option<Setting>)

  /** Instance 0 removes numbering; what is not set is inherited. */
  function ResolveSetting(setting: Setting, inherited: Option<Numbering>): Option<Numbering> {
    if setting.instance == Some(0) then None
    else if setting.instance.None? && inherited.None? then None
    else
      Some(Numbering(if setting.instance.Some? then setting.instance.value else inherited.value.instance,
                     if setting.level.Some? then setting.level.value
                     else if inherited.Some? then inherited.value.level else 0))
  }

  function StyleNumbering(style: Style, inherited: Option<Numbering>): Option<Numbering> {
    if style.numbering.Some? then ResolveSetting(style.numbering.value, inherited) else inherited
  }

  function Flat(inherited: Option<Option<Numbering>>): Option<Numbering> {
    if inherited.Some? then inherited.value else None
  }

  function Styles(raw: map<string, Style>): Source<string, Option<Numbering>> {
    Source(map id | id in raw :: if raw[id].basedOn.Some? then Base(raw[id].basedOn.value) else Root,
           (id, inherited) => if id in raw then Some(StyleNumbering(raw[id], Flat(inherited))) else None)
  }

  /** The chain of bases from `id` ends in a style without one: no cycle, no missing style. */
  ghost predicate EndsIn(raw: map<string, Style>, id: string, path: seq<string>) {
    && path != [] && path[0] == id && IsChain(Styles(raw), path)
    && path[|path| - 1] in raw && raw[path[|path| - 1]].basedOn.None?
  }

  /** A style has a numbering, possibly none, exactly when its bases end without a cycle or a missing style. */
  lemma StyleHasNumbering(raw: map<string, Style>, id: string)
    ensures (exists v :: HasValue(Styles(raw), id, v)) <==> exists path :: EndsIn(raw, id, path)
  {
    if v :| HasValue(Styles(raw), id, v) {
      var fuel: nat :| Eval(Styles(raw), id, fuel) == Some(v);
      var path := ChainOfBases(raw, id, fuel);
    }
    if path :| EndsIn(raw, id, path) {
      StyleEvaluates(raw, path);
      assert HasValue(Styles(raw), id, Eval(Styles(raw), id, |path|).value);
    }
  }

  lemma {:induction false} ChainOfBases(raw: map<string, Style>, id: string, fuel: nat) returns (path: seq<string>)
    requires Eval(Styles(raw), id, fuel).Some?
    ensures EndsIn(raw, id, path)
    decreases fuel
  {
    if raw[id].basedOn.None? {
      path := [id];
    } else {
      var rest := ChainOfBases(raw, raw[id].basedOn.value, fuel - 1);
      path := [id] + rest;
      assert forall i :: 1 <= i < |path| ==> path[i] == rest[i - 1];
      forall i | 0 <= i < |path| - 1 ensures path[i] in Styles(raw).links && Styles(raw).links[path[i]] == Base(path[i + 1]) {
        if i > 0 {
          assert Styles(raw).links[rest[i - 1]] == Base(rest[i - 1 + 1]);
        }
      }
    }
  }

  lemma {:induction false} StyleEvaluates(raw: map<string, Style>, path: seq<string>)
    requires path != [] && IsChain(Styles(raw), path)
    requires path[|path| - 1] in raw && raw[path[|path| - 1]].basedOn.None?
    ensures Eval(Styles(raw), path[0], |path|).Some?
  {
    if |path| > 1 {
      assert Styles(raw).links[path[0]] == Base(path[1]);
      assert forall i :: 0 <= i < |path[1..]| - 1 ==> path[1..][i] == path[i + 1];
      StyleEvaluates(raw, path[1..]);
    }
  }

  // ----- what a style's numbering is -----

  lemma StyleDerives(raw: map<string, Style>, id: string)
    requires id in raw
    ensures Styles(raw).derive(id, None) == Some(StyleNumbering(raw[id], None))
    ensures forall base :: Styles(raw).derive(id, Some(base)) == Some(StyleNumbering(raw[id], base))
  {
    var nothing: Option<Option<Numbering>> := None;
    assert Styles(raw).derive(id, nothing) == Some(StyleNumbering(raw[id], Flat(nothing)));
    assert Flat(nothing) == None;
    forall base ensures Styles(raw).derive(id, Some(base)) == Some(StyleNumbering(raw[id], base)) {
      assert Styles(raw).derive(id, Some(base)) == Some(StyleNumbering(raw[id], Flat(Some(base))));
    }
  }

  /** The value of a style follows from that of its base in one step. */
  lemma StyleOneStep(raw: map<string, Style>, id: string, v: Option<Numbering>)
    requires id in raw
    ensures raw[id].basedOn.None? ==> (HasValue(Styles(raw), id, v) <==> v == StyleNumbering(raw[id], None))
    ensures raw[id].basedOn.Some? ==>
              (HasValue(Styles(raw), id, v) <==>
               exists base :: HasValue(Styles(raw), raw[id].basedOn.value, base) && v == StyleNumbering(raw[id], base))
  {
    hide StyleNumbering;
    var src := Styles(raw);
    StyleDerives(raw, id);
    if raw[id].basedOn.None? {
      assert Eval(src, id, 1) == Some(StyleNumbering(raw[id], None));
      assert HasValue(src, id, StyleNumbering(raw[id], None));
      if HasValue(src, id, v) {
        ValueIsUnique(src, id, v, StyleNumbering(raw[id], None));
      }
    } else {
      var b := raw[id].basedOn.value;
      assert src.links[id] == Base(b);
      if HasValue(src, id, v) {
        var fuel: nat :| Eval(src, id, fuel) == Some(v);
        var base := Eval(src, b, fuel - 1).value;
        assert HasValue(src, b, base) && v == StyleNumbering(raw[id], base);
      }
      if base :| HasValue(src, b, base) && v == StyleNumbering(raw[id], base) {
        var fuel: nat :| Eval(src, b, fuel) == Some(base);
        assert Eval(src, id, fuel + 1) == Some(v);
      }
    }
  }

  /** A style without a setting of its own has the value of its base, or none. */
  lemma PlainStyleInherits(raw: map<string, Style>, id: string, v: Option<Numbering>)
    requires id in raw && raw[id].numbering.None?
    ensures raw[id].basedOn.Some? ==> (HasValue(Styles(raw), id, v) <==> HasValue(Styles(raw), raw[id].basedOn.value, v))
    ensures raw[id].basedOn.None? ==> (HasValue(Styles(raw), id, v) <==> v == None)
  {
    StyleOneStep(raw, id, v);
  }

  ghost predicate SetsInstance(raw: map<string, Style>, id: string) {
    id in raw && raw[id].numbering.Some? && raw[id].numbering.value.instance.Some?
  }

  /**
    The instance is the nearest one set along the bases. There is no numbering exactly when none is
    set or the nearest one is 0.
   */
  lemma {:induction false} InstanceIsNearest(raw: map<string, Style>, id: string, path: seq<string>, v: Option<Numbering>)
    requires EndsIn(raw, id, path) && HasValue(Styles(raw), id, v)
    ensures (forall k :: 0 <= k < |path| ==> !SetsInstance(raw, path[k])) ==> v == None
    ensures forall i :: 0 <= i < |path| && SetsInstance(raw, path[i]) && (forall k :: 0 <= k < i ==> !SetsInstance(raw, path[k])) ==>
              && (v == None <==> raw[path[i]].numbering.value.instance.value == 0)
              && (v.Some? ==> v.value.instance == raw[path[i]].numbering.value.instance.value)
    decreases |path|
  {
    hide HasValue;
    StyleOneStep(raw, id, v);
    if |path| > 1 {
      assert Styles(raw).links[path[0]] == Base(path[1]);
      var base :| HasValue(Styles(raw), path[1], base) && v == StyleNumbering(raw[id], base);
      var rest := path[1..];
      RestEndsIn(raw, id, path);
      InstanceIsNearest(raw, path[1], rest, base);
      forall i | 0 <= i < |path| && SetsInstance(raw, path[i]) && (forall k :: 0 <= k < i ==> !SetsInstance(raw, path[k]))
        ensures v == None <==> raw[path[i]].numbering.value.instance.value == 0
        ensures v.Some? ==> v.value.instance == raw[path[i]].numbering.value.instance.value
      {
        if i > 0 {
          assert rest[i - 1] == path[i] && !SetsInstance(raw, path[0]);
          assert forall k :: 0 <= k < i - 1 ==> rest[k] == path[k + 1];
        }
      }
      assert forall k :: 0 <= k < |rest| ==> rest[k] == path[k + 1];
    }
  }

  lemma RestEndsIn(raw: map<string, Style>, id: string, path: seq<string>)
    requires EndsIn(raw, id, path) && |path| > 1
    ensures EndsIn(raw, path[1], path[1..])
  {
    assert forall i :: 0 <= i < |path[1..]| - 1 ==> path[1..][i] == path[i + 1];
  }

  /** The level is the style's own, else that of the base's numbering, else 0. */
  lemma LevelIsOwnOrInherited(raw: map<string, Style>, id: string, n: Numbering)
    requires id in raw && HasValue(Styles(raw), id, Some(n))
    ensures raw[id].numbering.Some? && raw[id].numbering.value.level.Some? ==> n.level == raw[id].numbering.value.level.value
    ensures raw[id].numbering.None? || raw[id].numbering.value.level.None? ==>
              if raw[id].basedOn.None? then n.level == 0
              else if HasValue(Styles(raw), raw[id].basedOn.value, None) then n.level == 0
              else exists base :: HasValue(Styles(raw), raw[id].basedOn.value, Some(base)) && n.level == base.level
  {
    StyleOneStep(raw, id, Some(n));
    if raw[id].basedOn.Some? {
      var b := raw[id].basedOn.value;
      var base :| HasValue(Styles(raw), b, base) && Some(n) == StyleNumbering(raw[id], base);
      if HasValue(Styles(raw), b, None) {
        ValueIsUnique(Styles(raw), b, base, None);
      } else {
        assert base == Some(base.value);
      }
    }
  }

  /** A level set without an instance takes effect only over something inherited, which one setting cannot express. */
  predicate LosesLevel(near: Setting, far: Setting) {
    && near.instance.Some? && near.instance != Some(0) && near.level.None?
    && far.instance.None? && far.level.Some? && far.level != Some(0)
  }

  function Composed(near: Setting, far: Setting): Setting {
    if near.instance == Some(0) || (near.instance.None? && far.instance == Some(0)) then Setting(Some(0), None)
    else
      Setting(if near.instance.Some? then near.instance else far.instance,
              if near.level.Some? then near.level else if far.instance == Some(0) then Some(0) else far.level)
  }

  ghost predicate ActsAs(one: Setting, near: Setting, far: Setting) {
    forall inherited :: ResolveSetting(one, inherited) == ResolveSetting(near, ResolveSetting(far, inherited))
  }

  /** Two settings in a row act as one setting exactly when no level is lost. */
  lemma SettingsCompose(near: Setting, far: Setting)
    ensures (exists one :: ActsAs(one, near, far)) <==> !LosesLevel(near, far)
  {
    if LosesLevel(near, far) {
      var other := Some(Numbering(1, far.level.value + 1));
      assert ResolveSetting(near, ResolveSetting(far, None)) == Some(Numbering(near.instance.value, 0));
      assert ResolveSetting(near, ResolveSetting(far, other)) == Some(Numbering(near.instance.value, far.level.value));
      forall one ensures !ActsAs(one, near, far) {
        assert ResolveSetting(one, None) == ResolveSetting(near, ResolveSetting(far, None))
               ==> ResolveSetting(one, other) != ResolveSetting(near, ResolveSetting(far, other));
      }
    } else {
      assert ActsAs(Composed(near, far), near, far);
    }
  }

  // ----- numbering instances -----

  /** An instance takes its levels from its abstract numbering, or from the instance of the style that links to. */
  function Instances<L>(raw: map<int, int>, abstracts: map<int, L>, linked: map<int, string>, styles: map<string, int>,
                        overriding: (int, L) -> Option<L>): Source<int, L>
  {
    Source(map id | id in raw ::
             if raw[id] in abstracts then Root
             else if raw[id] in linked && linked[raw[id]] in styles then Base(styles[linked[raw[id]]])
             else Broken,
           (id, inherited: Option<L>) =>
             if inherited.Some? then overriding(id, inherited.value)
             else if id in raw && raw[id] in abstracts then overriding(id, abstracts[raw[id]])
             else None)
  }

  /** An instance with an abstract numbering of its own has a value exactly when its overrides apply to that. */
  lemma OwnInstance<L>(raw: map<int, int>, abstracts: map<int, L>, linked: map<int, string>, styles: map<string, int>,
                       overriding: (int, L) -> Option<L>, id: int, v: L)
    requires id in raw && raw[id] in abstracts
    ensures HasValue(Instances(raw, abstracts, linked, styles, overriding), id, v) <==> overriding(id, abstracts[raw[id]]) == Some(v)
  {
    assert Eval(Instances(raw, abstracts, linked, styles, overriding), id, 1) == overriding(id, abstracts[raw[id]]);
  }

  /** An instance linked through a style has a value exactly when the style's instance has and its overrides apply. */
  lemma LinkedInstance<L>(raw: map<int, int>, abstracts: map<int, L>, linked: map<int, string>, styles: map<string, int>,
                          overriding: (int, L) -> Option<L>, id: int, v: L)
    requires id in raw && raw[id] !in abstracts && raw[id] in linked && linked[raw[id]] in styles
    ensures var src := Instances(raw, abstracts, linked, styles, overriding);
            HasValue(src, id, v) <==>
            exists base: L :: HasValue(src, styles[linked[raw[id]]], base) && overriding(id, base) == Some(v)
  {
    var src := Instances(raw, abstracts, linked, styles, overriding);
    var b := styles[linked[raw[id]]];
    assert src.links[id] == Base(b);
    if HasValue(src, id, v) {
      var fuel: nat :| Eval(src, id, fuel) == Some(v);
      var base := Eval(src, b, fuel - 1).value;
      assert HasValue(src, b, base) && overriding(id, base) == Some(v);
    }
    if base: L :| HasValue(src, b, base) && overriding(id, base) == Some(v) {
      var fuel: nat :| Eval(src, b, fuel) == Some(base);
      assert Eval(src, id, fuel + 1) == Some(v);
    }
  }
}

/**
  The cache of signing keys (key sets as in section 5 of RFC 7517): requests look a key up, and one
  of them at a time may refresh the set. Instants are seconds on a clock that does not go back.
 */
module KeyCache {
  import opened Common

  const REFRESH_AFTER := 6 * 60 * 60
  const MAXIMUM_STALE := 24 * 60 * 60
  const MINIMUM_RETRY_INTERVAL := 5 * 60

  /** Public keys by key id. */
  type KeySet = map<string, int>

  datatype Cache = Cache(keys: Option<KeySet>, fetchedAt: Option<int>, nextRefreshAt: int)

  /** The age of a set; one stored after the clock was read counts as new. */
  function Age(fetched: int, now: int): int {
    Max(0, now - fetched)
  }

  predicate Usable(fetchedAt: Option<int>, now: int) {
    fetchedAt.Some? && Age(fetchedAt.value, now) <= MAXIMUM_STALE
  }

  predicate Expired(fetchedAt: Option<int>, now: int) {
    fetchedAt.None? || Age(fetchedAt.value, now) >= REFRESH_AFTER
  }

  function Find(keys: KeySet, kid: string): Option<int> {
    if kid in keys then Some(keys[kid]) else None
  }

  /** The key in a usable set. */
  function Cached(c: Cache, kid: string, now: int): Option<int> {
    if Usable(c.fetchedAt, now) && c.keys.Some? then Find(c.keys.value, kid) else None
  }

  predicate ShouldRefresh(c: Cache, kid: string, now: int) {
    now >= c.nextRefreshAt && (Cached(c, kid, now).None? || Expired(c.fetchedAt, now))
  }

  function Claim(c: Cache, now: int): Cache {
    c.(nextRefreshAt := now + MINIMUM_RETRY_INTERVAL)
  }

  function Stored(c: Cache, keys: KeySet, now: int): Cache {
    c.(keys := Some(keys), fetchedAt := Some(now))
  }

  function Prewarmed(c: Cache, keys: KeySet, now: int, later: int): Cache {
    Claim(Stored(c, keys, now), later)
  }

  // ----- in hours -----

  /** The key is there, and its set was fetched at most 24 hours ago. */
  predicate IsHeld(c: Cache, kid: string, now: int) {
    c.keys.Some? && kid in c.keys.value && c.fetchedAt.Some? && now - c.fetchedAt.value <= 24 * 60 * 60
  }

  /** Five minutes have gone by since the last claim, and the key is not there or its set is six hours old. */
  predicate IsDue(c: Cache, kid: string, now: int) {
    && now >= c.nextRefreshAt
    && !(c.keys.Some? && kid in c.keys.value && c.fetchedAt.Some? && now - c.fetchedAt.value < 6 * 60 * 60)
  }

  lemma DueExactly(c: Cache, kid: string, now: int)
    ensures ShouldRefresh(c, kid, now) <==> IsDue(c, kid, now)
    ensures Cached(c, kid, now) == if IsHeld(c, kid, now) then Some(c.keys.value[kid]) else None
  {
  }

  // ----- one request -----

  datatype FetchError = FetchFailed

  /**
    The answer of a request and the cache it leaves. It sees the cache three times: `c0` when it looks
    first, `c1` when it looks again holding the refresh lock, `c2` when the fetch is over; between these
    other requests may have changed it.
   */
  function Outcome(c0: Cache, c1: Cache, c2: Cache, kid: string, first: int, second: int, third: int, locked: bool,
                   fetched: Option<KeySet>): (Result<Option<int>, FetchError>, Cache)
  {
    if !ShouldRefresh(c0, kid, first) || !locked then (Ok(Cached(c0, kid, first)), c0)
    else if !ShouldRefresh(c1, kid, second) then (Ok(Cached(c1, kid, second)), c1)
    else if fetched.Some? then (Ok(Find(fetched.value, kid)), Stored(c2, fetched.value, third))
    else (if Cached(c0, kid, first).Some? then Ok(Cached(c0, kid, first)) else Err(FetchFailed), c2)
  }

  class Authenticator {
    var keys: Option<KeySet>
    var fetchedAt: Option<int>
    var nextRefreshAt: int

    constructor (now: int)
      ensures Now() == Cache(None, None, now)
    {
      keys, fetchedAt, nextRefreshAt := None, None, now;
    }

    function Now(): Cache
      reads this
    {
      Cache(keys, fetchedAt, nextRefreshAt)
    }

    method Prewarm(fetched: Option<KeySet>, now: int, later: int) returns (ok: bool)
      modifies this
      ensures ok == fetched.Some?
      ensures Now() == if ok then Prewarmed(old(Now()), fetched.value, now, later) else old(Now())
    {
      if fetched.None? {
        return false;
      }
      keys := fetched;
      fetchedAt := Some(now);
      nextRefreshAt := later + MINIMUM_RETRY_INTERVAL;
      return true;
    }

    /** What other requests do while this one does not hold the cache. */
    method Others(c: Cache)
      modifies this
      ensures Now() == c
    {
      keys, fetchedAt, nextRefreshAt := c.keys, c.fetchedAt, c.nextRefreshAt;
    }

    /**
      One request: `first`, `second` and `third` are its clock readings, `locked` says whether it got
      the refresh lock, `fetched` what fetching gives, `between` and `later` what others make of the
      cache before its second look and during its fetch. `claimed` is the cache as it claims a refresh.
     */
    method JwkFor(kid: string, first: int, second: int, third: int, locked: bool, fetched: Option<KeySet>, between: Cache, later: Cache)
      returns (r: Result<Option<int>, FetchError>, claimed: Option<Cache>)
      requires first <= second <= third
      modifies this
      ensures (r, Now()) == Outcome(old(Now()), between, later, kid, first, second, third, locked, fetched)
      ensures claimed == if ShouldRefresh(old(Now()), kid, first) && locked && ShouldRefresh(between, kid, second)
                         then Some(Claim(between, second)) else None
      ensures claimed.Some? <==> IsDue(old(Now()), kid, first) && locked && IsDue(between, kid, second)
      ensures claimed.Some? ==> claimed.value == between.(nextRefreshAt := second + 5 * 60)
      ensures claimed.Some? && fetched.Some? ==>
                && r == Ok(if kid in fetched.value then Some(fetched.value[kid]) else None)
                && Now() == later.(keys := fetched, fetchedAt := Some(third))
      ensures claimed.Some? && fetched.None? ==>
                && Now() == later
                && r == if IsHeld(old(Now()), kid, first) then Ok(Some(old(Now()).keys.value[kid])) else Err(FetchFailed)
      ensures claimed.None? ==>
                var looksAgain := IsDue(old(Now()), kid, first) && locked;
                var c := if looksAgain then between else old(Now());
                var now := if looksAgain then second else first;
                Now() == c && r == Ok(if IsHeld(c, kid, now) then Some(c.keys.value[kid]) else None)
    {
      DueExactly(Now(), kid, first);
      DueExactly(between, kid, second);
      var cached := if Usable(fetchedAt, first) && keys.Some? then Find(keys.value, kid) else None;
      var shouldRefresh := first >= nextRefreshAt && (cached.None? || Expired(fetchedAt, first));
      if !shouldRefresh {
        return Ok(cached), None;
      }
      if !locked {
        return Ok(cached), None;
      }
      Others(between);
      var current := if Usable(fetchedAt, second) && keys.Some? then Find(keys.value, kid) else None;
      if second < nextRefreshAt || (current.Some? && !Expired(fetchedAt, second)) {
        return Ok(current), None;
      }
      nextRefreshAt := second + MINIMUM_RETRY_INTERVAL;
      claimed := Some(Now());
      Others(later);
      if fetched.Some? {
        var result := Find(fetched.value, kid);
        keys := fetched;
        fetchedAt := Some(third);
        return Ok(result), claimed;
      }
      if cached.Some? {
        return Ok(cached), claimed;
      }
      return Err(FetchFailed), claimed;
    }
  }

  // ----- requests together -----

  /** Where a key came from: a set stored at `fetchedAt`, found usable at clock reading `reading`. */
  datatype Hit = Hit(key: int, keys: KeySet, fetchedAt: int, reading: int)

  datatype Answer = FromCache(hit: Hit) | Fresh(key: int, keys: KeySet) | NoKey | Failed

  datatype Phase =
    | Arrived
    | Read(now: int)
    | Wanting(cached: Option<Hit>)
    | Locked(cached: Option<Hit>)
    | ReadAgain(cached: Option<Hit>, now: int)
    | Claimed(cached: Option<Hit>, at: int)
    | Sent(cached: Option<Hit>, at: int)
    | Received(keys: KeySet)
    | Returned(answer: Answer)

  /** A request and the readings it has taken. */
  datatype Request = Request(kid: string, readings: seq<int>, phase: Phase)

  /** `history` are the sets ever stored, `claims` and `sends` the instants of refreshes. */
  datatype System = System(cache: Cache, refresher: Option<nat>, requests: map<nat, Request>, now: int,
                           history: set<(KeySet, int)>, claims: seq<int>, sends: seq<int>)

  datatype Event =
    | Tick(to: int)
    | Arrive(id: nat, kid: string)
    | ReadClock(id: nat)
    | Look(id: nat)
    | TryLock(id: nat)
    | LookAgain(id: nat)
    | Send(id: nat)
    | Receive(id: nat, fetched: Option<KeySet>)
    | Store(id: nat)
    | Prewarm(keys: KeySet, later: int)

  function HitAt(c: Cache, kid: string, now: int): (r: Option<Hit>)
    ensures r.Some? <==> Cached(c, kid, now).Some?
    ensures r.Some? ==> r.value.key == Cached(c, kid, now).value && r.value.reading == now
  {
    if Cached(c, kid, now).Some? then Some(Hit(Cached(c, kid, now).value, c.keys.value, c.fetchedAt.value, now)) else None
  }

  function AnswerOf(cached: Option<Hit>): Answer {
    if cached.Some? then FromCache(cached.value) else NoKey
  }

  function In(s: System, id: nat, phase: Phase): System
    requires id in s.requests
  {
    s.(requests := s.requests[id := s.requests[id].(phase := phase)])
  }

  function Noted(s: System, id: nat, phase: Phase): System
    requires id in s.requests
  {
    s.(requests := s.requests[id := s.requests[id].(phase := phase, readings := s.requests[id].readings + [s.now])])
  }

  function Unlocked(s: System): System {
    s.(refresher := None)
  }

  ghost predicate Step(s: System, e: Event, s': System) {
    match e
    case Tick(to) => to >= s.now && s' == s.(now := to)
    case Arrive(id, kid) => id !in s.requests && s' == s.(requests := s.requests[id := Request(kid, [], Arrived)])
    case ReadClock(id) =>
      && id in s.requests
      && (|| (s.requests[id].phase == Arrived && s' == Noted(s, id, Read(s.now)))
          || (s.requests[id].phase.Locked? && s' == Noted(s, id, ReadAgain(s.requests[id].phase.cached, s.now))))
    case Look(id) =>
      && id in s.requests && s.requests[id].phase.Read?
      && var r := s.requests[id];
         var hit := HitAt(s.cache, r.kid, r.phase.now);
         s' == In(s, id, if ShouldRefresh(s.cache, r.kid, r.phase.now) then Wanting(hit) else Returned(AnswerOf(hit)))
    case TryLock(id) =>
      && id in s.requests && s.requests[id].phase.Wanting?
      && var cached := s.requests[id].phase.cached;
         s' == if s.refresher.Some? then In(s, id, Returned(AnswerOf(cached)))
               else In(s, id, Locked(cached)).(refresher := Some(id))
    case LookAgain(id) =>
      && id in s.requests && s.requests[id].phase.ReadAgain?
      && var r := s.requests[id];
         s' == if ShouldRefresh(s.cache, r.kid, r.phase.now)
               then In(s, id, Claimed(r.phase.cached, r.phase.now)).(cache := Claim(s.cache, r.phase.now), claims := s.claims + [r.phase.now])
               else Unlocked(In(s, id, Returned(AnswerOf(HitAt(s.cache, r.kid, r.phase.now)))))
    case Send(id) =>
      && id in s.requests && s.requests[id].phase.Claimed?
      && s' == In(s, id, Sent(s.requests[id].phase.cached, s.requests[id].phase.at)).(sends := s.sends + [s.now])
    case Receive(id, fetched) =>
      && id in s.requests && s.requests[id].phase.Sent?
      && var cached := s.requests[id].phase.cached;
         s' == if fetched.Some? then In(s, id, Received(fetched.value))
               else Unlocked(In(s, id, Returned(if cached.Some? then FromCache(cached.value) else Failed)))
    case Store(id) =>
      && id in s.requests && s.requests[id].phase.Received?
      && var keys := s.requests[id].phase.keys;
         var found := Find(keys, s.requests[id].kid);
         s' == Unlocked(In(s, id, Returned(if found.Some? then Fresh(found.value, keys) else NoKey)))
               .(cache := Stored(s.cache, keys, s.now), history := s.history + {(keys, s.now)})
    case Prewarm(keys, later) =>
      && later >= s.now
      && s' == s.(cache := Prewarmed(s.cache, keys, s.now, later), now := later, history := s.history + {(keys, s.now)})
  }

  /** In a run a request asks for a refresh at its first look exactly when one is due, and claims one exactly when it still is. */
  lemma LooksRefreshWhenDue(s: System, e: Event, s': System)
    requires Step(s, e, s')
    ensures e.Look? ==>
              (s'.requests[e.id].phase.Wanting? <==> IsDue(s.cache, s.requests[e.id].kid, s.requests[e.id].phase.now))
    ensures e.LookAgain? ==>
              (s'.requests[e.id].phase.Claimed? <==> IsDue(s.cache, s.requests[e.id].kid, s.requests[e.id].phase.now))
  {
    if e.Look? || e.LookAgain? {
      hide ShouldRefresh, IsDue, HitAt;
      DueExactly(s.cache, s.requests[e.id].kid, s.requests[e.id].phase.now);
    }
  }

  // ----- what every run keeps -----

  /** A key from a set that was stored, at most 24 hours old at a reading this request took. */
  ghost predicate HitIsGood(s: System, r: Request, hit: Hit) {
    && (hit.keys, hit.fetchedAt) in s.history
    && Find(hit.keys, r.kid) == Some(hit.key)
    && hit.reading in r.readings && hit.reading - hit.fetchedAt <= MAXIMUM_STALE
  }

  ghost predicate MaybeGood(s: System, r: Request, cached: Option<Hit>) {
    cached.Some? ==> HitIsGood(s, r, cached.value)
  }

  ghost predicate RequestIsGood(s: System, r: Request) {
    && (forall t :: t in r.readings ==> t <= s.now)
    && match r.phase
       case Arrived => true
       case Read(now) => now in r.readings
       case Wanting(cached) => MaybeGood(s, r, cached)
       case Locked(cached) => MaybeGood(s, r, cached)
       case ReadAgain(cached, now) => MaybeGood(s, r, cached) && now in r.readings
       case Claimed(cached, at) => MaybeGood(s, r, cached)
       case Sent(cached, at) => MaybeGood(s, r, cached)
       case Received(keys) => true
       case Returned(answer) =>
         && (answer.FromCache? ==> HitIsGood(s, r, answer.hit))
         && (answer.Fresh? ==> Find(answer.keys, r.kid) == Some(answer.key) && exists t :: (answer.keys, t) in s.history)
  }

  predicate HoldsLock(phase: Phase) {
    phase.Locked? || phase.ReadAgain? || phase.Claimed? || phase.Sent? || phase.Received?
  }

  /** The lock is held by exactly the request in the locked part. */
  ghost predicate LockIsHeld(s: System) {
    && (s.refresher.Some? ==> s.refresher.value in s.requests)
    && forall id :: id in s.requests ==> (HoldsLock(s.requests[id].phase) <==> s.refresher == Some(id))
  }

  ghost predicate CacheIsKnown(s: System) {
    s.cache.keys.Some? ==> s.cache.fetchedAt.Some? && (s.cache.keys.value, s.cache.fetchedAt.value) in s.history
  }

  /** Claims are five minutes apart, and the next one is not before five minutes after the last. */
  ghost predicate ClaimsAreApart(s: System) {
    && (forall i, j :: 0 <= i < j < |s.claims| ==> s.claims[i] + MINIMUM_RETRY_INTERVAL <= s.claims[j])
    && (forall i :: 0 <= i < |s.claims| ==> s.claims[i] + MINIMUM_RETRY_INTERVAL <= s.cache.nextRefreshAt && s.claims[i] <= s.now)
  }

  /** A refresh has been claimed and not sent yet. */
  predicate IsUnsent(s: System) {
    s.refresher.Some? && s.refresher.value in s.requests && s.requests[s.refresher.value].phase.Claimed?
  }

  /** Every claim but an unsent one has been sent, not before it was claimed. */
  ghost predicate SendsFollow(s: System) {
    && |s.claims| == |s.sends| + (if IsUnsent(s) then 1 else 0)
    && forall i :: 0 <= i < |s.sends| ==> s.claims[i] <= s.sends[i]
  }

  ghost predicate Inv(s: System) {
    && (forall id :: id in s.requests ==> RequestIsGood(s, s.requests[id]))
    && LockIsHeld(s) && CacheIsKnown(s) && ClaimsAreApart(s) && SendsFollow(s)
  }

  lemma HitIsGoodAt(s: System, r: Request, now: int)
    requires CacheIsKnown(s) && now in r.readings
    ensures MaybeGood(s, r, HitAt(s.cache, r.kid, now))
  {
  }

  lemma GoodLater(s: System, s': System, r: Request)
    requires RequestIsGood(s, r) && s.now <= s'.now && s.history <= s'.history
    ensures RequestIsGood(s', r)
  {
    if r.phase.Returned? && r.phase.answer.Fresh? {
      var t :| (r.phase.answer.keys, t) in s.history;
      assert (r.phase.answer.keys, t) in s'.history;
    }
  }

  function CachedIn(phase: Phase): Option<Hit> {
    if phase.Wanting? || phase.Locked? || phase.ReadAgain? || phase.Claimed? || phase.Sent? then phase.cached else None
  }

  lemma MaybeGoodLater(s: System, s': System, r: Request, r': Request, cached: Option<Hit>)
    requires MaybeGood(s, r, cached) && s.history <= s'.history && r'.kid == r.kid
    requires forall t :: t in r.readings ==> t in r'.readings
    ensures MaybeGood(s', r', cached)
  {
  }

  /** All but one request are as they were. */
  lemma OthersStayGood(s: System, s': System, id: nat)
    requires (forall i :: i in s.requests ==> RequestIsGood(s, s.requests[i])) && s.now <= s'.now && s.history <= s'.history
    requires id in s'.requests && s'.requests == s.requests[id := s'.requests[id]] && RequestIsGood(s', s'.requests[id])
    ensures forall i :: i in s'.requests ==> RequestIsGood(s', s'.requests[i])
  {
    hide RequestIsGood;
    forall i | i in s'.requests ensures RequestIsGood(s', s'.requests[i]) {
      if i != id {
        GoodLater(s, s', s.requests[i]);
      }
    }
  }

  /** The request an event is about. */
  function IdOf(e: Event): nat {
    match e
    case Tick(_) => 0
    case Arrive(id, _) => id
    case ReadClock(id) => id
    case Look(id) => id
    case TryLock(id) => id
    case LookAgain(id) => id
    case Send(id) => id
    case Receive(id, _) => id
    case Store(id) => id
    case Prewarm(_, _) => 0
  }

  /** An event about one request. */
  predicate IsOwn(e: Event) {
    !e.Tick? && !e.Prewarm?
  }

  /** What such an event leaves of its request is good. */
  lemma LookIsGood(s: System, e: Event, s': System)
    requires Inv(s) && Step(s, e, s') && (e.Look? || e.LookAgain?)
    ensures RequestIsGood(s', s'.requests[e.id])
  {
    hide ShouldRefresh, HitAt, Cached, LockIsHeld, ClaimsAreApart, SendsFollow, Stored, Claim, HitIsGood;
    var r, r' := s.requests[e.id], s'.requests[e.id];
    assert RequestIsGood(s, r);
    HitIsGoodAt(s, r, r.phase.now);
    MaybeGoodLater(s, s', r, r', HitAt(s.cache, r.kid, r.phase.now));
    MaybeGoodLater(s, s', r, r', CachedIn(r.phase));
  }

  lemma MoveIsGood(s: System, e: Event, s': System)
    requires Inv(s) && Step(s, e, s') && IsOwn(e) && !e.Look? && !e.LookAgain?
    ensures IdOf(e) in s'.requests && RequestIsGood(s', s'.requests[IdOf(e)])
  {
    hide ShouldRefresh, HitAt, Cached, LockIsHeld, ClaimsAreApart, SendsFollow, Stored, Claim, Prewarmed, HitIsGood, CacheIsKnown;
    var id := IdOf(e);
    if id in s.requests {
      assert RequestIsGood(s, s.requests[id]);
      MaybeGoodLater(s, s', s.requests[id], s'.requests[id], CachedIn(s.requests[id].phase));
    }
    if e.Store? {
      assert (s.requests[id].phase.keys, s.now) in s'.history;
    }
  }

  lemma OnlyOneMoves(s: System, e: Event, s': System)
    requires Step(s, e, s')
    ensures s.now <= s'.now && s.history <= s'.history
    ensures IsOwn(e) ==> IdOf(e) in s'.requests && s'.requests == s.requests[IdOf(e) := s'.requests[IdOf(e)]]
    ensures !IsOwn(e) ==> s'.requests == s.requests
  {
    hide ShouldRefresh, HitAt, Cached, Stored, Claim, Prewarmed, Find;
  }

  lemma StepKeepsGood(s: System, e: Event, s': System)
    requires Inv(s) && Step(s, e, s')
    ensures forall i :: i in s'.requests ==> RequestIsGood(s', s'.requests[i])
  {
    hide RequestIsGood, LockIsHeld, ClaimsAreApart, SendsFollow, CacheIsKnown, Step;
    OnlyOneMoves(s, e, s');
    if IsOwn(e) {
      if e.Look? || e.LookAgain? {
        LookIsGood(s, e, s');
      } else {
        MoveIsGood(s, e, s');
      }
      OthersStayGood(s, s', IdOf(e));
    } else {
      forall i | i in s'.requests ensures RequestIsGood(s', s'.requests[i]) {
        GoodLater(s, s', s.requests[i]);
      }
    }
  }

  lemma StepKeepsLock(s: System, e: Event, s': System)
    requires LockIsHeld(s) && Step(s, e, s')
    ensures LockIsHeld(s')
  {
    hide ShouldRefresh, HitAt, Cached, Claim, Stored, Prewarmed;
  }

  lemma StepKeepsClaims(s: System, e: Event, s': System)
    requires Inv(s) && Step(s, e, s')
    ensures ClaimsAreApart(s') && CacheIsKnown(s')
  {
    hide HitAt, Cached, LockIsHeld;
    if e.LookAgain? {
      assert RequestIsGood(s, s.requests[e.id]);
    }
  }

  lemma StepKeepsSends(s: System, e: Event, s': System)
    requires LockIsHeld(s) && ClaimsAreApart(s) && SendsFollow(s) && Step(s, e, s')
    ensures SendsFollow(s')
  {
    hide ShouldRefresh, HitAt, Cached, Claim, Stored, Prewarmed;
  }

  lemma StepKeepsInv(s: System, e: Event, s': System)
    requires Inv(s) && Step(s, e, s')
    ensures Inv(s')
  {
    hide Step, RequestIsGood, LockIsHeld, ClaimsAreApart, CacheIsKnown, SendsFollow;
    StepKeepsGood(s, e, s');
    StepKeepsLock(s, e, s');
    StepKeepsClaims(s, e, s');
    StepKeepsSends(s, e, s');
  }

  datatype Run = Run(states: seq<System>, events: seq<Event>)

  ghost predicate Starts(s: System) {
    && s.cache.keys == None && s.cache.fetchedAt == None && s.refresher == None && s.requests == map[]
    && s.history == {} && s.claims == [] && s.sends == []
  }

  ghost predicate IsRun(run: Run) {
    && |run.states| == |run.events| + 1
    && Starts(run.states[0])
    && forall i :: 0 <= i < |run.events| ==> Step(run.states[i], run.events[i], run.states[i + 1])
  }

  lemma {:induction false} RunKeepsInv(run: Run, i: nat)
    requires IsRun(run) && i < |run.states|
    ensures Inv(run.states[i])
  {
    hide Step;
    if i > 0 {
      RunKeepsInv(run, i - 1);
      assert Step(run.states[i - 1], run.events[i - 1], run.states[i - 1 + 1]);
      StepKeepsInv(run.states[i - 1], run.events[i - 1], run.states[i]);
    }
  }

  predicate InFlight(r: Request) {
    r.phase.Claimed? || r.phase.Sent? || r.phase.Received?
  }

  /** At most one refresh is in flight. */
  lemma SingleFlight(run: Run, i: nat, a: nat, b: nat)
    requires IsRun(run) && i < |run.states| && a in run.states[i].requests && b in run.states[i].requests
    requires InFlight(run.states[i].requests[a]) && InFlight(run.states[i].requests[b])
    ensures a == b
  {
    RunKeepsInv(run, i);
  }

  /** Refreshes are claimed at clock readings at least five minutes apart. */
  lemma ClaimsFiveMinutesApart(run: Run, i: nat, j: nat, k: nat)
    requires IsRun(run) && i < |run.states| && j < k < |run.states[i].claims|
    ensures run.states[i].claims[j] + MINIMUM_RETRY_INTERVAL <= run.states[i].claims[k]
  {
    RunKeepsInv(run, i);
  }

  /** Between the requests actually sent the five minutes may be short by the first one's delay after its claim. */
  lemma SendsAreAlmostApart(run: Run, i: nat, j: nat, k: nat)
    requires IsRun(run) && i < |run.states| && j < k < |run.states[i].sends|
    ensures |run.states[i].sends| <= |run.states[i].claims|
    ensures var claims, sends := run.states[i].claims, run.states[i].sends;
            0 <= sends[j] - claims[j] && sends[j] + MINIMUM_RETRY_INTERVAL - (sends[j] - claims[j]) <= sends[k]
  {
    RunKeepsInv(run, i);
  }

  // ----- a request without others -----

  lemma Extend(run: Run, e: Event, s: System) returns (longer: Run)
    requires IsRun(run) && Step(run.states[|run.states| - 1], e, s)
    ensures IsRun(longer) && longer.states[|longer.states| - 1] == s
  {
    hide Step;
    longer := Run(run.states + [s], run.events + [e]);
    forall i | 0 <= i < |longer.events| ensures Step(longer.states[i], longer.events[i], longer.states[i + 1]) {
      if i < |run.events| {
        assert Step(run.states[i], run.events[i], run.states[i + 1]);
      }
    }
  }

  lemma RunHasStates(run: Run)
    requires IsRun(run)
    ensures run.states != []
  {
  }

  function With(s: System, id: nat, r: Request): System {
    s.(requests := s.requests[id := r])
  }

  lemma TimePasses(run: Run, to: int) returns (longer: Run)
    requires IsRun(run) && run.states[|run.states| - 1].now <= to
    ensures IsRun(longer) && longer.states[|longer.states| - 1] == run.states[|run.states| - 1].(now := to)
  {
    hide IsRun;
    RunHasStates(run);
    var s := run.states[|run.states| - 1];
    longer := Extend(run, Tick(to), s.(now := to));
  }

  /** After the first look. */
  function Asked(s: System, id: nat, kid: string, first: int): System {
    var hit := HitAt(s.cache, kid, first);
    With(s.(now := first), id, Request(kid, [first], if ShouldRefresh(s.cache, kid, first) then Wanting(hit) else Returned(AnswerOf(hit))))
  }

  lemma Asks(run: Run, id: nat, kid: string, first: int) returns (longer: Run)
    requires IsRun(run) && id !in run.states[|run.states| - 1].requests && run.states[|run.states| - 1].now <= first
    ensures IsRun(longer) && longer.states[|longer.states| - 1] == Asked(run.states[|run.states| - 1], id, kid, first)
  {
    hide IsRun, ShouldRefresh, HitAt;
    RunHasStates(run);
    longer := TimePasses(run, first);
    RunHasStates(longer);
    var s := longer.states[|longer.states| - 1];
    longer := Extend(longer, Arrive(id, kid), With(s, id, Request(kid, [], Arrived)));
    assert [] + [first] == [first];
    longer := Extend(longer, ReadClock(id), With(s, id, Request(kid, [first], Read(first))));
    longer := Extend(longer, Look(id), Asked(run.states[|run.states| - 1], id, kid, first));
    RunHasStates(longer);
  }

  /** The refresh lock is held by another request. */
  lemma FindsLocked(run: Run, id: nat) returns (longer: Run)
    requires IsRun(run) && id in run.states[|run.states| - 1].requests && run.states[|run.states| - 1].requests[id].phase.Wanting?
    requires run.states[|run.states| - 1].refresher.Some?
    ensures IsRun(longer)
    ensures var s := run.states[|run.states| - 1];
            longer.states[|longer.states| - 1] == In(s, id, Returned(AnswerOf(s.requests[id].phase.cached)))
  {
    hide IsRun;
    RunHasStates(run);
    var s := run.states[|run.states| - 1];
    longer := Extend(run, TryLock(id), In(s, id, Returned(AnswerOf(s.requests[id].phase.cached))));
    RunHasStates(longer);
  }

  /** After the second look, the refresh lock having been free. */
  function LookedAgain(s: System, id: nat, second: int): System
    requires id in s.requests && s.requests[id].phase.Wanting?
  {
    var r := s.requests[id];
    if ShouldRefresh(s.cache, r.kid, second) then
      With(s.(now := second, cache := Claim(s.cache, second), claims := s.claims + [second], refresher := Some(id)), id,
           Request(r.kid, r.readings + [second], Claimed(r.phase.cached, second)))
    else
      With(s.(now := second), id, Request(r.kid, r.readings + [second], Returned(AnswerOf(HitAt(s.cache, r.kid, second)))))
  }

  lemma LooksAgain(run: Run, id: nat, second: int) returns (longer: Run)
    requires IsRun(run) && id in run.states[|run.states| - 1].requests && run.states[|run.states| - 1].requests[id].phase.Wanting?
    requires run.states[|run.states| - 1].refresher.None? && run.states[|run.states| - 1].now <= second
    ensures IsRun(longer) && longer.states[|longer.states| - 1] == LookedAgain(run.states[|run.states| - 1], id, second)
  {
    hide IsRun, ShouldRefresh, HitAt, Claim;
    RunHasStates(run);
    var start := run.states[|run.states| - 1];
    var r := start.requests[id];
    longer := TimePasses(run, second);
    RunHasStates(longer);
    var s := longer.states[|longer.states| - 1];
    var locked := With(s, id, Request(r.kid, r.readings, Locked(r.phase.cached))).(refresher := Some(id));
    longer := Extend(longer, TryLock(id), locked);
    var read := With(locked, id, Request(r.kid, r.readings + [second], ReadAgain(r.phase.cached, second)));
    longer := Extend(longer, ReadClock(id), read);
    longer := Extend(longer, LookAgain(id), LookedAgain(start, id, second));
    RunHasStates(longer);
  }

  /** After a fetch sent at `sent`, whose answer, if any, is stored at `third`. */
  function Fetched(s: System, id: nat, sent: int, third: int, fetched: Option<KeySet>): System
    requires id in s.requests && s.requests[id].phase.Claimed?
  {
    var r := s.requests[id];
    if fetched.None? then
      With(s.(now := sent, sends := s.sends + [sent], refresher := None), id,
           r.(phase := Returned(if r.phase.cached.Some? then FromCache(r.phase.cached.value) else Failed)))
    else
      var found := Find(fetched.value, r.kid);
      With(s.(now := third, sends := s.sends + [sent], refresher := None, cache := Stored(s.cache, fetched.value, third),
              history := s.history + {(fetched.value, third)}), id,
           r.(phase := Returned(if found.Some? then Fresh(found.value, fetched.value) else NoKey)))
  }

  lemma Fetches(run: Run, id: nat, sent: int, third: int, fetched: Option<KeySet>) returns (longer: Run)
    requires IsRun(run) && id in run.states[|run.states| - 1].requests && run.states[|run.states| - 1].requests[id].phase.Claimed?
    requires run.states[|run.states| - 1].now <= sent <= third
    ensures IsRun(longer) && longer.states[|longer.states| - 1] == Fetched(run.states[|run.states| - 1], id, sent, third, fetched)
  {
    hide IsRun, Find, Stored;
    RunHasStates(run);
    var start := run.states[|run.states| - 1];
    var r := start.requests[id];
    longer := TimePasses(run, sent);
    RunHasStates(longer);
    var s := longer.states[|longer.states| - 1];
    var out := With(s.(sends := s.sends + [sent]), id, r.(phase := Sent(r.phase.cached, r.phase.at)));
    longer := Extend(longer, Send(id), out);
    if fetched.None? {
      longer := Extend(longer, Receive(id, None), Fetched(start, id, sent, third, None));
    } else {
      longer := Extend(longer, Receive(id, fetched), With(out, id, r.(phase := Received(fetched.value))));
      RunHasStates(longer);
      longer := TimePasses(longer, third);
      RunHasStates(longer);
      longer := Extend(longer, Store(id), Fetched(start, id, sent, third, fetched));
    }
    RunHasStates(longer);
  }

  function ResultOf(answer: Answer): Result<Option<int>, FetchError> {
    match answer
    case FromCache(hit) => Ok(Some(hit.key))
    case Fresh(key, _) => Ok(Some(key))
    case NoKey => Ok(None)
    case Failed => Err(FetchFailed)
  }

  lemma HitAnswer(c: Cache, kid: string, now: int)
    ensures ResultOf(AnswerOf(HitAt(c, kid, now))) == Ok(Cached(c, kid, now))
  {
  }

  /** The method is a run of the protocol in which no other request comes between. */
  lemma JwkForIsRun(run: Run, id: nat, kid: string, first: int, second: int, third: int, fetched: Option<KeySet>) returns (longer: Run)
    requires IsRun(run) && id !in run.states[|run.states| - 1].requests && run.states[|run.states| - 1].now <= first <= second <= third
    ensures IsRun(longer)
    ensures var s, s' := run.states[|run.states| - 1], longer.states[|longer.states| - 1];
            && id in s'.requests && s'.requests[id].phase.Returned? && s'.refresher == s.refresher
            && (ResultOf(s'.requests[id].phase.answer), s'.cache)
               == Outcome(s.cache, s.cache, Claim(s.cache, second), kid, first, second, third, s.refresher.None?, fetched)
  {
    hide IsRun, ShouldRefresh, HitAt, Cached, Claim, Stored;
    RunHasStates(run);
    var c := run.states[|run.states| - 1].cache;
    HitAnswer(c, kid, first);
    HitAnswer(c, kid, second);
    longer := Asks(run, id, kid, first);
    RunHasStates(longer);
    if ShouldRefresh(c, kid, first) {
      if run.states[|run.states| - 1].refresher.Some? {
        longer := FindsLocked(longer, id);
        RunHasStates(longer);
      } else {
        longer := LooksAgain(longer, id, second);
        RunHasStates(longer);
        if ShouldRefresh(c, kid, second) {
          HitIsCached(c, kid, first);
          longer := Fetches(longer, id, second, third, fetched);
          RunHasStates(longer);
        }
      }
    }
  }

  lemma HitIsCached(c: Cache, kid: string, now: int)
    ensures HitAt(c, kid, now).Some? <==> Cached(c, kid, now).Some?
    ensures HitAt(c, kid, now).Some? ==> Cached(c, kid, now) == Some(HitAt(c, kid, now).value.key)
  {
  }

  // ----- how close sends can be -----

  lemma EmptyRefreshes(c: Cache, now: int)
    requires c.keys == None && c.fetchedAt == None && now >= c.nextRefreshAt
    ensures ShouldRefresh(c, "k", now) && HitAt(c, "k", now) == None
  {
  }

  /** A refresh claimed at `at`, sent at `sent`, without an answer. */
  lemma FailedRefresh(run: Run, id: nat, at: int, sent: int) returns (longer: Run)
    requires IsRun(run) && id !in run.states[|run.states| - 1].requests && run.states[|run.states| - 1].now <= at <= sent
    requires var s := run.states[|run.states| - 1];
             s.cache.keys == None && s.cache.fetchedAt == None && s.cache.nextRefreshAt <= at && s.refresher.None?
    ensures IsRun(longer)
    ensures var s, s' := run.states[|run.states| - 1], longer.states[|longer.states| - 1];
            && s'.cache == Claim(s.cache, at) && s'.refresher == None && s'.now == sent
            && s'.claims == s.claims + [at] && s'.sends == s.sends + [sent]
            && s'.requests.Keys == s.requests.Keys + {id}
  {
    hide IsRun, ShouldRefresh, HitAt, Claim;
    RunHasStates(run);
    EmptyRefreshes(run.states[|run.states| - 1].cache, at);
    longer := Asks(run, id, "k", at);
    RunHasStates(longer);
    longer := LooksAgain(longer, id, at);
    RunHasStates(longer);
    longer := Fetches(longer, id, sent, sent, None);
    RunHasStates(longer);
  }

  /** Two refreshes claimed five minutes apart, the first sent any time before the second. */
  lemma SendsCanBeClose(delay: nat) returns (run: Run)
    requires delay <= MINIMUM_RETRY_INTERVAL
    ensures IsRun(run) && run.states[|run.states| - 1].sends == [delay, MINIMUM_RETRY_INTERVAL]
    ensures run.states[|run.states| - 1].claims == [0, MINIMUM_RETRY_INTERVAL]
  {
    hide Step;
    var start := System(Cache(None, None, 0), None, map[], 0, {}, [], []);
    var first := FailedRefresh(Run([start], []), 1, 0, delay);
    run := FailedRefresh(first, 2, MINIMUM_RETRY_INTERVAL, MINIMUM_RETRY_INTERVAL);
  }

  /** Every refresh is sent at most `delay` after it was claimed. */
  ghost predicate DelaysWithin(s: System, delay: nat) {
    |s.sends| <= |s.claims| && forall i :: 0 <= i < |s.sends| ==> s.sends[i] <= s.claims[i] + delay
  }

  ghost predicate SendsAreApart(s: System) {
    forall i, j :: 0 <= i < j < |s.sends| ==> s.sends[i] + MINIMUM_RETRY_INTERVAL <= s.sends[j]
  }

  ghost predicate AlwaysApart(delay: nat) {
    forall run: Run :: IsRun(run) && DelaysWithin(run.states[|run.states| - 1], delay) ==> SendsAreApart(run.states[|run.states| - 1])
  }

  /** Refreshes are sent five minutes apart in every run if and only if they are sent the moment they are claimed. */
  lemma SendsAreApartExactly(delay: nat)
    ensures AlwaysApart(delay) <==> delay == 0
  {
    hide Step;
    if delay == 0 {
      forall run: Run | IsRun(run) && DelaysWithin(run.states[|run.states| - 1], 0)
        ensures SendsAreApart(run.states[|run.states| - 1])
      {
        RunHasStates(run);
        var s, last := run.states[|run.states| - 1], |run.states| - 1;
        forall i, j | 0 <= i < j < |s.sends| ensures s.sends[i] + MINIMUM_RETRY_INTERVAL <= s.sends[j] {
          SendsAreAlmostApart(run, last, i, j);
        }
      }
    } else {
      var run := SendsCanBeClose(Min(delay, MINIMUM_RETRY_INTERVAL));
      RunHasStates(run);
      var s := run.states[|run.states| - 1];
      assert DelaysWithin(s, delay);
      assert s.sends[0] + MINIMUM_RETRY_INTERVAL > s.sends[1];
    }
  }

  // ----- what is returned -----

  /** The set that this request fetched, once it has. */
  function FetchedSet(phase: Phase): Option<KeySet> {
    if phase.Received? then Some(phase.keys)
    else if phase.Returned? && phase.answer.Fresh? then Some(phase.answer.keys)
    else None
  }

  lemma StepFetched(s: System, e: Event, s': System, id: nat, keys: KeySet)
    requires Step(s, e, s') && id in s'.requests && FetchedSet(s'.requests[id].phase) == Some(keys)
    ensures e == Receive(id, Some(keys)) || (id in s.requests && FetchedSet(s.requests[id].phase) == Some(keys))
  {
    hide ShouldRefresh, HitAt, Cached, Claim, Stored, Prewarmed;
  }

  /** A fetched set was received by this very request. */
  lemma {:induction false} FetchedIsReceived(run: Run, i: nat, id: nat, keys: KeySet) returns (j: nat)
    requires IsRun(run) && i < |run.states| && id in run.states[i].requests && FetchedSet(run.states[i].requests[id].phase) == Some(keys)
    ensures j < i && run.events[j] == Receive(id, Some(keys))
  {
    hide Step;
    assert i > 0;
    j := i - 1;
    assert Step(run.states[j], run.events[j], run.states[j + 1]);
    StepFetched(run.states[j], run.events[j], run.states[i], id, keys);
    if run.events[j] != Receive(id, Some(keys)) {
      j := FetchedIsReceived(run, i - 1, id, keys);
    }
  }

  /** A returned key was just fetched, or comes from a set at most 24 hours old when this request read the clock. */
  lemma ReturnedKeyIsRecent(run: Run, i: nat, id: nat)
    requires IsRun(run) && i < |run.states| && id in run.states[i].requests
    requires run.states[i].requests[id].phase.Returned?
    ensures var r := run.states[i].requests[id];
            match r.phase.answer
            case FromCache(hit) =>
              && (hit.keys, hit.fetchedAt) in run.states[i].history && Find(hit.keys, r.kid) == Some(hit.key)
              && hit.reading in r.readings && hit.reading <= run.states[i].now
              && hit.reading - hit.fetchedAt <= MAXIMUM_STALE
            case Fresh(key, keys) =>
              Find(keys, r.kid) == Some(key) && exists j :: 0 <= j < i && run.events[j] == Receive(id, Some(keys))
            case _ => true
  {
    RunKeepsInv(run, i);
    var answer := run.states[i].requests[id].phase.answer;
    if answer.Fresh? {
      var j := FetchedIsReceived(run, i, id, answer.keys);
    }
    assert RequestIsGood(run.states[i], run.states[i].requests[id]);
  }
}

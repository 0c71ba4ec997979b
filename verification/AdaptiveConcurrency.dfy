/**
  The adaptive concurrency controller: how many requests to a source may be under way, learnt from
  how earlier ones ended. Threads share it through a mutex and a condition variable.
 */
module AdaptiveConcurrency {
  import opened Common

  const SOURCE_WORKER_CEILING := 10

  datatype Outcome = Success | Neutral | Transient | Congestion

  /** The state under the mutex. Instants are integers; `until` closes the congestion window. */
  datatype Control = Control(active: nat, limit: nat, ceiling: nat, successes: nat, until: Option<int>)

  function Initial(): Control {
    Control(0, 1, SOURCE_WORKER_CEILING, 0, None)
  }

  function Half(limit: nat): nat {
    if limit / 2 >= 1 then limit / 2 else 1
  }

  predicate BeginsEpisode(s: Control, now: int) {
    s.until.None? || now >= s.until.value
  }

  function Released(s: Control): Control {
    s.(active := if s.active > 0 then s.active - 1 else 0)
  }

  function Window(until: Option<int>, now: int, delay: Option<nat>): Option<int> {
    if delay.Some? && (until.None? || now + delay.value > until.value) then Some(now + delay.value) else until
  }

  /** How an outcome moves the limit, the learned ceiling and the window. */
  function AfterFinish(s: Control, outcome: Outcome, now: int, delay: Option<nat>): Control {
    var r := Released(s);
    match outcome
    case Success =>
      if r.limit < r.ceiling && r.successes + 1 >= r.limit then r.(limit := r.limit + 1, successes := 0)
      else r.(successes := r.successes + 1)
    case Neutral => r
    case Transient => r.(limit := Half(r.limit), successes := 0)
    case Congestion =>
      var ceiling := if BeginsEpisode(s, now) then Min(r.ceiling, Half(r.limit)) else r.ceiling;
      r.(ceiling := ceiling, limit := Min(r.limit, ceiling), successes := 0, until := Window(r.until, now, delay))
  }

  // ----- the object -----

  class Controller {
    var active: nat
    var limit: nat
    var learnedCeiling: nat
    var successesSinceIncrease: nat
    var congestionUntil: Option<int>

    constructor ()
      ensures Now() == Initial()
    {
      active, limit, learnedCeiling, successesSinceIncrease, congestionUntil := 0, 1, SOURCE_WORKER_CEILING, 0, None;
    }

    function Now(): Control
      reads this
    {
      Control(active, limit, learnedCeiling, successesSinceIncrease, congestionUntil)
    }

    /** One turn of the waiting loop: admitted, or asleep. */
    method TryAcquire() returns (admitted: bool)
      modifies this
      ensures admitted == old(active < limit)
      ensures Now() == if admitted then old(Now()).(active := old(active) + 1) else old(Now())
    {
      if active >= limit {
        return false;
      }
      active := active + 1;
      return true;
    }

    method Finish(outcome: Outcome, now: int, delay: Option<nat>)
      modifies this
      ensures Now() == AfterFinish(old(Now()), outcome, now, delay)
    {
      active := if active > 0 then active - 1 else 0;
      var limitBefore := limit;
      match outcome {
        case Success =>
          successesSinceIncrease := successesSinceIncrease + 1;
          if limit < learnedCeiling && successesSinceIncrease >= limit {
            limit := limit + 1;
            successesSinceIncrease := 0;
          }
        case Neutral =>
        case Transient =>
          limit := Half(limit);
          successesSinceIncrease := 0;
        case Congestion =>
          if congestionUntil.None? || now >= congestionUntil.value {
            learnedCeiling := Min(learnedCeiling, Half(limitBefore));
          }
          if delay.Some? {
            var candidate := now + delay.value;
            if congestionUntil.None? || candidate > congestionUntil.value {
              congestionUntil := Some(candidate);
            }
          }
          limit := Min(limit, learnedCeiling);
          successesSinceIncrease := 0;
      }
    }

    method ReleaseUnfinished()
      modifies this
      ensures Now() == Released(old(Now()))
    {
      active := if active > 0 then active - 1 else 0;
    }
  }

  // ----- threads -----

  /** A thread wants the mutex, sleeps on the condition variable, or holds a request. */
  datatype Thread = Queued | Sleeping | Holding

  datatype System = System(control: Control, threads: map<nat, Thread>, now: int)

  datatype Event =
    | Arrive(id: nat)
    | Admit(id: nat)
    | Sleep(id: nat)
    | Wake(id: nat)
    | Finish(id: nat, outcome: Outcome, delay: Option<nat>)
    | Release(id: nat)
    | Tick(to: int)

  /** notify_all */
  function Woken(threads: map<nat, Thread>): map<nat, Thread> {
    map id | id in threads :: if threads[id] == Sleeping then Queued else threads[id]
  }

  ghost predicate Step(s: System, e: Event, s': System) {
    match e
    case Arrive(id) => id !in s.threads && s' == s.(threads := s.threads[id := Queued])
    case Admit(id) =>
      && id in s.threads && s.threads[id] == Queued && s.control.active < s.control.limit
      && s' == s.(control := s.control.(active := s.control.active + 1), threads := s.threads[id := Holding])
    case Sleep(id) =>
      && id in s.threads && s.threads[id] == Queued && s.control.active >= s.control.limit
      && s' == s.(threads := s.threads[id := Sleeping])
    case Wake(id) => id in s.threads && s.threads[id] == Sleeping && s' == s.(threads := s.threads[id := Queued])
    case Finish(id, outcome, delay) =>
      && id in s.threads && s.threads[id] == Holding
      && s' == s.(control := AfterFinish(s.control, outcome, s.now, delay), threads := Woken(s.threads - {id}))
    case Release(id) =>
      && id in s.threads && s.threads[id] == Holding
      && s' == s.(control := Released(s.control), threads := Woken(s.threads - {id}))
    case Tick(to) => to >= s.now && s' == s.(now := to)
  }

  function Holders(threads: map<nat, Thread>): set<nat> {
    set id | id in threads && threads[id] == Holding
  }

  predicate Balanced(c: Control) {
    && 1 <= c.limit <= c.ceiling <= SOURCE_WORKER_CEILING
    && (c.limit < c.ceiling ==> c.successes < c.limit)
    && c.active <= SOURCE_WORKER_CEILING
  }

  /** `active` counts the requests held, the limits are in order, and nobody sleeps while there is room. */
  ghost predicate Inv(s: System) {
    && Balanced(s.control)
    && s.control.active == |Holders(s.threads)|
    && (forall id :: id in s.threads && s.threads[id] == Sleeping ==> s.control.active >= s.control.limit)
  }

  lemma FinishIsBalanced(c: Control, outcome: Outcome, now: int, delay: Option<nat>)
    requires Balanced(c)
    ensures Balanced(AfterFinish(c, outcome, now, delay)) && Balanced(Released(c))
  {
  }

  lemma HoldersChange(threads: map<nat, Thread>, id: nat, to: Thread)
    ensures to == Holding ==> Holders(threads[id := to]) == Holders(threads) + {id}
    ensures to != Holding ==> Holders(threads[id := to]) == Holders(threads) - {id}
    ensures Holders(Woken(threads - {id})) == Holders(threads) - {id}
  {
  }

  lemma StepKeepsInv(s: System, e: Event, s': System)
    requires Inv(s) && Step(s, e, s')
    ensures Inv(s')
  {
    hide AfterFinish, Holders, Balanced, Inv;
    match e {
      case Arrive(id) => WaitKeepsInv(s, id, Queued, s');
      case Sleep(id) => WaitKeepsInv(s, id, Sleeping, s');
      case Wake(id) => WaitKeepsInv(s, id, Queued, s');
      case Admit(id) => AdmitKeepsInv(s, id, s');
      case Finish(id, outcome, delay) => EndKeepsInv(s, id, outcome, delay, s'.control, s');
      case Release(id) => EndKeepsInv(s, id, Neutral, None, s'.control, s');
      case Tick(to) => TickKeepsInv(s, s');
    }
  }

  lemma TickKeepsInv(s: System, s': System)
    requires Inv(s) && s'.control == s.control && s'.threads == s.threads
    ensures Inv(s')
  {
  }

  lemma WaitKeepsInv(s: System, id: nat, to: Thread, s': System)
    requires Inv(s) && (id in s.threads ==> s.threads[id] != Holding) && to != Holding
    requires to == Sleeping ==> s.control.active >= s.control.limit
    requires s' == s.(threads := s.threads[id := to])
    ensures Inv(s')
  {
    hide Balanced, Holders;
    HoldersChange(s.threads, id, to);
    NotHolding(s.threads, id);
    assert Holders(s.threads) - {id} == Holders(s.threads);
  }

  lemma AdmitKeepsInv(s: System, id: nat, s': System)
    requires Inv(s) && Step(s, Admit(id), s')
    ensures Inv(s')
  {
    hide Balanced, Holders;
    HoldersChange(s.threads, id, Holding);
    NotHolding(s.threads, id);
    AdmitIsBalanced(s.control);
  }

  lemma EndKeepsInv(s: System, id: nat, outcome: Outcome, delay: Option<nat>, control: Control, s': System)
    requires Inv(s) && id in s.threads && s.threads[id] == Holding
    requires control in {AfterFinish(s.control, outcome, s.now, delay), Released(s.control)}
    requires s' == s.(control := control, threads := Woken(s.threads - {id}))
    ensures Inv(s')
  {
    hide Balanced, Holders, AfterFinish;
    HoldersChange(s.threads, id, Queued);
    NotHolding(s.threads, id);
    FinishIsBalanced(s.control, outcome, s.now, delay);
    FinishReleases(s.control, outcome, s.now, delay);
  }

  lemma NotHolding(threads: map<nat, Thread>, id: nat)
    ensures id in Holders(threads) <==> id in threads && threads[id] == Holding
  {
  }

  lemma AdmitIsBalanced(c: Control)
    requires Balanced(c) && c.active < c.limit
    ensures Balanced(c.(active := c.active + 1))
  {
  }

  lemma FinishReleases(c: Control, outcome: Outcome, now: int, delay: Option<nat>)
    ensures AfterFinish(c, outcome, now, delay).active == Released(c).active
  {
  }

  /** A thread that ends a request finds `active` positive: the saturating subtraction never saturates. */
  lemma NeverSaturates(s: System, id: nat)
    requires Inv(s) && id in s.threads && s.threads[id] == Holding
    ensures s.control.active > 0 && Released(s.control).active == s.control.active - 1
  {
    assert id in Holders(s.threads);
  }

  /** With nothing active nobody sleeps, and any thread that waits can be admitted. */
  lemma WaiterCanBeAdmitted(s: System, id: nat)
    requires Inv(s) && Holders(s.threads) == {} && id in s.threads
    ensures s.threads[id] == Queued
    ensures exists s' :: Step(s, Admit(id), s')
  {
    assert s.threads[id] == Holding ==> id in Holders(s.threads);
    var s' := s.(control := s.control.(active := s.control.active + 1), threads := s.threads[id := Holding]);
    assert Step(s, Admit(id), s');
  }

  // ----- runs -----

  datatype Run = Run(states: seq<System>, events: seq<Event>)

  ghost predicate IsRun(run: Run) {
    && |run.states| == |run.events| + 1
    && run.states[0].control == Initial() && run.states[0].threads == map[]
    && forall i :: 0 <= i < |run.events| ==> Step(run.states[i], run.events[i], run.states[i + 1])
  }

  lemma {:induction false} RunKeepsInv(run: Run, i: nat)
    requires IsRun(run) && i < |run.states|
    ensures Inv(run.states[i])
  {
    hide Step;
    if i == 0 {
      StartsInv(run.states[0]);
    } else {
      RunKeepsInv(run, i - 1);
      assert Step(run.states[i - 1], run.events[i - 1], run.states[i - 1 + 1]);
      StepKeepsInv(run.states[i - 1], run.events[i - 1], run.states[i]);
    }
  }

  lemma StartsInv(s: System)
    requires s.control == Initial() && s.threads == map[]
    ensures Inv(s)
  {
    assert Holders(s.threads) == {};
  }

  /** Time and the end of the congestion window never go back; the ceiling never rises. */
  lemma StepMoves(s: System, e: Event, s': System)
    requires Inv(s) && Step(s, e, s')
    ensures s.now <= s'.now && s'.control.ceiling <= s.control.ceiling
    ensures s.control.until.Some? ==> s'.control.until.Some? && s.control.until.value <= s'.control.until.value
    ensures s'.control.ceiling < s.control.ceiling ==>
              && e.Finish? && e.outcome == Congestion && BeginsEpisode(s.control, s.now)
              && s'.control.ceiling == Half(s.control.limit) <= Half(s.control.ceiling)
              && s.control.ceiling > 1 && s'.now == s.now
              && (e.delay.Some? ==> s'.control.until.Some? && s.now + e.delay.value <= s'.control.until.value)
  {
    hide Holders, Woken;
  }

  // ----- what each outcome does, in plain numbers -----

  /** A transient failure halves the limit, down to 1 at the lowest, and starts counting successes anew; nothing else but the place changes. */
  lemma TransientHalves(s: System, e: Event, s': System)
    requires Step(s, e, s') && e.Finish? && e.outcome == Transient
    ensures s'.control.limit == if s.control.limit < 4 then 1 else s.control.limit / 2
    ensures s'.control.successes == 0 && s'.control.ceiling == s.control.ceiling && s'.control.until == s.control.until
  {
  }

  /** From any limit, three transient failures one after another leave one request at a time. */
  lemma ThreeTransientsLeaveOne(a: System, b: System, c: System, d: System, e: Event, f: Event, g: Event)
    requires Inv(a) && Step(a, e, b) && Step(b, f, c) && Step(c, g, d)
    requires e.Finish? && f.Finish? && g.Finish? && e.outcome == f.outcome == g.outcome == Transient
    ensures d.control.limit == 1
  {
    hide Step, Holders, AfterFinish;
    TransientHalves(a, e, b);
    TransientHalves(b, f, c);
    TransientHalves(c, g, d);
  }

  /**
    Congestion outside an open window lowers the ceiling to half the limit, if that is lower; inside one
    it leaves the ceiling. The limit stays within the ceiling, and the window ends no earlier than the
    retry delay from now.
   */
  lemma CongestionLowers(s: System, e: Event, s': System)
    requires Inv(s) && Step(s, e, s') && e.Finish? && e.outcome == Congestion
    ensures var open := s.control.until.Some? && s.now < s.control.until.value;
            var half := if s.control.limit < 4 then 1 else s.control.limit / 2;
            && s'.control.ceiling == (if open || half > s.control.ceiling then s.control.ceiling else half)
            && s'.control.limit == (if s.control.limit > s'.control.ceiling then s'.control.ceiling else s.control.limit)
            && s'.control.successes == 0
    ensures e.delay.None? ==> s'.control.until == s.control.until
    ensures e.delay.Some? ==>
              && s'.control.until.Some? && s'.control.until.value >= s.now + e.delay.value
              && (s.control.until.Some? ==> s'.control.until.value >= s.control.until.value)
              && (s'.control.until == s.control.until || s'.control.until.value == s.now + e.delay.value)
  {
    hide Holders, Woken;
  }

  /** Neither a neutral outcome nor a request that never ended moves the limits. */
  lemma NeutralOnlyReleases(s: System, e: Event, s': System)
    requires Inv(s) && Step(s, e, s') && (e.Release? || (e.Finish? && e.outcome == Neutral))
    ensures s.control.active > 0 && s'.control == s.control.(active := s.control.active - 1)
  {
    hide Holders, Woken;
    NeverSaturates(s, e.id);
  }

  predicate FallsAt(run: Run, i: nat)
    requires i + 1 < |run.states|
  {
    run.states[i + 1].control.ceiling < run.states[i].control.ceiling
  }

  function Falls(run: Run, n: nat): nat
    requires n < |run.states|
  {
    if n == 0 then 0 else Falls(run, n - 1) + if FallsAt(run, n - 1) then 1 else 0
  }

  /** The most the ceiling can be after so many falls. */
  function HighestAfter(falls: nat): nat {
    if falls == 0 then 10 else if falls == 1 then 5 else if falls == 2 then 2 else 1
  }

  /** The learned ceiling falls at most three times in a run. */
  lemma {:induction false} CeilingFallsAtMostThreeTimes(run: Run, n: nat)
    requires IsRun(run) && n < |run.states|
    ensures Falls(run, n) <= 3 && run.states[n].control.ceiling <= HighestAfter(Falls(run, n))
  {
    hide Step, AfterFinish;
    if n > 0 {
      CeilingFallsAtMostThreeTimes(run, n - 1);
      RunKeepsInv(run, n - 1);
      assert Step(run.states[n - 1], run.events[n - 1], run.states[n - 1 + 1]);
      StepMoves(run.states[n - 1], run.events[n - 1], run.states[n]);
    }
  }

  lemma {:induction false} CeilingOnlyFalls(run: Run, i: nat, j: nat)
    requires IsRun(run) && i <= j < |run.states|
    ensures run.states[j].control.ceiling <= run.states[i].control.ceiling
    decreases j
  {
    hide Step, AfterFinish;
    if i < j {
      CeilingOnlyFalls(run, i, j - 1);
      RunKeepsInv(run, j - 1);
      assert Step(run.states[j - 1], run.events[j - 1], run.states[j - 1 + 1]);
      StepMoves(run.states[j - 1], run.events[j - 1], run.states[j]);
    }
  }

  lemma FallHalves(run: Run, i: nat)
    requires IsRun(run) && i + 1 < |run.states|
    ensures run.states[i].control.ceiling <= 10
    ensures FallsAt(run, i) ==>
              run.states[i + 1].control.ceiling <= Half(run.states[i].control.ceiling) && run.states[i].control.ceiling > 1
  {
    hide Step, AfterFinish;
    RunKeepsInv(run, i);
    assert Step(run.states[i], run.events[i], run.states[i + 1]);
    StepMoves(run.states[i], run.events[i], run.states[i + 1]);
  }

  /** The learned ceiling never falls a fourth time, in any run. */
  lemma NoFourthFall(run: Run, i: nat, j: nat, k: nat, l: nat)
    requires IsRun(run) && i < j < k < l < |run.events|
    ensures !(run.states[i + 1].control.ceiling < run.states[i].control.ceiling
              && run.states[j + 1].control.ceiling < run.states[j].control.ceiling
              && run.states[k + 1].control.ceiling < run.states[k].control.ceiling
              && run.states[l + 1].control.ceiling < run.states[l].control.ceiling)
  {
    hide IsRun;
    assert |run.states| == |run.events| + 1 by {
      RunHasStates(run);
    }
    FallHalves(run, i);
    FallHalves(run, j);
    FallHalves(run, k);
    FallHalves(run, l);
    CeilingOnlyFalls(run, i + 1, j);
    CeilingOnlyFalls(run, j + 1, k);
    CeilingOnlyFalls(run, k + 1, l);
  }

  lemma RunHasStates(run: Run)
    requires IsRun(run)
    ensures |run.states| == |run.events| + 1
  {
  }

  /** Whatever happens, at most ten requests are held at once, and at least one may be. */
  lemma TenAtOnce(run: Run, i: nat)
    requires IsRun(run) && i < |run.states|
    ensures |set id | id in run.states[i].threads && run.states[i].threads[id] == Holding| <= 10
    ensures 1 <= run.states[i].control.limit <= run.states[i].control.ceiling <= 10
  {
    RunKeepsInv(run, i);
    assert Holders(run.states[i].threads) == set id | id in run.states[i].threads && run.states[i].threads[id] == Holding;
  }

  /** The end of a window set at step `i` is still in force, or has passed, later on. */
  lemma {:induction false} WindowLasts(run: Run, i: nat, j: nat)
    requires IsRun(run) && i <= j < |run.states| && run.states[i].control.until.Some?
    ensures run.states[j].control.until.Some?
    ensures run.states[i].control.until.value <= run.states[j].control.until.value
    decreases j
  {
    hide Step, AfterFinish;
    if i < j {
      WindowLasts(run, i, j - 1);
      RunKeepsInv(run, j - 1);
      assert Step(run.states[j - 1], run.events[j - 1], run.states[j - 1 + 1]);
      StepMoves(run.states[j - 1], run.events[j - 1], run.states[j]);
    }
  }

  /** Two falls are at least the first one's retry delay apart: one episode cannot cascade. */
  lemma FallsAreApart(run: Run, i: nat, j: nat)
    requires IsRun(run) && i < j < |run.events| && FallsAt(run, i) && FallsAt(run, j)
    ensures run.events[i].Finish? && run.events[i].outcome == Congestion
    ensures run.events[i].delay.Some? ==> run.states[i].now + run.events[i].delay.value <= run.states[j].now
  {
    hide Step, AfterFinish;
    RunKeepsInv(run, i);
    RunKeepsInv(run, j);
    assert Step(run.states[i], run.events[i], run.states[i + 1]);
    assert Step(run.states[j], run.events[j], run.states[j + 1]);
    StepMoves(run.states[i], run.events[i], run.states[i + 1]);
    StepMoves(run.states[j], run.events[j], run.states[j + 1]);
    if run.events[i].delay.Some? {
      WindowLasts(run, i + 1, j);
    }
  }

  // ----- growth -----

  /** The control after `n` requests one after another, all successful. */
  function AfterSuccesses(c: Control, n: nat): Control {
    if n == 0 then c
    else
      var before := AfterSuccesses(c, n - 1);
      AfterFinish(before.(active := before.active + 1), Success, 0, None)
  }

  /** Successes needed to bring the limit up to the ceiling. */
  function Needed(limit: nat, ceiling: nat, successes: nat): int
    decreases ceiling - limit
  {
    if limit >= ceiling then 0 else limit - successes + Needed(limit + 1, ceiling, 0)
  }

  lemma {:induction false} NeededIsPositive(limit: nat, ceiling: nat, successes: nat)
    requires 1 <= limit && (limit < ceiling ==> successes < limit)
    ensures Needed(limit, ceiling, successes) >= 0
    ensures Needed(limit, ceiling, successes) == 0 <==> limit >= ceiling
    decreases ceiling - limit
  {
    if limit < ceiling {
      NeededIsPositive(limit + 1, ceiling, 0);
    }
  }

  /** Clean responses raise the limit to the ceiling, after exactly so many of them. */
  lemma {:induction false} SuccessesReachCeiling(c: Control, n: nat)
    requires Balanced(c) && c.active < SOURCE_WORKER_CEILING
    ensures var s := AfterSuccesses(c, n);
            && Balanced(s) && s.active == c.active && s.ceiling == c.ceiling
            && (s.limit == s.ceiling <==> n >= Needed(c.limit, c.ceiling, c.successes))
            && (n <= Needed(c.limit, c.ceiling, c.successes) ==>
                  Needed(s.limit, s.ceiling, s.successes) == Needed(c.limit, c.ceiling, c.successes) - n)
  {
    NeededIsPositive(c.limit, c.ceiling, c.successes);
    if n > 0 {
      SuccessesReachCeiling(c, n - 1);
      var before := AfterSuccesses(c, n - 1);
      var s := AfterSuccesses(c, n);
      NeededIsPositive(before.limit, before.ceiling, before.successes);
      NeededIsPositive(s.limit, s.ceiling, s.successes);
    }
  }

  /** From the start that is 45 successes. */
  lemma FullSpeedAfter45(n: nat)
    ensures AfterSuccesses(Initial(), n).limit == SOURCE_WORKER_CEILING <==> n >= 45
  {
    SuccessesReachCeiling(Initial(), n);
    assert Needed(6, 10, 0) == 6 + 7 + 8 + 9;
    assert Needed(3, 10, 0) == 3 + 4 + 5 + Needed(6, 10, 0);
    assert Needed(1, 10, 0) == 1 + 2 + Needed(3, 10, 0) == 45;
  }
}

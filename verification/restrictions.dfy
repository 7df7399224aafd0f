/** Herd restrictions and the tests that lift them: the outcome of a whole-herd test moves a
    herd between "free to trade" and "restricted with n clear follow-up tests", and the two
    herd-test dates it leaves behind decide which test the herd is due next. */
module Restrictions {
  import opened Common
  import opened Units
  import opened Scenario

  /** Days between a positive test and the follow-up test of a restricted herd. */
  const FOLLOW_UP_DAYS: int := 60

  /** Clear follow-up tests a restricted herd needs before it may trade again. */
  const CLEAR_TESTS_TO_LIFT: int := 2

  /** The outcome of a whole-herd test with `reactors` reactors at `time`. A positive test
      (re)starts the restriction with no clear tests; a clear test of a restricted herd counts
      towards lifting it; a clear test of a free herd is a routine clear test. After either
      kind of test on a restricted herd the dates are (unset, time) even when the restriction
      has just been lifted. */
  function TestOutcome(h: Herds, herdId: string, reactors: int, time: int): (r: Herds)
    requires herdId in h.farms
    ensures r.farms.Keys == h.farms.Keys
    ensures forall k :: k in h.farms && k != herdId ==> r.farms[k] == h.farms[k]
    ensures forall k :: k != herdId ==>
      && (k in r.restricted <==> k in h.restricted)
      && (k in h.restricted ==> r.restricted[k] == h.restricted[k])
    ensures var f := h.farms[herdId];
      r.farms[herdId] == f.(lastClearTestDate := r.farms[herdId].lastClearTestDate,
                            lastPositiveTestDate := r.farms[herdId].lastPositiveTestDate)
  {
    var f := h.farms[herdId];
    var followUp := f.(lastClearTestDate := UNSET, lastPositiveTestDate := time);
    if reactors > 0 then
      Herds(h.farms[herdId := followUp], h.restricted[herdId := 0])
    else if herdId in h.restricted then
      var clear := h.restricted[herdId] + 1;
      Herds(h.farms[herdId := followUp],
            if clear >= CLEAR_TESTS_TO_LIFT then h.restricted - {herdId} else h.restricted[herdId := clear])
    else
      Herds(h.farms[herdId := f.(lastClearTestDate := time, lastPositiveTestDate := UNSET)], h.restricted)
  }

  /** A herd's trading standing, read off the restriction map. */
  datatype Standing = Free | Restricted(clearTests: int)

  function StandingOf(h: Herds, herdId: string): Standing
  {
    if herdId in h.restricted then Restricted(h.restricted[herdId]) else Free
  }

  /** The standing after a test: any reactor restarts the restriction at zero clear tests; a
      clear test adds one clear test to a restricted herd and frees it at the second; a free
      herd with a clear test stays free. */
  lemma OutcomeStanding(h: Herds, herdId: string, reactors: int, time: int)
    requires herdId in h.farms
    ensures var after := StandingOf(TestOutcome(h, herdId, reactors, time), herdId);
      && (reactors > 0 ==> after == Restricted(0))
      && (reactors <= 0 && StandingOf(h, herdId) == Free ==> after == Free)
      && (reactors <= 0 && StandingOf(h, herdId).Restricted? ==>
            after == if StandingOf(h, herdId).clearTests + 1 >= 2 then Free
                     else Restricted(StandingOf(h, herdId).clearTests + 1))
  {
  }

  /** A restriction started by a positive test is lifted by exactly two clear follow-up tests:
      after the first the herd is still restricted with one clear test, after the second it is
      free. */
  lemma TwoClearTestsLift(h: Herds, herdId: string, reactors: int, t0: int, t1: int, t2: int)
    requires herdId in h.farms && reactors > 0
    ensures var h0 := TestOutcome(h, herdId, reactors, t0);
      var h1 := TestOutcome(h0, herdId, 0, t1);
      var h2 := TestOutcome(h1, herdId, 0, t2);
      && StandingOf(h0, herdId) == Restricted(0)
      && StandingOf(h1, herdId) == Restricted(1)
      && StandingOf(h2, herdId) == Free
  {
  }

  // ---------------------------------------------------------------------------
  // Which test is due next
  // ---------------------------------------------------------------------------

  /** The dates `registerThetaEvents` considers for one herd, in the order it considers them:
      a routine test one interval after the last clear test when no positive test is on
      record, and a follow-up test 60 days after the last positive test when no clear test
      is on record. A herd with neither date set is considered for both. */
  function DueDates(f: Farm, intervalDays: int): (r: seq<int>)
    ensures |r| <= 2
    ensures forall d :: d in r <==>
      || (f.lastPositiveTestDate == UNSET && d == f.lastClearTestDate + intervalDays)
      || (f.lastClearTestDate == UNSET && d == f.lastPositiveTestDate + FOLLOW_UP_DAYS)
  {
    (if f.lastPositiveTestDate == UNSET then [f.lastClearTestDate + intervalDays] else [])
    + (if f.lastClearTestDate == UNSET then [f.lastPositiveTestDate + FOLLOW_UP_DAYS] else [])
  }

  /** What a test leaves due: after a positive test, or any test of a restricted herd, only a
      follow-up test 60 days later; after a clear test of a free herd, only the next routine
      test one interval later. So a herd whose restriction has just been lifted is still
      followed up after 60 days rather than returning to the routine interval. */
  lemma OutcomeSchedules(h: Herds, herdId: string, reactors: int, time: int, intervalDays: int)
    requires herdId in h.farms && time >= 0
    ensures var f := TestOutcome(h, herdId, reactors, time).farms[herdId];
      && (reactors > 0 || herdId in h.restricted ==> Elems(DueDates(f, intervalDays)) == {time + FOLLOW_UP_DAYS})
      && (reactors <= 0 && herdId !in h.restricted ==> Elems(DueDates(f, intervalDays)) == {time + intervalDays})
  {
    var f := TestOutcome(h, herdId, reactors, time).farms[herdId];
    if reactors > 0 || herdId in h.restricted {
      assert DueDates(f, intervalDays) == [time + FOLLOW_UP_DAYS];
    } else {
      assert DueDates(f, intervalDays) == [time + intervalDays];
    }
  }

  /** A whole-herd test event: the herd and the day it is tested. */
  datatype TestEvent = TestEvent(herdId: string, date: int)

  /** The step window [time, time + step): a test falls in the step that starts on or before
      it and ends after it. */
  predicate InWindow(d: int, time: int, step: int)
  {
    time <= d < time + step
  }

  /** The tests of one herd that fall in the current step. */
  function HerdTests(herdId: string, dates: seq<int>, time: int, step: int): (r: seq<TestEvent>)
    ensures forall e :: e in r <==> e.herdId == herdId && e.date in dates && InWindow(e.date, time, step)
  {
    if |dates| == 0 then []
    else (if InWindow(dates[0], time, step) then [TestEvent(herdId, dates[0])] else [])
         + HerdTests(herdId, dates[1..], time, step)
  }

  /** `registerThetaEvents`: the herds are visited in map order `order`; `intervalDays` is the
      test interval in years times 365, rounded. */
  function RegisterThetaEvents(farms: map<string, Farm>, order: seq<string>, time: int, step: int,
                               intervalDays: int): (r: seq<TestEvent>)
    requires forall i :: 0 <= i < |order| ==> order[i] in farms
  {
    if |order| == 0 then []
    else HerdTests(order[0], DueDates(farms[order[0]], intervalDays), time, step)
         + RegisterThetaEvents(farms, order[1..], time, step, intervalDays)
  }

  /** Every herd visited gets exactly the tests it is due in the window, and nothing else is
      registered. */
  lemma {:induction false} RegisteredTests(farms: map<string, Farm>, order: seq<string>, time: int, step: int,
                                           intervalDays: int, e: TestEvent)
    requires forall i :: 0 <= i < |order| ==> order[i] in farms
    ensures e in RegisterThetaEvents(farms, order, time, step, intervalDays) <==>
      && e.herdId in order
      && e.date in DueDates(farms[e.herdId], intervalDays)
      && InWindow(e.date, time, step)
  {
    if |order| > 0 {
      RegisteredTests(farms, order[1..], time, step, intervalDays, e);
      assert order == [order[0]] + order[1..];
      assert e.herdId in order <==> e.herdId == order[0] || e.herdId in order[1..];
    }
  }

  /** With the herds listed once each, a test is registered exactly when its herd exists and
      the test is due in the current step. */
  lemma RegisteredIffDue(farms: map<string, Farm>, order: seq<string>, time: int, step: int,
                         intervalDays: int, e: TestEvent)
    requires Enumerates(order, farms.Keys)
    ensures e in RegisterThetaEvents(farms, order, time, step, intervalDays) <==>
      && e.herdId in farms
      && e.date in DueDates(farms[e.herdId], intervalDays)
      && InWindow(e.date, time, step)
  {
    assert forall i :: 0 <= i < |order| ==> order[i] in Elems(order);
    RegisteredTests(farms, order, time, step, intervalDays, e);
    assert e.herdId in order <==> e.herdId in Elems(order);
  }

  // ---------------------------------------------------------------------------
  // Movements per step
  // ---------------------------------------------------------------------------

  /** The number of animals to move in one step: the movements known for the movement window
      spread evenly over its days, times the step size, as an integer quotient. A window of
      no days divides by zero. */
  function MovementQuota(movements: int, stepSize: int, startDate: int, endDate: int): (r: Result<int>)
    ensures r.Err? <==> startDate == endDate
  {
    if endDate - startDate == 0 then Err("/ by zero")
    else Ok(JavaDiv(movements * stepSize, endDate - startDate))
  }

  /** With a non-negative total and a forward window the quota is the floor of the per-step
      share: moving `quota` animals a step over the window falls short of the total by less
      than one step's worth. */
  lemma QuotaBounds(movements: int, stepSize: int, startDate: int, endDate: int)
    requires movements * stepSize >= 0 && startDate < endDate
    ensures var q := MovementQuota(movements, stepSize, startDate, endDate).value;
      && q >= 0
      && q * (endDate - startDate) <= movements * stepSize < (q + 1) * (endDate - startDate)
  {
    QuotientBounds(movements * stepSize, endDate - startDate);
  }

  lemma QuotientBounds(a: int, b: int)
    requires a >= 0 && b > 0
    ensures JavaDiv(a, b) >= 0
    ensures JavaDiv(a, b) * b <= a < (JavaDiv(a, b) + 1) * b
  {
    var q := JavaDiv(a, b);
    assert q == a / b;
    FloorBounds(a, b);
    NextMultiple(q, b);
  }

  /** Dafny's quotient of non-negative numbers is the floor. */
  lemma FloorBounds(a: int, b: int)
    requires a >= 0 && b > 0
    ensures 0 <= a / b && (a / b) * b <= a < (a / b) * b + b
  {
    var q, m := a / b, a % b;
    assert a == q * b + m && 0 <= m < b;
  }

  lemma NextMultiple(q: int, b: int)
    ensures (q + 1) * b == q * b + b
  {
  }
}

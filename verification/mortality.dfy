/** What leaves the population at the end of a step: cattle sent to slaughter, every infected
    one among them tested at the abattoir, and infected badgers that die. */
module Mortality {
  import opened Common
  import opened Units
  import opened Animals
  import opened Transmission
  import opened Records
  import opened Scenario
  import opened Restrictions
  import opened Culling
  import opened Sampling
  import opened Movements
  import opened BadgerMovements

  // ---------------------------------------------------------------------------
  // The slaughter schedule
  // ---------------------------------------------------------------------------

  /** The slaughter window [time, time + step] is closed at both ends, unlike the half-open
      window of the herd tests: a date exactly one step ahead falls in both this step and the
      next. */
  predicate InSlaughterWindow(d: int, time: int, step: int)
  {
    time <= d <= time + step
  }

  /** The farm ids scheduled for slaughter in the window, one per animal, the schedule's dates
      visited in map order `order`. */
  function MovesForPeriod(schedule: map<int, seq<string>>, order: seq<int>, time: int, step: int): (r: seq<string>)
    requires forall i :: 0 <= i < |order| ==> order[i] in schedule
  {
    if |order| == 0 then []
    else (if InSlaughterWindow(order[0], time, step) then schedule[order[0]] else [])
         + MovesForPeriod(schedule, order[1..], time, step)
  }

  /** A farm is sent animals to slaughter exactly when it is listed under a date of the
      window. */
  lemma {:induction false} MovesForPeriodMembers(schedule: map<int, seq<string>>, order: seq<int>, time: int,
                                                 step: int, f: string)
    requires forall i :: 0 <= i < |order| ==> order[i] in schedule
    ensures f in MovesForPeriod(schedule, order, time, step) <==>
      exists i :: 0 <= i < |order| && InSlaughterWindow(order[i], time, step) && f in schedule[order[i]]
  {
    if |order| > 0 {
      MovesForPeriodMembers(schedule, order[1..], time, step, f);
      var rest := order[1..];
      if exists i :: 0 <= i < |order| && InSlaughterWindow(order[i], time, step) && f in schedule[order[i]] {
        var i :| 0 <= i < |order| && InSlaughterWindow(order[i], time, step) && f in schedule[order[i]];
        if i > 0 {
          assert rest[i - 1] == order[i];
        }
      }
      if exists i :: 0 <= i < |rest| && InSlaughterWindow(rest[i], time, step) && f in schedule[rest[i]] {
        var i :| 0 <= i < |rest| && InSlaughterWindow(rest[i], time, step) && f in schedule[rest[i]];
        assert order[i + 1] == rest[i];
      }
    }
  }

  /** Walking every scheduled date once, in any order, a farm is sent animals to slaughter
      exactly when some date of the window lists it. */
  lemma MovesForPeriodScheduled(schedule: map<int, seq<string>>, order: seq<int>, time: int, step: int, f: string)
    requires Enumerates(order, schedule.Keys)
    ensures forall i :: 0 <= i < |order| ==> order[i] in schedule
    ensures f in MovesForPeriod(schedule, order, time, step) <==>
      exists d :: d in schedule && InSlaughterWindow(d, time, step) && f in schedule[d]
  {
    forall i | 0 <= i < |order| ensures order[i] in schedule {
      assert order[i] in Elems(order);
    }
    MovesForPeriodMembers(schedule, order, time, step, f);
    if exists d :: d in schedule && InSlaughterWindow(d, time, step) && f in schedule[d] {
      var d :| d in schedule && InSlaughterWindow(d, time, step) && f in schedule[d];
      assert d in Elems(order);
      var i :| 0 <= i < |order| && order[i] == d;
    }
  }

  /** The number of animals a farm sends to slaughter in the window is the number of times
      it is listed, summed over the window's dates. */
  lemma {:induction false} MovesForPeriodCount(schedule: map<int, seq<string>>, order: seq<int>, time: int,
                                               step: int, f: string)
    requires forall i :: 0 <= i < |order| ==> order[i] in schedule
    ensures multiset(MovesForPeriod(schedule, order, time, step))[f] == ScheduledFor(schedule, order, time, step, f)
  {
    if |order| > 0 {
      MovesForPeriodCount(schedule, order[1..], time, step, f);
    }
  }

  /** The schedule's listings of `f` on the window's dates. */
  function ScheduledFor(schedule: map<int, seq<string>>, order: seq<int>, time: int, step: int, f: string): nat
    requires forall i :: 0 <= i < |order| ==> order[i] in schedule
  {
    if |order| == 0 then 0
    else (if InSlaughterWindow(order[0], time, step) then multiset(schedule[order[0]])[f] else 0)
         + ScheduledFor(schedule, order[1..], time, step, f)
  }

  /** The distinct entries of `xs` after those already in `seen`, in order of first occurrence. */
  function Dedup(xs: seq<string>, seen: seq<string>): (r: seq<string>)
    requires Distinct(seen)
    ensures Distinct(r)
    ensures forall x :: x in r <==> x in seen || x in xs
    ensures |seen| <= |r| && r[..|seen|] == seen
    decreases |xs|
  {
    if |xs| == 0 then seen
    else if xs[0] in seen then Dedup(xs[1..], seen)
    else
      assert forall x :: x in xs <==> x == xs[0] || x in xs[1..];
      var r := Dedup(xs[1..], seen + [xs[0]]);
      assert (seen + [xs[0]])[..|seen|] == seen;
      r
  }

  /** `stream().distinct()`: every farm once, in the order it is first listed. */
  function Distinctly(xs: seq<string>): (r: seq<string>)
    ensures Distinct(r) && forall x :: x in r <==> x in xs
  {
    Dedup(xs, [])
  }

  // ---------------------------------------------------------------------------
  // Slaughter at one farm
  // ---------------------------------------------------------------------------

  /** The draws behind one farm's slaughter: the hypergeometric count of infected animals
      among those slaughtered, the picks that select them, and their abattoir tests. */
  datatype SlaughterDraw = SlaughterDraw(hyper: nat, pick: nat -> nat, tests: nat -> TestDraw)

  /** The animals a farm sends: as many as it is listed, but never more than its herd. */
  function Removals(s: State, moves: seq<string>, farmId: string): int
    requires farmId in s.farms
  {
    Min(multiset(moves)[farmId], s.farms[farmId].herdSize)
  }

  /** The movement record of a farm's slaughter, with no destination. */
  function SlaughterRecord(s: State, moves: seq<string>, farmId: string, k: nat, time: int): RecordMovement
    requires farmId in s.farms
  {
    NewRecordMovement(time, "cows", farmId, "", s.farms[farmId].herdSize, Removals(s, moves, farmId),
                      FarmInfected(s, farmId), k, -1, -1.0, "")
  }

  /** What the abattoir tests decide: any reactor restricts the farm exactly as a positive herd
      test does, a clear result changes no restriction (unlike a herd test), and the herd test
      is recorded either way. */
  function Abattoir(t: Batch, farmId: string, infected: int, time: int): (r: Tested)
    requires farmId in t.state.farms
    ensures r.reactors == Positives(t.records)
    ensures r.state.cattleTests == t.state.cattleTests && r.state.movements == t.state.movements
    ensures r.state.herdTests == t.state.herdTests + [HerdTest(time, farmId, infected, r.reactors, "abattoir")]
    ensures SameAnimals(t.state, r.state) && r.state.infectedCowsAtDeath == t.state.infectedCowsAtDeath
  {
    var reactors := Positives(t.records);
    var u := if reactors > 0 then ApplyOutcome(t.state, farmId, reactors, time) else t.state;
    Tested(u.(herdTests := u.herdTests + [HerdTest(time, farmId, infected, reactors, "abattoir")]), reactors)
  }

  /** A reactor at the abattoir restarts the farm's restriction with no clear tests and leaves
      only a follow-up test due; without one neither restrictions nor test dates change. */
  lemma AbattoirRestricts(t: Batch, farmId: string, infected: int, time: int)
    requires farmId in t.state.farms
    ensures var r := Abattoir(t, farmId, infected, time).state;
      && (Positives(t.records) > 0 ==>
            && r.restrictedHerds == t.state.restrictedHerds[farmId := 0]
            && r.farms == t.state.farms[farmId := t.state.farms[farmId].(lastClearTestDate := UNSET,
                                                                         lastPositiveTestDate := time)])
      && (Positives(t.records) == 0 ==> r.restrictedHerds == t.state.restrictedHerds && r.farms == t.state.farms)
  {
  }

  /** A farm's slaughter once the number `k` of infected animals among the slaughtered is
      known: the movement is recorded, `k` infected cows of the herd's list are tested at the
      abattoir (each reactor is culled), and the abattoir's outcome is applied. */
  function SlaughterBatch(s: State, cfg: Config, moves: seq<string>, farmId: string, k: nat, time: int,
                          d: SlaughterDraw): (r: Result<Tested>)
    requires Sound(s) && farmId in s.farms && k <= FarmInfected(s, farmId)
    ensures r.Ok? ==> r.value.reactors <= k
  {
    var s1 := s.(movements := s.movements + [SlaughterRecord(s, moves, farmId, k, time)]);
    SameAnimalsSound(s, s1);
    var ids := Selection(s1, farmId, k, d.pick);
    var t :- TestAll(s1, cfg, ids, time, farmId, "abattoir", d.tests, 0);
    ReactorsAtMostTested(t.records);
    Ok(Abattoir(t, farmId, FarmInfected(s, farmId), time))
  }

  /** The slaughter of a farm is its abattoir tests followed by their outcome. */
  lemma SlaughterBatchTests(s: State, cfg: Config, moves: seq<string>, farmId: string, k: nat, time: int,
                            d: SlaughterDraw)
    requires Sound(s) && farmId in s.farms && k <= FarmInfected(s, farmId)
    ensures var s1 := s.(movements := s.movements + [SlaughterRecord(s, moves, farmId, k, time)]);
      && Located(s1) && CowsListed(s1) && farmId in s1.farmInfections
      && Selection(s1, farmId, k, d.pick) == Selection(s, farmId, k, d.pick)
      && var t := TestAll(s1, cfg, Selection(s, farmId, k, d.pick), time, farmId, "abattoir", d.tests, 0);
         var r := SlaughterBatch(s, cfg, moves, farmId, k, time, d);
         && (r.Ok? <==> t.Ok?)
         && (r.Ok? ==> farmId in t.value.state.farms && r.value == Abattoir(t.value, farmId, FarmInfected(s, farmId), time))
  {
  }

  /** One farm of `doSlaughterhouseMoves`. A listed id that names no farm has no list of
      infected cows to count, which is a null pointer. The hypergeometric distribution refuses
      a farm with no animals (or an unset size), so such a farm is an error too. The source's
      check that the reactors do not outnumber the infected animals can never fail: the bound
      is part of the contract. */
  function SlaughterFarm(s: State, cfg: Config, moves: seq<string>, farmId: string, time: int,
                         d: SlaughterDraw): (r: Result<Tested>)
    requires Sound(s)
    ensures farmId !in s.farms ==> r.Err?
    ensures farmId in s.farms ==>
      (!HyperValid(s.farms[farmId].herdSize, Removals(s, moves, farmId), FarmInfected(s, farmId)) ==> r.Err?)
    ensures r.Ok? ==> farmId in s.farms && r.value.reactors <= FarmInfected(s, farmId)
    ensures r.Ok? ==> farmId in s.farms && r.value.reactors <= Removals(s, moves, farmId)
  {
    if farmId !in s.farms then Err("null pointer: unknown farm")
    else
      var k :- Hyper(s.farms[farmId].herdSize, Removals(s, moves, farmId), FarmInfected(s, farmId), d.hyper);
      SlaughterBatch(s, cfg, moves, farmId, k, time, d)
  }

  /** Slaughter keeps the bookkeeping sound; only abattoir reactors leave, for the culled map. */
  lemma SlaughterBatchSound(s: State, cfg: Config, moves: seq<string>, farmId: string, k: nat, time: int,
                            d: SlaughterDraw)
    requires Sound(s) && farmId in s.farms && k <= FarmInfected(s, farmId)
    ensures var r := SlaughterBatch(s, cfg, moves, farmId, k, time, d);
      r.Ok? ==> Sound(r.value.state) && Conserves(s, r.value.state)
  {
    SlaughterBatchTests(s, cfg, moves, farmId, k, time, d);
    var r := SlaughterBatch(s, cfg, moves, farmId, k, time, d);
    var s1 := s.(movements := s.movements + [SlaughterRecord(s, moves, farmId, k, time)]);
    SameAnimalsSound(s, s1);
    var ids := Selection(s, farmId, k, d.pick);
    var t := TestAll(s1, cfg, ids, time, farmId, "abattoir", d.tests, 0);
    if r.Ok? {
      TestAllSound(s1, cfg, ids, time, farmId, "abattoir", d.tests, 0);
      TestAllConserves(s1, cfg, ids, time, farmId, "abattoir", d.tests, 0);
      ConservesTransitive(s, s1, t.value.state);
      SameAnimalsSound(t.value.state, r.value.state);
      ConservesTransitive(s, t.value.state, r.value.state);
    }
  }

  /** Any abattoir reactor restricts the farm exactly as a positive herd test does; with no
      reactor the restrictions and herd-test dates stay as they were. No other farm is
      touched either way. */
  lemma SlaughterBatchRestricts(s: State, cfg: Config, moves: seq<string>, farmId: string, k: nat, time: int,
                                d: SlaughterDraw)
    requires Sound(s) && farmId in s.farms && k <= FarmInfected(s, farmId)
    ensures var r := SlaughterBatch(s, cfg, moves, farmId, k, time, d);
      r.Ok? && r.value.reactors > 0 ==>
        && r.value.state.restrictedHerds == s.restrictedHerds[farmId := 0]
        && r.value.state.farms == s.farms[farmId := s.farms[farmId].(lastClearTestDate := UNSET,
                                                                     lastPositiveTestDate := time)]
    ensures var r := SlaughterBatch(s, cfg, moves, farmId, k, time, d);
      r.Ok? && r.value.reactors == 0 ==>
        r.value.state.restrictedHerds == s.restrictedHerds && r.value.state.farms == s.farms
  {
    SlaughterBatchTests(s, cfg, moves, farmId, k, time, d);
    var r := SlaughterBatch(s, cfg, moves, farmId, k, time, d);
    if r.Ok? {
      var s1 := s.(movements := s.movements + [SlaughterRecord(s, moves, farmId, k, time)]);
      var t := TestAll(s1, cfg, Selection(s, farmId, k, d.pick), time, farmId, "abattoir", d.tests, 0).value;
      AbattoirRestricts(t, farmId, FarmInfected(s, farmId), time);
    }
  }

  /** The records a farm's slaughter writes: its movement, one abattoir test for each selected
      infected cow (the positive ones being the reactors) and the herd test. The death tally is
      left to the end of the step. */
  lemma SlaughterBatchRecords(s: State, cfg: Config, moves: seq<string>, farmId: string, k: nat, time: int,
                              d: SlaughterDraw)
    requires Sound(s) && farmId in s.farms && k <= FarmInfected(s, farmId)
    ensures var r := SlaughterBatch(s, cfg, moves, farmId, k, time, d);
      r.Ok? ==>
        && r.value.state.movements == s.movements + [SlaughterRecord(s, moves, farmId, k, time)]
        && r.value.state.herdTests == s.herdTests + [HerdTest(time, farmId, FarmInfected(s, farmId), r.value.reactors,
                                                              "abattoir")]
        && r.value.state.infectedCowsAtDeath == s.infectedCowsAtDeath
    ensures var r := SlaughterBatch(s, cfg, moves, farmId, k, time, d);
      r.Ok? ==>
        && |s.cattleTests| <= |r.value.state.cattleTests|
        && r.value.state.cattleTests[..|s.cattleTests|] == s.cattleTests
        && var recs := r.value.state.cattleTests[|s.cattleTests|..];
           && RecordsFor(recs, Selection(s, farmId, k, d.pick), time, farmId, "abattoir")
           && Positives(recs) == r.value.reactors
  {
    SlaughterBatchTests(s, cfg, moves, farmId, k, time, d);
    var r := SlaughterBatch(s, cfg, moves, farmId, k, time, d);
    if r.Ok? {
      var s1 := s.(movements := s.movements + [SlaughterRecord(s, moves, farmId, k, time)]);
      var t := TestAll(s1, cfg, Selection(s, farmId, k, d.pick), time, farmId, "abattoir", d.tests, 0).value;
      assert r.value.state.cattleTests[|s.cattleTests|..] == t.records;
    }
  }

  /** A farm's slaughter is its batch with the hypergeometric count drawn. */
  lemma SlaughterFarmBatch(s: State, cfg: Config, moves: seq<string>, farmId: string, time: int, d: SlaughterDraw)
    requires Sound(s)
    ensures var r := SlaughterFarm(s, cfg, moves, farmId, time, d);
      r.Ok? ==>
        && farmId in s.farms
        && var h := Hyper(s.farms[farmId].herdSize, Removals(s, moves, farmId), FarmInfected(s, farmId), d.hyper);
           h.Ok? && h.value <= FarmInfected(s, farmId) && r == SlaughterBatch(s, cfg, moves, farmId, h.value, time, d)
  {
  }

  /** One farm's slaughter keeps the bookkeeping sound, touches no other farm, lifts no
      restriction and leaves the death tally to the end of the step. */
  lemma SlaughterFarmSound(s: State, cfg: Config, moves: seq<string>, farmId: string, time: int, d: SlaughterDraw)
    requires Sound(s)
    ensures var r := SlaughterFarm(s, cfg, moves, farmId, time, d);
      r.Ok? ==>
        && farmId in s.farms
        && Sound(r.value.state) && Conserves(s, r.value.state)
        && r.value.state.infectedCowsAtDeath == s.infectedCowsAtDeath
        && r.value.state.farms.Keys == s.farms.Keys
        && s.restrictedHerds.Keys <= r.value.state.restrictedHerds.Keys
        && (forall f :: f in s.farms && f != farmId ==> r.value.state.farms[f] == s.farms[f])
        && (forall f :: f != farmId ==>
              && (f in r.value.state.restrictedHerds <==> f in s.restrictedHerds)
              && (f in s.restrictedHerds ==> r.value.state.restrictedHerds[f] == s.restrictedHerds[f]))
  {
    SlaughterFarmBatch(s, cfg, moves, farmId, time, d);
    var r := SlaughterFarm(s, cfg, moves, farmId, time, d);
    if r.Ok? {
      var k := Hyper(s.farms[farmId].herdSize, Removals(s, moves, farmId), FarmInfected(s, farmId), d.hyper).value;
      SlaughterBatchSound(s, cfg, moves, farmId, k, time, d);
      SlaughterBatchRestricts(s, cfg, moves, farmId, k, time, d);
      SlaughterBatchRecords(s, cfg, moves, farmId, k, time, d);
    }
  }

  // ---------------------------------------------------------------------------
  // The slaughter of a step
  // ---------------------------------------------------------------------------

  /** Every id of `xs` names a farm of `s`. */
  predicate AllFarms(s: State, xs: seq<string>)
  {
    forall i :: 0 <= i < |xs| ==> xs[i] in s.farms
  }

  lemma AllFarmsSnoc(s: State, xs: seq<string>, x: string)
    requires AllFarms(s, xs) && x in s.farms
    ensures AllFarms(s, xs + [x])
  {
  }

  /** What the farm loop keeps between `s` and the state `u` it has reached: the bookkeeping
      stays sound, the death tally and the set of farms are untouched, no restriction is
      lifted, and farms outside `farms` are left alone. */
  predicate SlaughterKeeps(s: State, u: State, farms: seq<string>)
  {
    && Sound(u) && Conserves(s, u)
    && u.infectedCowsAtDeath == s.infectedCowsAtDeath
    && u.farms.Keys == s.farms.Keys
    && s.restrictedHerds.Keys <= u.restrictedHerds.Keys
    && forall f :: f in s.farms && f !in farms ==>
         && u.farms[f] == s.farms[f]
         && (f in u.restrictedHerds <==> f in s.restrictedHerds)
  }

  /** Slaughtering the next listed farm keeps what the loop keeps, and it succeeds only for a
      farm that exists. */
  lemma SlaughterFarmsStep(s: State, u: State, cfg: Config, moves: seq<string>, farms: seq<string>, j: nat,
                           time: int, d: SlaughterDraw)
    requires Sound(s) && SlaughterKeeps(s, u, farms) && j < |farms| && AllFarms(s, farms[..j])
    ensures var t := SlaughterFarm(u, cfg, moves, farms[j], time, d);
      t.Ok? ==> SlaughterKeeps(s, t.value.state, farms) && AllFarms(s, farms[..j + 1])
  {
    var t := SlaughterFarm(u, cfg, moves, farms[j], time, d);
    if t.Ok? {
      SlaughterFarmSound(u, cfg, moves, farms[j], time, d);
      ConservesTransitive(s, u, t.value.state);
      AllFarmsSnoc(s, farms[..j], farms[j]);
      assert farms[..j + 1] == farms[..j] + [farms[j]];
    }
  }

  /** The farm loop of `doSlaughterhouseMoves`: each farm of `farms` in turn, the j-th with
      `draws(j)`, each sending its share of `moves`; the reactors found are summed. */
  method SlaughterFarms(s: State, cfg: Config, moves: seq<string>, farms: seq<string>, time: int,
                        draws: nat -> SlaughterDraw)
    returns (r: Result<Tested>)
    requires Sound(s)
    ensures (exists j :: 0 <= j < |farms| && farms[j] !in s.farms) ==> r.Err?
    ensures r.Ok? ==> Sound(r.value.state) && Conserves(s, r.value.state)
    ensures r.Ok? ==> r.value.state.infectedCowsAtDeath == s.infectedCowsAtDeath
    ensures r.Ok? ==> r.value.state.farms.Keys == s.farms.Keys
    ensures r.Ok? ==> s.restrictedHerds.Keys <= r.value.state.restrictedHerds.Keys
    ensures r.Ok? ==> forall f :: f in s.farms && f !in farms ==>
      && r.value.state.farms[f] == s.farms[f]
      && (f in r.value.state.restrictedHerds <==> f in s.restrictedHerds)
    ensures |farms| == 0 ==> r == Ok(Tested(s, 0))
  {
    var u := s;
    var total: nat := 0;
    var j := 0;
    while j < |farms|
      invariant 0 <= j <= |farms|
      invariant j == 0 ==> u == s && total == 0
      invariant SlaughterKeeps(s, u, farms)
      invariant AllFarms(s, farms[..j])
    {
      var t := SlaughterFarm(u, cfg, moves, farms[j], time, draws(j));
      if t.Err? {
        return Err(t.message);
      }
      SlaughterFarmsStep(s, u, cfg, moves, farms, j, time, draws(j));
      u, total := t.value.state, total + t.value.reactors;
      j := j + 1;
    }
    assert farms[..j] == farms;
    r := Ok(Tested(u, total));
  }

  /** `doSlaughterhouseMoves`: the farms listed in the window are visited once each, in the
      order they are first listed, the j-th with `draws(j)`; their reactors are added to the
      tally of infected cows found at death. A listed id that names no farm stops the step with
      an error. The histogram the source builds at the end is never read and is not modelled. */
  method SlaughterhouseMoves(s: State, cfg: Config, schedule: map<int, seq<string>>, order: seq<int>, time: int,
                             draws: nat -> SlaughterDraw)
    returns (r: Result<Tested>)
    requires Sound(s)
    requires forall i :: 0 <= i < |order| ==> order[i] in schedule
    ensures (exists f :: f in MovesForPeriod(schedule, order, time, cfg.stepSize) && f !in s.farms) ==> r.Err?
    ensures r.Ok? ==> Sound(r.value.state) && Conserves(s, r.value.state)
    ensures r.Ok? ==> r.value.state.infectedCowsAtDeath == s.infectedCowsAtDeath + r.value.reactors
    ensures r.Ok? ==> r.value.state.farms.Keys == s.farms.Keys
    ensures r.Ok? ==> s.restrictedHerds.Keys <= r.value.state.restrictedHerds.Keys
    ensures r.Ok? ==> forall f :: f in s.farms && f !in MovesForPeriod(schedule, order, time, cfg.stepSize) ==>
      && r.value.state.farms[f] == s.farms[f]
      && (f in r.value.state.restrictedHerds <==> f in s.restrictedHerds)
    ensures MovesForPeriod(schedule, order, time, cfg.stepSize) == [] ==> r == Ok(Tested(s, 0))
  {
    var moves := MovesForPeriod(schedule, order, time, cfg.stepSize);
    var farms := Distinctly(moves);
    var t := SlaughterFarms(s, cfg, moves, farms, time, draws);
    if t.Err? {
      return Err(t.message);
    }
    var u := t.value.state;
    r := Ok(Tested(u.(infectedCowsAtDeath := u.infectedCowsAtDeath + t.value.reactors), t.value.reactors));
    SameAnimalsSound(u, r.value.state);
  }

  // ---------------------------------------------------------------------------
  // Badger deaths
  // ---------------------------------------------------------------------------

  /** The draw behind one badger's fate: the uniform number compared with the death rate, and
      the decimal text the movement record shows for it. */
  datatype DeathDraw = DeathDraw(rnd: real, text: string)

  /** The badgers that die, in visiting order: those whose draw falls below the rate. The i-th
      badger visited uses `draws(at + i)`. */
  function Dying(order: seq<string>, draws: nat -> DeathDraw, rate: real, at: nat): (r: seq<string>)
    ensures |r| <= |order|
    ensures forall x :: x in r ==> x in order
    ensures Distinct(order) ==> Distinct(r)
    decreases |order|
  {
    if |order| == 0 then []
    else
      var rest := Dying(order[1..], draws, rate, at + 1);
      assert forall x :: x in rest ==> x in order[1..] && x in order;
      if draws(at).rnd < rate then
        assert Distinct(order) ==> order[0] !in order[1..] && Distinct(order[1..]);
        [order[0]] + rest
      else rest
  }

  /** A visited badger dies exactly when its own draw falls below the rate. */
  lemma {:induction false} DyingIff(order: seq<string>, draws: nat -> DeathDraw, rate: real, at: nat, i: nat)
    requires Distinct(order) && i < |order|
    ensures order[i] in Dying(order, draws, rate, at) <==> draws(at + i).rnd < rate
    decreases |order|
  {
    if i > 0 {
      DyingIff(order[1..], draws, rate, at + 1, i - 1);
      assert order[1..][i - 1] == order[i] && order[i] != order[0];
    } else {
      assert order[0] !in order[1..];
    }
  }

  /** A live badger whose sett is known. */
  predicate InKnownSett(s: State, id: string)
  {
    id in s.badgers && s.badgers[id].reservoirId in s.reservoirs
  }

  /** The movement record written for each badger visited, whether it dies or not. */
  function DeathRecord(s: State, id: string, d: DeathDraw, rate: real, date: int): RecordMovement
    requires InKnownSett(s, id)
  {
    var dead := if d.rnd < rate then 1 else 0;
    var unit := s.badgers[id].reservoirId;
    NewRecordMovement(date, "badgers", unit, "", s.reservoirs[unit].reservoirSize, dead, 1, dead, -1, d.rnd, d.text)
  }

  function DeathRecords(s: State, order: seq<string>, draws: nat -> DeathDraw, rate: real, date: int, at: nat)
    : (r: seq<RecordMovement>)
    requires forall i :: 0 <= i < |order| ==> InKnownSett(s, order[i])
    ensures |r| == |order|
    ensures forall i :: 0 <= i < |order| ==> r[i] == DeathRecord(s, order[i], draws(at + i), rate, date)
    decreases |order|
  {
    if |order| == 0 then []
    else [DeathRecord(s, order[0], draws(at), rate, date)] + DeathRecords(s, order[1..], draws, rate, date, at + 1)
  }

  /** A dead badger's removal: the sampled badger moves from the live map to the expired map,
      leaves its sett's list, and its vertex gets the detection date. The sett size is not
      changed. */
  function Bury(u: State, id: string, unit: string, date: int): (r: State)
    requires id in u.badgers && id in u.tree.nodes && unit in u.reservoirInfections
    ensures r.badgers == u.badgers - {id}
    ensures r.expiredBadgers == u.expiredBadgers[id := u.badgers[id]]
    ensures r.reservoirInfections == u.reservoirInfections[unit := RemoveFirst(u.reservoirInfections[unit], id)]
    ensures r.tree == SetDetectionDate(u.tree, id, date)
  {
    u.(badgers := u.badgers - {id},
       expiredBadgers := u.expiredBadgers[id := u.badgers[id]],
       reservoirInfections := u.reservoirInfections[unit := RemoveFirst(u.reservoirInfections[unit], id)],
       tree := SetDetectionDate(u.tree, id, date))
  }

  lemma BuryListed(u: State, id: string, unit: string, date: int)
    requires BadgersListed(u) && id in u.badgers && u.badgers[id].reservoirId == unit && id in u.tree.nodes
    ensures unit in u.reservoirInfections
    ensures BadgersListed(Bury(u, id, unit, date))
  {
    var t := Bury(u, id, unit, date);
    var list := u.reservoirInfections[unit];
    RemoveFirstDistinct(list, id);
    forall v, i | v in t.reservoirInfections && 0 <= i < |t.reservoirInfections[v]|
      ensures t.reservoirInfections[v][i] in t.badgers && t.badgers[t.reservoirInfections[v][i]].reservoirId == v
    {
      var x := t.reservoirInfections[v][i];
      if v == unit {
        assert x in RemoveFirst(list, id);
        var j :| 0 <= j < |list| && list[j] == x;
      } else {
        assert x == u.reservoirInfections[v][i];
      }
    }
  }

  lemma BuryLocated(u: State, id: string, unit: string, date: int)
    requires Located(u) && id in u.badgers && unit in u.reservoirInfections
    ensures Located(Bury(u, id, unit, date))
  {
  }

  lemma BuryApart(u: State, id: string, unit: string, date: int)
    requires Located(u) && Apart(u) && id in u.badgers && unit in u.reservoirInfections
    ensures Apart(Bury(u, id, unit, date)) && Conserves(u, Bury(u, id, unit, date))
  {
  }

  /** Burying a badger listed in its own sett keeps the bookkeeping sound and moves it from
      the live map to the expired map. */
  lemma BurySound(u: State, id: string, unit: string, date: int)
    requires Sound(u) && id in u.badgers && u.badgers[id].reservoirId == unit
    ensures unit in u.reservoirInfections && id in u.tree.nodes
    ensures Sound(Bury(u, id, unit, date)) && Conserves(u, Bury(u, id, unit, date))
  {
    BuryListed(u, id, unit, date);
    BuryLocated(u, id, unit, date);
    BuryApart(u, id, unit, date);
  }

  /** What the removal of a dying badger looks up: the badger, its vertex and its sett's list. */
  predicate Buriable(s: State, id: string)
  {
    id in s.badgers && id in s.tree.nodes && s.badgers[id].reservoirId in s.reservoirInfections
  }

  /** The handling of one dying badger in `doBadgerDeaths`: an uncaptured "death" test (which
      never reacts), new SNPs with the last generation and sample dates set to the date of
      death, and the removal. An error is the SNP generation's. */
  function Expire(s: State, cfg: Config, id: string, date: int, poisson: nat): (r: Result<State>)
    requires Buriable(s, id)
  {
    var unit := s.badgers[id].reservoirId;
    UncapturedNegative(s, cfg, id, unit, "", date, "death", TestDraw(false, 0));
    var t := TestBadger(s, cfg, id, unit, "", false, date, "death", TestDraw(false, 0)).value;
    var u :- SampleBadger(t, cfg, id, date, poisson);
    Ok(Bury(u, id, unit, date))
  }

  /** The record of a badger's death test: in its own sett, with no destination, never a
      capture and never positive. */
  function DeathTest(s: State, id: string, date: int): RecordBadger
    requires id in s.badgers
  {
    BadgerTestRecord(date, id, s.badgers[id].reservoirId, "", false, false, "death")
  }

  /** A death is the death test's record, the sampling and the burial, in that order. */
  lemma ExpireSteps(s: State, cfg: Config, id: string, date: int, poisson: nat)
    requires Buriable(s, id)
    ensures var t := s.(badgerTests := s.badgerTests + [DeathTest(s, id, date)]);
      var r := Expire(s, cfg, id, date, poisson);
      && (r.Ok? <==> SampleBadger(t, cfg, id, date, poisson).Ok?)
      && (r.Ok? ==> r.value == Bury(SampleBadger(t, cfg, id, date, poisson).value, id, s.badgers[id].reservoirId, date))
  {
    UncapturedNegative(s, cfg, id, s.badgers[id].reservoirId, "", date, "death", TestDraw(false, 0));
  }

  /** A dead badger leaves the live map for the expired map, its death test is recorded, and
      no other badger, live or expired, changes. */
  lemma ExpireRemoves(s: State, cfg: Config, id: string, date: int, poisson: nat)
    requires Buriable(s, id)
    ensures var r := Expire(s, cfg, id, date, poisson);
      r.Ok? ==>
        && r.value.badgers == s.badgers - {id}
        && r.value.expiredBadgers.Keys == s.expiredBadgers.Keys + {id}
        && r.value.badgerTests == s.badgerTests + [DeathTest(s, id, date)]
  {
    ExpireSteps(s, cfg, id, date, poisson);
    var r := Expire(s, cfg, id, date, poisson);
    if r.Ok? {
      var t := s.(badgerTests := s.badgerTests + [DeathTest(s, id, date)]);
      var u := SampleBadger(t, cfg, id, date, poisson).value;
      assert r.value == Bury(u, id, s.badgers[id].reservoirId, date);
      assert u.badgers - {id} == s.badgers - {id} by {
        assert (u.badgers - {id}).Keys == (s.badgers - {id}).Keys;
        forall k | k in s.badgers - {id} ensures (u.badgers - {id})[k] == s.badgers[k] {}
      }
    }
  }

  lemma ExpireKeepsExpired(s: State, cfg: Config, id: string, date: int, poisson: nat)
    requires Buriable(s, id)
    ensures var r := Expire(s, cfg, id, date, poisson);
      r.Ok? ==> forall k :: k in s.expiredBadgers && k != id ==> r.value.expiredBadgers[k] == s.expiredBadgers[k]
    ensures var r := Expire(s, cfg, id, date, poisson);
      r.Ok? ==> forall k :: k in s.tree.nodes && k != id ==> r.value.tree.nodes[k] == s.tree.nodes[k]
  {
    ExpireSteps(s, cfg, id, date, poisson);
    var r := Expire(s, cfg, id, date, poisson);
    if r.Ok? {
      var t := s.(badgerTests := s.badgerTests + [DeathTest(s, id, date)]);
      var u := SampleBadger(t, cfg, id, date, poisson).value;
      assert r.value == Bury(u, id, s.badgers[id].reservoirId, date);
    }
  }

  /** A dead badger is kept sampled on its day of death: new SNPs, last generation and sample
      dates set to that day, and its vertex detected that day. */
  lemma ExpireSamples(s: State, cfg: Config, id: string, date: int, poisson: nat)
    requires Buriable(s, id)
    ensures var r := Expire(s, cfg, id, date, poisson);
      r.Ok? ==>
        && id in r.value.expiredBadgers && id in r.value.tree.nodes
        && r.value.expiredBadgers[id].dateSampleTaken == date
        && r.value.expiredBadgers[id].lastSnpGeneration == date
        && s.badgers[id].snps <= r.value.expiredBadgers[id].snps
        && r.value.tree.nodes[id].detectionDate == Some(date)
  {
    ExpireSteps(s, cfg, id, date, poisson);
    var r := Expire(s, cfg, id, date, poisson);
    if r.Ok? {
      var t := s.(badgerTests := s.badgerTests + [DeathTest(s, id, date)]);
      var u := SampleBadger(t, cfg, id, date, poisson).value;
      assert r.value == Bury(u, id, s.badgers[id].reservoirId, date);
    }
  }

  /** Each death keeps the bookkeeping sound, and touches nothing but the badgers, their
      records, the tree's detection dates and the SNP counter. */
  lemma ExpireSound(s: State, cfg: Config, id: string, date: int, poisson: nat)
    requires Sound(s) && id in s.badgers
    ensures Buriable(s, id)
    ensures var r := Expire(s, cfg, id, date, poisson);
      r.Ok? ==>
        && Sound(r.value) && Conserves(s, r.value)
        && r.value == s.(badgers := r.value.badgers, expiredBadgers := r.value.expiredBadgers,
                         reservoirInfections := r.value.reservoirInfections, tree := r.value.tree,
                         lastSnp := r.value.lastSnp, badgerTests := r.value.badgerTests)
  {
    ExpireSteps(s, cfg, id, date, poisson);
    var r := Expire(s, cfg, id, date, poisson);
    if r.Ok? {
      var unit := s.badgers[id].reservoirId;
      var t := s.(badgerTests := s.badgerTests + [DeathTest(s, id, date)]);
      SameAnimalsSound(s, t);
      SampleBadgerSound(t, cfg, id, date, poisson);
      var u := SampleBadger(t, cfg, id, date, poisson).value;
      BurySound(u, id, unit, date);
      ConservesTransitive(s, t, u);
      ConservesTransitive(s, u, r.value);
    }
  }

  /** Badgers that can be removed one after another: none twice, each with its lookups in
      place. */
  predicate BuriableAll(s: State, ids: seq<string>)
  {
    Distinct(ids) && forall i :: 0 <= i < |ids| ==> Buriable(s, ids[i])
  }

  /** After the first death the rest can still be removed. */
  lemma BuriableAfterFirst(s: State, cfg: Config, ids: seq<string>, date: int, poisson: nat)
    requires BuriableAll(s, ids) && |ids| > 0
    ensures var r := Expire(s, cfg, ids[0], date, poisson);
      r.Ok? ==> BuriableAll(r.value, ids[1..])
  {
    var r := Expire(s, cfg, ids[0], date, poisson);
    if r.Ok? {
      ExpireSteps(s, cfg, ids[0], date, poisson);
      var tail := ids[1..];
      forall i | 0 <= i < |tail| ensures Buriable(r.value, tail[i]) {
        assert tail[i] == ids[i + 1] && tail[i] != ids[0];
        assert Buriable(s, ids[i + 1]);
      }
      forall i, j | 0 <= i < j < |tail| ensures tail[i] != tail[j] {
        assert tail[i] == ids[i + 1] && tail[j] == ids[j + 1];
      }
    }
  }

  /** The removal loop of `doBadgerDeaths`: each badger of `ids` in turn, the i-th sampled with
      `poissons(at + i)`. */
  function ExpireAll(s: State, cfg: Config, ids: seq<string>, date: int, poissons: nat -> nat, at: nat)
    : (r: Result<State>)
    requires BuriableAll(s, ids)
    ensures |ids| == 0 ==> r == Ok(s)
    decreases |ids|
  {
    if |ids| == 0 then Ok(s)
    else
      var u :- Expire(s, cfg, ids[0], date, poissons(at));
      BuriableAfterFirst(s, cfg, ids, date, poissons(at));
      ExpireAll(u, cfg, ids[1..], date, poissons, at + 1)
  }

  /** The death tests of `ids`, in order. */
  function DeathTests(s: State, ids: seq<string>, date: int): (r: seq<RecordBadger>)
    requires forall i :: 0 <= i < |ids| ==> ids[i] in s.badgers
    ensures |r| == |ids|
    ensures forall i :: 0 <= i < |ids| ==> r[i] == DeathTest(s, ids[i], date)
  {
    if |ids| == 0 then [] else [DeathTest(s, ids[0], date)] + DeathTests(s, ids[1..], date)
  }

  /** Removing badgers keeps the bookkeeping sound and only moves them to the expired map. */
  lemma {:induction false} ExpireAllSound(s: State, cfg: Config, ids: seq<string>, date: int, poissons: nat -> nat,
                                          at: nat)
    requires Sound(s) && BuriableAll(s, ids) && forall i :: 0 <= i < |ids| ==> ids[i] in s.badgers
    ensures var r := ExpireAll(s, cfg, ids, date, poissons, at);
      r.Ok? ==> Sound(r.value) && Conserves(s, r.value)
    decreases |ids|
  {
    var r := ExpireAll(s, cfg, ids, date, poissons, at);
    if |ids| > 0 && r.Ok? {
      ExpireSound(s, cfg, ids[0], date, poissons(at));
      BuriableAfterFirst(s, cfg, ids, date, poissons(at));
      var u := Expire(s, cfg, ids[0], date, poissons(at)).value;
      ExpireAllSound(u, cfg, ids[1..], date, poissons, at + 1);
      ConservesTransitive(s, u, r.value);
    }
  }

  /** Removing badgers changes nothing but badgers, their records, the tree and the SNP
      counter. */
  lemma {:induction false} ExpireAllFrame(s: State, cfg: Config, ids: seq<string>, date: int, poissons: nat -> nat,
                                          at: nat)
    requires BuriableAll(s, ids)
    ensures var r := ExpireAll(s, cfg, ids, date, poissons, at);
      r.Ok? ==> r.value == s.(badgers := r.value.badgers, expiredBadgers := r.value.expiredBadgers,
                              reservoirInfections := r.value.reservoirInfections, tree := r.value.tree,
                              lastSnp := r.value.lastSnp, badgerTests := r.value.badgerTests)
    decreases |ids|
  {
    var r := ExpireAll(s, cfg, ids, date, poissons, at);
    if |ids| > 0 && r.Ok? {
      ExpireSteps(s, cfg, ids[0], date, poissons(at));
      BuriableAfterFirst(s, cfg, ids, date, poissons(at));
      var u := Expire(s, cfg, ids[0], date, poissons(at)).value;
      ExpireAllFrame(u, cfg, ids[1..], date, poissons, at + 1);
    }
  }

  /** Exactly the removed badgers leave the live map. */
  lemma {:induction false} ExpireAllLive(s: State, cfg: Config, ids: seq<string>, date: int, poissons: nat -> nat,
                                         at: nat)
    requires BuriableAll(s, ids)
    ensures var r := ExpireAll(s, cfg, ids, date, poissons, at);
      r.Ok? ==> forall k :: k in r.value.badgers <==> k in s.badgers && k !in ids
    decreases |ids|
  {
    var r := ExpireAll(s, cfg, ids, date, poissons, at);
    if |ids| > 0 && r.Ok? {
      ExpireRemoves(s, cfg, ids[0], date, poissons(at));
      BuriableAfterFirst(s, cfg, ids, date, poissons(at));
      var u := Expire(s, cfg, ids[0], date, poissons(at)).value;
      ExpireAllLive(u, cfg, ids[1..], date, poissons, at + 1);
      assert forall k :: k in ids <==> k == ids[0] || k in ids[1..];
    }
  }

  /** The survivors are untouched. */
  lemma {:induction false} ExpireAllSurvivors(s: State, cfg: Config, ids: seq<string>, date: int,
                                              poissons: nat -> nat, at: nat)
    requires BuriableAll(s, ids)
    ensures var r := ExpireAll(s, cfg, ids, date, poissons, at);
      r.Ok? ==> forall k :: k in r.value.badgers ==> k in s.badgers && r.value.badgers[k] == s.badgers[k]
    decreases |ids|
  {
    var r := ExpireAll(s, cfg, ids, date, poissons, at);
    if |ids| > 0 && r.Ok? {
      ExpireRemoves(s, cfg, ids[0], date, poissons(at));
      BuriableAfterFirst(s, cfg, ids, date, poissons(at));
      var u := Expire(s, cfg, ids[0], date, poissons(at)).value;
      ExpireAllSurvivors(u, cfg, ids[1..], date, poissons, at + 1);
    }
  }

  /** Each removed badger is found in the expired map, sampled on the day of death. */
  lemma {:induction false} ExpireAllExpired(s: State, cfg: Config, ids: seq<string>, date: int,
                                            poissons: nat -> nat, at: nat)
    requires BuriableAll(s, ids)
    ensures var r := ExpireAll(s, cfg, ids, date, poissons, at);
      r.Ok? ==> forall i :: 0 <= i < |ids| ==>
        ids[i] in r.value.expiredBadgers && r.value.expiredBadgers[ids[i]].dateSampleTaken == date
    decreases |ids|
  {
    var r := ExpireAll(s, cfg, ids, date, poissons, at);
    if |ids| > 0 && r.Ok? {
      ExpireSamples(s, cfg, ids[0], date, poissons(at));
      BuriableAfterFirst(s, cfg, ids, date, poissons(at));
      var u := Expire(s, cfg, ids[0], date, poissons(at)).value;
      ExpireAllExpired(u, cfg, ids[1..], date, poissons, at + 1);
      ExpireAllKeeps(u, cfg, ids[1..], date, poissons, at + 1, ids[0]);
      forall i | 1 <= i < |ids| ensures ids[i] == ids[1..][i - 1] {}
    }
  }

  /** Each removed badger's vertex is detected on the day of death. */
  lemma {:induction false} ExpireAllDetected(s: State, cfg: Config, ids: seq<string>, date: int,
                                             poissons: nat -> nat, at: nat)
    requires BuriableAll(s, ids)
    ensures var r := ExpireAll(s, cfg, ids, date, poissons, at);
      r.Ok? ==> forall i :: 0 <= i < |ids| ==>
        ids[i] in r.value.tree.nodes && r.value.tree.nodes[ids[i]].detectionDate == Some(date)
    decreases |ids|
  {
    var r := ExpireAll(s, cfg, ids, date, poissons, at);
    if |ids| > 0 && r.Ok? {
      ExpireSamples(s, cfg, ids[0], date, poissons(at));
      BuriableAfterFirst(s, cfg, ids, date, poissons(at));
      var u := Expire(s, cfg, ids[0], date, poissons(at)).value;
      ExpireAllDetected(u, cfg, ids[1..], date, poissons, at + 1);
      ExpireAllKeeps(u, cfg, ids[1..], date, poissons, at + 1, ids[0]);
      forall i | 1 <= i < |ids| ensures ids[i] == ids[1..][i - 1] {}
    }
  }

  /** A badger already expired, and not removed again, stays as it was, vertex included. */
  lemma {:induction false} ExpireAllKeeps(s: State, cfg: Config, ids: seq<string>, date: int, poissons: nat -> nat,
                                          at: nat, k: string)
    requires BuriableAll(s, ids) && k !in ids && k in s.expiredBadgers && k in s.tree.nodes
    ensures var r := ExpireAll(s, cfg, ids, date, poissons, at);
      r.Ok? ==> k in r.value.expiredBadgers && r.value.expiredBadgers[k] == s.expiredBadgers[k]
                && k in r.value.tree.nodes && r.value.tree.nodes[k] == s.tree.nodes[k]
    decreases |ids|
  {
    var r := ExpireAll(s, cfg, ids, date, poissons, at);
    if |ids| > 0 && r.Ok? {
      ExpireRemoves(s, cfg, ids[0], date, poissons(at));
      ExpireKeepsExpired(s, cfg, ids[0], date, poissons(at));
      ExpireSteps(s, cfg, ids[0], date, poissons(at));
      BuriableAfterFirst(s, cfg, ids, date, poissons(at));
      var u := Expire(s, cfg, ids[0], date, poissons(at)).value;
      assert k !in ids[1..];
      ExpireAllKeeps(u, cfg, ids[1..], date, poissons, at + 1, k);
    }
  }

  /** The death tests of badgers that are untouched read the same in either state. */
  lemma {:induction false} DeathTestsSame(s: State, u: State, ids: seq<string>, date: int)
    requires forall i :: 0 <= i < |ids| ==> ids[i] in s.badgers && ids[i] in u.badgers
    requires forall i :: 0 <= i < |ids| ==> u.badgers[ids[i]] == s.badgers[ids[i]]
    ensures DeathTests(u, ids, date) == DeathTests(s, ids, date)
  {
  }

  /** The death tests are written in the order the badgers die. */
  lemma {:induction false} ExpireAllTests(s: State, cfg: Config, ids: seq<string>, date: int, poissons: nat -> nat,
                                          at: nat)
    requires BuriableAll(s, ids)
    ensures var r := ExpireAll(s, cfg, ids, date, poissons, at);
      r.Ok? ==> r.value.badgerTests == s.badgerTests + DeathTests(s, ids, date)
    decreases |ids|
  {
    var r := ExpireAll(s, cfg, ids, date, poissons, at);
    if |ids| > 0 && r.Ok? {
      ExpireRemoves(s, cfg, ids[0], date, poissons(at));
      BuriableAfterFirst(s, cfg, ids, date, poissons(at));
      var u := Expire(s, cfg, ids[0], date, poissons(at)).value;
      ExpireAllTests(u, cfg, ids[1..], date, poissons, at + 1);
      var tail := ids[1..];
      forall i | 0 <= i < |tail| ensures tail[i] in u.badgers && u.badgers[tail[i]] == s.badgers[tail[i]] {
        assert tail[i] == ids[i + 1] && tail[i] != ids[0];
        assert Buriable(s, ids[i + 1]);
      }
      DeathTestsSame(s, u, tail, date);
      AppendAssociative(s.badgerTests, [DeathTest(s, ids[0], date)], DeathTests(s, tail, date));
    }
  }

  /** The badgers the death step visits: the live map's keys in map order, each with a known
      sett, a sett list and a vertex, since the step looks all three up. */
  predicate Visitable(s: State, order: seq<string>)
  {
    && Enumerates(order, s.badgers.Keys)
    && forall i :: 0 <= i < |order| ==> InKnownSett(s, order[i]) && Buriable(s, order[i])
  }

  /** In a sound state every live badger can be visited. */
  lemma SoundVisitable(s: State, order: seq<string>)
    requires Sound(s) && Enumerates(order, s.badgers.Keys)
    ensures Visitable(s, order)
  {
    forall i | 0 <= i < |order| ensures InKnownSett(s, order[i]) && Buriable(s, order[i]) {
      assert order[i] in Elems(order);
    }
  }

  /** The dying badgers form a removable list. */
  lemma DyingBuriable(s: State, order: seq<string>, draws: nat -> DeathDraw, rate: real)
    requires Visitable(s, order)
    ensures BuriableAll(s, Dying(order, draws, rate, 0))
  {
    var dying := Dying(order, draws, rate, 0);
    forall i | 0 <= i < |dying| ensures Buriable(s, dying[i]) {
      assert dying[i] in order;
      var j :| 0 <= j < |order| && order[j] == dying[i];
    }
  }

  /** The state once every visited badger's movement record is written and the deaths are
      counted. The source adds the count after the removals; nothing in between reads or writes
      the tally, so counting first gives the same final state. */
  function Recorded(s: State, order: seq<string>, draws: nat -> DeathDraw, rate: real, date: int): (r: State)
    requires forall i :: 0 <= i < |order| ==> InKnownSett(s, order[i])
    ensures r.movements == s.movements + DeathRecords(s, order, draws, rate, date, 0)
    ensures r.infectedBadgersAtDeath == s.infectedBadgersAtDeath + |Dying(order, draws, rate, 0)|
    ensures r.(movements := s.movements, infectedBadgersAtDeath := s.infectedBadgersAtDeath) == s
  {
    s.(movements := s.movements + DeathRecords(s, order, draws, rate, date, 0),
       infectedBadgersAtDeath := s.infectedBadgersAtDeath + |Dying(order, draws, rate, 0)|)
  }

  /** Writing the records and the count changes nothing the bookkeeping looks at. */
  lemma RecordedSound(s: State, order: seq<string>, draws: nat -> DeathDraw, rate: real, date: int)
    requires Sound(s) && forall i :: 0 <= i < |order| ==> InKnownSett(s, order[i])
    ensures Sound(Recorded(s, order, draws, rate, date)) && Conserves(s, Recorded(s, order, draws, rate, date))
  {
    SameAnimalsSound(s, Recorded(s, order, draws, rate, date));
  }

  /** `doBadgerDeaths`: every live badger, in map order, draws against the death rate and gets a
      movement record saying whether it died; the number that die is added to the
      infected-badgers-at-death tally; and the dying ones are tested, sampled and removed. */
  function BadgerDeaths(s: State, cfg: Config, order: seq<string>, rate: real, date: int,
                        draws: nat -> DeathDraw, poissons: nat -> nat): (r: Result<State>)
    requires Visitable(s, order)
  {
    DyingBuriable(s, order, draws, rate);
    ExpireAll(Recorded(s, order, draws, rate, date), cfg, Dying(order, draws, rate, 0), date, poissons, 0)
  }

  /** The death step is the removal loop run on the recorded state. */
  lemma BadgerDeathsSteps(s: State, cfg: Config, order: seq<string>, rate: real, date: int,
                          draws: nat -> DeathDraw, poissons: nat -> nat)
    requires Visitable(s, order)
    ensures var s1 := Recorded(s, order, draws, rate, date);
      var dying := Dying(order, draws, rate, 0);
      && BuriableAll(s1, dying)
      && BadgerDeaths(s, cfg, order, rate, date, draws, poissons) == ExpireAll(s1, cfg, dying, date, poissons, 0)
  {
    DyingBuriable(s, order, draws, rate);
  }

  /** The death step keeps the bookkeeping sound; animals only move from the live badger map
      to the expired one. */
  lemma BadgerDeathsSound(s: State, cfg: Config, order: seq<string>, rate: real, date: int,
                          draws: nat -> DeathDraw, poissons: nat -> nat)
    requires Sound(s) && Visitable(s, order)
    ensures var r := BadgerDeaths(s, cfg, order, rate, date, draws, poissons);
      r.Ok? ==> Sound(r.value) && Conserves(s, r.value)
  {
    BadgerDeathsSteps(s, cfg, order, rate, date, draws, poissons);
    var s1 := Recorded(s, order, draws, rate, date);
    RecordedSound(s, order, draws, rate, date);
    ExpireAllSound(s1, cfg, Dying(order, draws, rate, 0), date, poissons, 0);
    var r := BadgerDeaths(s, cfg, order, rate, date, draws, poissons);
    if r.Ok? {
      ConservesTransitive(s, s1, r.value);
    }
  }

  /** The death step touches nothing about cattle, herd restrictions or earlier records: only
      badgers, their records, the tree, the SNP counter and the tally change, and the movement
      list only grows. */
  lemma BadgerDeathsFrame(s: State, cfg: Config, order: seq<string>, rate: real, date: int,
                          draws: nat -> DeathDraw, poissons: nat -> nat)
    requires Visitable(s, order)
    ensures var r := BadgerDeaths(s, cfg, order, rate, date, draws, poissons);
      r.Ok? ==>
        && r.value.cows == s.cows && r.value.farmInfections == s.farmInfections
        && r.value.culledCows == s.culledCows && r.value.restrictedHerds == s.restrictedHerds
        && r.value.farms == s.farms && r.value.reservoirs == s.reservoirs
        && r.value.cattleTests == s.cattleTests && r.value.herdTests == s.herdTests
        && r.value.movements == s.movements + DeathRecords(s, order, draws, rate, date, 0)
  {
    BadgerDeathsSteps(s, cfg, order, rate, date, draws, poissons);
    var s1 := Recorded(s, order, draws, rate, date);
    var dying := Dying(order, draws, rate, 0);
    ExpireAllFrame(s1, cfg, dying, date, poissons, 0);
  }

  /** A live badger leaves the live map exactly when its draw fell below the rate; the dead are
      found in the expired map sampled on that date, a record is written for every badger
      visited, and the tally grows by the number of deaths. */
  lemma BadgerDeathsEffect(s: State, cfg: Config, order: seq<string>, rate: real, date: int,
                           draws: nat -> DeathDraw, poissons: nat -> nat, i: nat)
    requires Visitable(s, order) && i < |order|
    ensures var r := BadgerDeaths(s, cfg, order, rate, date, draws, poissons);
      r.Ok? ==>
        && (order[i] in r.value.badgers <==> !(draws(i).rnd < rate))
        && (order[i] in r.value.badgers ==> r.value.badgers[order[i]] == s.badgers[order[i]])
        && (order[i] !in r.value.badgers ==>
              order[i] in r.value.expiredBadgers && r.value.expiredBadgers[order[i]].dateSampleTaken == date)
        && |s.movements| + i < |r.value.movements|
        && r.value.movements[|s.movements| + i] == DeathRecord(s, order[i], draws(i), rate, date)
        && r.value.infectedBadgersAtDeath == s.infectedBadgersAtDeath + |Dying(order, draws, rate, 0)|
  {
    BadgerDeathsSteps(s, cfg, order, rate, date, draws, poissons);
    var s1 := Recorded(s, order, draws, rate, date);
    var dying := Dying(order, draws, rate, 0);
    var e := ExpireAll(s1, cfg, dying, date, poissons, 0);
    if e.Ok? {
      DeathFate(s, s1, cfg, order, rate, date, draws, poissons, i);
      ExpireAllFrame(s1, cfg, dying, date, poissons, 0);
      assert e.value.movements == s1.movements && e.value.infectedBadgersAtDeath == s1.infectedBadgersAtDeath;
      assert s1.movements[|s.movements| + i] == DeathRecords(s, order, draws, rate, date, 0)[i];
    }
  }

  /** What the removal loop does to one visited badger. */
  lemma DeathFate(s: State, s1: State, cfg: Config, order: seq<string>, rate: real, date: int,
                  draws: nat -> DeathDraw, poissons: nat -> nat, i: nat)
    requires Distinct(order) && i < |order| && order[i] in s.badgers
    requires s1.badgers == s.badgers && BuriableAll(s1, Dying(order, draws, rate, 0))
    ensures var e := ExpireAll(s1, cfg, Dying(order, draws, rate, 0), date, poissons, 0);
      e.Ok? ==>
        && (order[i] in e.value.badgers <==> !(draws(i).rnd < rate))
        && (order[i] in e.value.badgers ==> e.value.badgers[order[i]] == s.badgers[order[i]])
        && (order[i] !in e.value.badgers ==>
              order[i] in e.value.expiredBadgers && e.value.expiredBadgers[order[i]].dateSampleTaken == date)
  {
    var dying := Dying(order, draws, rate, 0);
    var e := ExpireAll(s1, cfg, dying, date, poissons, 0);
    if e.Ok? {
      ExpireAllLive(s1, cfg, dying, date, poissons, 0);
      ExpireAllSurvivors(s1, cfg, dying, date, poissons, 0);
      ExpireAllExpired(s1, cfg, dying, date, poissons, 0);
      DyingIff(order, draws, rate, 0, i);
      if order[i] in dying {
        var j :| 0 <= j < |dying| && dying[j] == order[i];
      }
    }
  }
}

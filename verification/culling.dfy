/** Testing cattle: the single-animal skin test that culls a reactor, the whole-herd test
    built from it, and the handling of the scheduled herd tests (`theta`) that turns their
    results into restrictions. Also the bookkeeping invariants that every observer action
    keeps: the per-unit lists agree with the live maps, and a removed animal leaves the live
    map for the culled (or expired) map. */
module Culling {
  import opened Common
  import opened Units
  import opened Animals
  import opened Transmission
  import opened Records
  import opened Settings
  import opened Scenario
  import opened Restrictions

  // ---------------------------------------------------------------------------
  // Bookkeeping invariants
  // ---------------------------------------------------------------------------

  /** Each herd lists each live cow on it exactly once, and lists nothing else. */
  predicate CowsListed(s: State)
  {
    && (forall f :: f in s.farmInfections ==> Distinct(s.farmInfections[f]))
    && (forall f, i :: f in s.farmInfections && 0 <= i < |s.farmInfections[f]| ==>
          s.farmInfections[f][i] in s.cows && s.cows[s.farmInfections[f][i]].farmId == f)
    && (forall id :: id in s.cows ==>
          s.cows[id].farmId in s.farmInfections && id in s.farmInfections[s.cows[id].farmId])
  }

  /** Each sett lists each live badger in it exactly once, and lists nothing else. */
  predicate BadgersListed(s: State)
  {
    && (forall u :: u in s.reservoirInfections ==> Distinct(s.reservoirInfections[u]))
    && (forall u, i :: u in s.reservoirInfections && 0 <= i < |s.reservoirInfections[u]| ==>
          s.reservoirInfections[u][i] in s.badgers && s.badgers[s.reservoirInfections[u][i]].reservoirId == u)
    && (forall id :: id in s.badgers ==>
          s.badgers[id].reservoirId in s.reservoirInfections && id in s.reservoirInfections[s.badgers[id].reservoirId])
  }

  /** A culled cow or a dead badger is no longer live, and its tree vertex stays. */
  predicate Apart(s: State)
  {
    && s.cows.Keys !! s.culledCows.Keys
    && s.badgers.Keys !! s.expiredBadgers.Keys
    && s.culledCows.Keys <= s.tree.nodes.Keys
    && s.expiredBadgers.Keys <= s.tree.nodes.Keys
  }

  predicate Sound(s: State)
  {
    Located(s) && CowsListed(s) && BadgersListed(s) && Apart(s)
  }

  /** What observer actions may do to the population: animals only leave the live maps, and
      every one that leaves is found in the culled or expired map; no id is issued and no
      vertex or edge is added. */
  predicate Conserves(s: State, r: State)
  {
    && r.cows.Keys <= s.cows.Keys
    && r.badgers.Keys <= s.badgers.Keys
    && r.cows.Keys + r.culledCows.Keys == s.cows.Keys + s.culledCows.Keys
    && r.badgers.Keys + r.expiredBadgers.Keys == s.badgers.Keys + s.expiredBadgers.Keys
    && r.tree.nodes.Keys == s.tree.nodes.Keys
    && r.tree.edges == s.tree.edges
    && r.nextCowId == s.nextCowId
    && r.nextBadgerId == s.nextBadgerId
    && r.lastSnp >= s.lastSnp
  }

  lemma ConservesTransitive(s: State, t: State, r: State)
    requires Conserves(s, t) && Conserves(t, r)
    ensures Conserves(s, r)
  {
  }

  /** Since no id is issued and no vertex added, the id counters stay ahead of the tree. */
  lemma ConservesFresh(s: State, r: State)
    requires Conserves(s, r) && Fresh(s)
    ensures Fresh(r)
  {
  }

  /** Dropping an element from a list without repeats removes just that element. */
  lemma {:induction false} RemoveFirstDistinct<T>(xs: seq<T>, x: T)
    requires Distinct(xs)
    ensures Distinct(RemoveFirst(xs, x))
    ensures forall y :: y in RemoveFirst(xs, x) <==> y in xs && y != x
  {
    if |xs| > 0 && xs[0] != x {
      var tail := xs[1..];
      assert Distinct(tail) by {
        forall i, j | 0 <= i < j < |tail| ensures tail[i] != tail[j] {
          assert tail[i] == xs[i + 1] && tail[j] == xs[j + 1];
        }
      }
      RemoveFirstDistinct(tail, x);
      var rest := RemoveFirst(tail, x);
      assert RemoveFirst(xs, x) == [xs[0]] + rest;
      assert xs[0] !in tail by {
        forall i | 0 <= i < |tail| ensures tail[i] != xs[0] { assert tail[i] == xs[i + 1]; }
      }
      assert xs == [xs[0]] + tail;
    } else if |xs| > 0 {
      var tail := xs[1..];
      assert xs == [x] + tail;
      forall i, j | 0 <= i < j < |tail| ensures tail[i] != tail[j] {
        assert tail[i] == xs[i + 1] && tail[j] == xs[j + 1];
      }
      forall i | 0 <= i < |tail| ensures tail[i] != x { assert tail[i] == xs[i + 1]; }
    }
  }

  // ---------------------------------------------------------------------------
  // Testing one cow
  // ---------------------------------------------------------------------------

  /** The draws behind one skin test: whether the uniform draw falls within the test
      sensitivity, and the Poisson SNP count used if the cow is sampled. */
  datatype TestDraw = TestDraw(sensitive: bool, poisson: nat)

  /** A state after testing, with the number of reactors found. */
  datatype Tested = Tested(state: State, reactors: nat)

  /** What testing cattle leaves alone: everything but the live and culled cows, the herd
      lists, the tree's detection dates, the SNP counter and the test records. */
  predicate TestFrame(s: State, r: State)
  {
    && r == s.(cows := r.cows, culledCows := r.culledCows, farmInfections := r.farmInfections, tree := r.tree,
               lastSnp := r.lastSnp, cattleTests := r.cattleTests)
    && r.farmInfections.Keys == s.farmInfections.Keys
    && r.tree.nodes.Keys == s.tree.nodes.Keys
    && r.tree.edges == s.tree.edges
  }

  /** A reactor's removal: the sampled cow (sample date set to the test date) moves from the
      live map to the culled map, leaves the herd's list, and its vertex gets the detection
      date. The herd size is not changed. */
  function Cull(u: State, id: string, farmId: string, date: int): (r: State)
    requires id in u.cows && id in u.tree.nodes && farmId in u.farmInfections
    ensures r.cows == u.cows - {id}
    ensures r.culledCows == u.culledCows[id := u.cows[id].(dateSampleTaken := date)]
    ensures r.farmInfections == u.farmInfections[farmId := RemoveFirst(u.farmInfections[farmId], id)]
    ensures r.tree == SetDetectionDate(u.tree, id, date)
  {
    u.(cows := u.cows - {id},
       culledCows := u.culledCows[id := u.cows[id].(dateSampleTaken := date)],
       farmInfections := u.farmInfections[farmId := RemoveFirst(u.farmInfections[farmId], id)],
       tree := SetDetectionDate(u.tree, id, date))
  }

  /** `testAndRemoveIfInfected`: only a test-sensitive or infectious cow can react, and then
      only when the draw falls within the sensitivity; a reactor is sampled (new SNPs, last
      generation and sample date all set to the test date) and culled. One test record,
      carrying the cow's state at the time of the test, is written either way. An error is
      the SNP generation's. */
  function TestAndRemove(s: State, cfg: Config, id: string, date: int, farmId: string, event: string,
                         d: TestDraw): (r: Result<Tested>)
    requires id in s.cows && id in s.tree.nodes && farmId in s.farmInfections
    ensures var c := s.cows[id];
      r.Err? <==> Detectable(c.status) && d.sensitive &&
                  NextSnps(cfg.mutationRate, date, c.lastSnpGeneration, s.lastSnp, d.poisson).Err?
    ensures r.Ok? ==> TestFrame(s, r.value.state)
    ensures r.Ok? ==> (r.value.reactors == 1 <==> Detectable(s.cows[id].status) && d.sensitive)
    ensures r.Ok? ==> r.value.reactors <= 1
    ensures r.Ok? ==>
      r.value.state.cattleTests == s.cattleTests + [CattleTest(date, farmId, id, r.value.reactors == 1, s.cows[id].status, event)]
  {
    var c := s.cows[id];
    if !(Detectable(c.status) && d.sensitive) then
      Ok(Tested(s.(cattleTests := s.cattleTests + [CattleTest(date, farmId, id, false, c.status, event)]), 0))
    else
      var batch :- NextSnps(cfg.mutationRate, date, c.lastSnpGeneration, s.lastSnp, d.poisson);
      var sampled := c.(snps := c.snps + batch.snps, lastSnpGeneration := date, dateSampleTaken := date);
      Ok(Tested(s.(cows := s.cows - {id},
                   culledCows := s.culledCows[id := sampled],
                   farmInfections := s.farmInfections[farmId := RemoveFirst(s.farmInfections[farmId], id)],
                   tree := SetDetectionDate(s.tree, id, date),
                   lastSnp := batch.counter,
                   cattleTests := s.cattleTests + [CattleTest(date, farmId, id, true, c.status, event)]), 1))
  }

  /** A reactor is sampled and culled, and the state of a non-reactor is untouched apart from
      the new record; either way every other cow is left as it was. */
  lemma TestAndRemoveEffect(s: State, cfg: Config, id: string, date: int, farmId: string, event: string,
                            d: TestDraw)
    requires id in s.cows && id in s.tree.nodes && farmId in s.farmInfections
    ensures var r := TestAndRemove(s, cfg, id, date, farmId, event, d);
      r.Ok? ==> forall k :: k in s.cows && k != id ==> k in r.value.state.cows && r.value.state.cows[k] == s.cows[k]
    ensures var r := TestAndRemove(s, cfg, id, date, farmId, event, d);
      r.Ok? && r.value.reactors == 1 ==>
        && UpdateCowSnps(s, cfg, id, date, d.poisson).Ok?
        && r.value.state == Cull(UpdateCowSnps(s, cfg, id, date, d.poisson).value, id, farmId, date)
                              .(cattleTests := r.value.state.cattleTests)
    ensures var r := TestAndRemove(s, cfg, id, date, farmId, event, d);
      r.Ok? && r.value.reactors == 0 ==> r.value.state == s.(cattleTests := r.value.state.cattleTests)
  {
  }

  /** The culled cow is the sampled one: its SNPs have grown and its last generation and
      sample dates are the test date; its vertex records the detection. */
  lemma TestAndRemoveSamples(s: State, cfg: Config, id: string, date: int, farmId: string, event: string,
                             d: TestDraw)
    requires id in s.cows && id in s.tree.nodes && farmId in s.farmInfections
    ensures var r := TestAndRemove(s, cfg, id, date, farmId, event, d);
      r.Ok? && r.value.reactors == 1 ==>
        && id !in r.value.state.cows
        && id in r.value.state.culledCows
        && r.value.state.culledCows[id].lastSnpGeneration == date
        && r.value.state.culledCows[id].dateSampleTaken == date
        && s.cows[id].snps <= r.value.state.culledCows[id].snps
        && r.value.state.culledCows[id].(snps := s.cows[id].snps, lastSnpGeneration := s.cows[id].lastSnpGeneration,
                                         dateSampleTaken := s.cows[id].dateSampleTaken) == s.cows[id]
        && r.value.state.tree.nodes[id].detectionDate == Some(date)
        && r.value.state.farmInfections[farmId] == RemoveFirst(s.farmInfections[farmId], id)
  {
    TestAndRemoveEffect(s, cfg, id, date, farmId, event, d);
  }

  /** Culling a cow listed on its own herd keeps the lists in agreement with the live map. */
  lemma CullListed(u: State, id: string, farmId: string, date: int)
    requires CowsListed(u) && id in u.cows && u.cows[id].farmId == farmId && id in u.tree.nodes
    ensures farmId in u.farmInfections
    ensures CowsListed(Cull(u, id, farmId, date))
  {
    var t := Cull(u, id, farmId, date);
    var list := u.farmInfections[farmId];
    RemoveFirstDistinct(list, id);
    forall f, i | f in t.farmInfections && 0 <= i < |t.farmInfections[f]|
      ensures t.farmInfections[f][i] in t.cows && t.cows[t.farmInfections[f][i]].farmId == f
    {
      var x := t.farmInfections[f][i];
      if f == farmId {
        assert x in RemoveFirst(list, id);
        var j :| 0 <= j < |list| && list[j] == x;
      } else {
        assert x == u.farmInfections[f][i];
      }
    }
  }

  lemma CullLocated(u: State, id: string, farmId: string, date: int)
    requires Located(u) && id in u.cows && farmId in u.farmInfections
    ensures Located(Cull(u, id, farmId, date))
  {
  }

  lemma CullApart(u: State, id: string, farmId: string, date: int)
    requires Located(u) && Apart(u) && id in u.cows && farmId in u.farmInfections
    ensures Apart(Cull(u, id, farmId, date)) && Conserves(u, Cull(u, id, farmId, date))
  {
  }

  lemma CullSound(u: State, id: string, farmId: string, date: int)
    requires Sound(u) && id in u.cows && u.cows[id].farmId == farmId
    ensures farmId in u.farmInfections && id in u.tree.nodes
    ensures Sound(Cull(u, id, farmId, date)) && Conserves(u, Cull(u, id, farmId, date))
  {
    CullListed(u, id, farmId, date);
    CullLocated(u, id, farmId, date);
    CullApart(u, id, farmId, date);
  }

  /** New SNPs for a live cow change nothing the bookkeeping looks at. */
  lemma UpdateCowSnpsSound(s: State, cfg: Config, id: string, date: int, poisson: nat)
    requires Sound(s) && id in s.cows
    ensures var r := UpdateCowSnps(s, cfg, id, date, poisson);
      r.Ok? ==> Sound(r.value) && Conserves(s, r.value) && r.value.cows[id].farmId == s.cows[id].farmId
  {
    UpdateSnpsLocated(s, cfg, id, date, poisson);
  }

  /** Testing a cow on the herd it is listed on keeps the bookkeeping sound, and a reactor is
      moved to the culled map. */
  lemma TestAndRemoveSound(s: State, cfg: Config, id: string, date: int, farmId: string, event: string,
                           d: TestDraw)
    requires Sound(s) && id in s.cows && s.cows[id].farmId == farmId
    ensures farmId in s.farmInfections && id in s.tree.nodes
    ensures var r := TestAndRemove(s, cfg, id, date, farmId, event, d);
      r.Ok? ==> Sound(r.value.state) && Conserves(s, r.value.state)
  {
    var r := TestAndRemove(s, cfg, id, date, farmId, event, d);
    TestAndRemoveEffect(s, cfg, id, date, farmId, event, d);
    if r.Ok? {
      var ts := r.value.state.cattleTests;
      if r.value.reactors == 1 {
        UpdateCowSnpsSound(s, cfg, id, date, d.poisson);
        var u := UpdateCowSnps(s, cfg, id, date, d.poisson).value;
        CullSound(u, id, farmId, date);
        var c := Cull(u, id, farmId, date);
        RecordKeepsSound(c, ts);
        ConservesTransitive(s, u, c);
        ConservesTransitive(s, c, c.(cattleTests := ts));
      } else {
        RecordKeepsSound(s, ts);
      }
    }
  }

  lemma TestAndRemoveConserves(s: State, cfg: Config, id: string, date: int, farmId: string, event: string,
                               d: TestDraw)
    requires id in s.cows && id in s.tree.nodes && farmId in s.farmInfections
    ensures var r := TestAndRemove(s, cfg, id, date, farmId, event, d);
      r.Ok? ==> Conserves(s, r.value.state)
  {
    TestAndRemoveKeys(s, cfg, id, date, farmId, event, d);
    TestAndRemoveCounters(s, cfg, id, date, farmId, event, d);
  }

  /** A test only moves the tested cow, and only from the live map to the culled map. */
  lemma TestAndRemoveKeys(s: State, cfg: Config, id: string, date: int, farmId: string, event: string,
                          d: TestDraw)
    requires id in s.cows && id in s.tree.nodes && farmId in s.farmInfections
    ensures var r := TestAndRemove(s, cfg, id, date, farmId, event, d);
      r.Ok? ==> r.value.state.cows.Keys + r.value.state.culledCows.Keys == s.cows.Keys + s.culledCows.Keys
    ensures var r := TestAndRemove(s, cfg, id, date, farmId, event, d);
      r.Ok? ==> r.value.state.cows.Keys <= s.cows.Keys
  {
  }

  /** A test adds no vertex or edge and issues no id; the SNP counter only grows. */
  lemma TestAndRemoveCounters(s: State, cfg: Config, id: string, date: int, farmId: string, event: string,
                              d: TestDraw)
    requires id in s.cows && id in s.tree.nodes && farmId in s.farmInfections
    ensures var r := TestAndRemove(s, cfg, id, date, farmId, event, d);
      r.Ok? ==> r.value.state.lastSnp >= s.lastSnp
  {
  }

  /** Two states that hold the same animals, units and tree; they may differ in records,
      tallies, restrictions and herd-test dates. */
  predicate SameAnimals(a: State, b: State)
  {
    && b.farms.Keys == a.farms.Keys
    && b.reservoirs == a.reservoirs
    && b.farmInfections == a.farmInfections
    && b.reservoirInfections == a.reservoirInfections
    && b.cows == a.cows
    && b.badgers == a.badgers
    && b.culledCows == a.culledCows
    && b.expiredBadgers == a.expiredBadgers
    && b.tree == a.tree
    && b.nextCowId == a.nextCowId
    && b.nextBadgerId == a.nextBadgerId
    && b.lastSnp == a.lastSnp
  }

  lemma SameAnimalsSound(a: State, b: State)
    requires Sound(a) && SameAnimals(a, b)
    ensures Sound(b) && Conserves(a, b)
  {
  }

  /** Writing test records changes nothing the bookkeeping looks at. */
  lemma RecordKeepsSound(s: State, ts: seq<CattleTest>)
    requires Sound(s)
    ensures Sound(s.(cattleTests := ts)) && Conserves(s, s.(cattleTests := ts))
  {
  }

  // ---------------------------------------------------------------------------
  // Testing a list of cows
  // ---------------------------------------------------------------------------

  /** The number of positive results among some test records. */
  function Positives(ts: seq<CattleTest>): nat
  {
    if |ts| == 0 then 0 else (if ts[0].positive then 1 else 0) + Positives(ts[1..])
  }

  /** Tests of `ids`, one each and in order, on `date` at `farmId`. */
  predicate RecordsFor(ts: seq<CattleTest>, ids: seq<string>, date: int, farmId: string, event: string)
  {
    && |ts| == |ids|
    && forall i :: 0 <= i < |ids| ==>
         ts[i].animalId == ids[i] && ts[i].date == date && ts[i].unitId == farmId && ts[i].event == event
  }

  lemma AppendAssociative<T>(a: seq<T>, b: seq<T>, c: seq<T>)
    ensures (a + b) + c == a + (b + c)
  {
  }

  lemma RecordsForCons(t: CattleTest, ts: seq<CattleTest>, ids: seq<string>, date: int, farmId: string,
                       event: string)
    requires |ids| > 0 && RecordsFor(ts, ids[1..], date, farmId, event)
    requires t.animalId == ids[0] && t.date == date && t.unitId == farmId && t.event == event
    ensures RecordsFor([t] + ts, ids, date, farmId, event)
  {
    forall i | 1 <= i < |ids| ensures ([t] + ts)[i] == ts[i - 1] && ids[i] == ids[1..][i - 1] {}
  }

  /** A state after a series of tests, with the records they wrote. */
  datatype Batch = Batch(state: State, records: seq<CattleTest>)

  /** `ids` can be tested one after another on `farmId`: no cow twice, each one live. */
  predicate Testable(s: State, farmId: string, ids: seq<string>)
  {
    && farmId in s.farmInfections
    && Distinct(ids)
    && forall i :: 0 <= i < |ids| ==> ids[i] in s.cows && ids[i] in s.tree.nodes
  }

  /** After the first cow is tested, the rest can still be tested. */
  lemma TestableAfterFirst(s: State, cfg: Config, ids: seq<string>, date: int, farmId: string, event: string,
                           d: TestDraw)
    requires Testable(s, farmId, ids) && |ids| > 0
    ensures var r := TestAndRemove(s, cfg, ids[0], date, farmId, event, d);
      r.Ok? ==> Testable(r.value.state, farmId, ids[1..])
  {
    var r := TestAndRemove(s, cfg, ids[0], date, farmId, event, d);
    TestAndRemoveEffect(s, cfg, ids[0], date, farmId, event, d);
    var tail := ids[1..];
    assert forall i :: 0 <= i < |tail| ==> tail[i] == ids[i + 1] && tail[i] != ids[0];
  }

  /** Each cow of `ids` in turn is tested (a loop over `testAndRemoveIfInfected`); the i-th test
      uses `draw(at + i)`. The reactors are the positive records. */
  function TestAll(s: State, cfg: Config, ids: seq<string>, date: int, farmId: string, event: string,
                   draw: nat -> TestDraw, at: nat): (r: Result<Batch>)
    requires Testable(s, farmId, ids)
    ensures r.Ok? ==> TestFrame(s, r.value.state)
    ensures r.Ok? ==> r.value.state.cattleTests == s.cattleTests + r.value.records
    ensures r.Ok? ==> RecordsFor(r.value.records, ids, date, farmId, event)
    decreases |ids|
  {
    if |ids| == 0 then
      Ok(Batch(s, []))
    else
      var first :- TestAndRemove(s, cfg, ids[0], date, farmId, event, draw(at));
      TestableAfterFirst(s, cfg, ids, date, farmId, event, draw(at));
      var t := first.state;
      var rest :- TestAll(t, cfg, ids[1..], date, farmId, event, draw, at + 1);
      var record := CattleTest(date, farmId, ids[0], first.reactors == 1, s.cows[ids[0]].status, event);
      RecordsForCons(record, rest.records, ids, date, farmId, event);
      assert t.cattleTests == s.cattleTests + [record];
      AppendAssociative(s.cattleTests, [record], rest.records);
      Ok(Batch(rest.state, [record] + rest.records))
  }

  /** With no reactor among them, testing a list of cows only writes the test records. */
  lemma {:induction false} TestAllClear(s: State, cfg: Config, ids: seq<string>, date: int, farmId: string,
                                        event: string, draw: nat -> TestDraw, at: nat)
    requires Testable(s, farmId, ids)
    ensures var r := TestAll(s, cfg, ids, date, farmId, event, draw, at);
      r.Ok? && Positives(r.value.records) == 0 ==> r.value.state == s.(cattleTests := r.value.state.cattleTests)
    decreases |ids|
  {
    var r := TestAll(s, cfg, ids, date, farmId, event, draw, at);
    if |ids| > 0 && r.Ok? && Positives(r.value.records) == 0 {
      TestAndRemoveEffect(s, cfg, ids[0], date, farmId, event, draw(at));
      TestableAfterFirst(s, cfg, ids, date, farmId, event, draw(at));
      var first := TestAndRemove(s, cfg, ids[0], date, farmId, event, draw(at)).value;
      var rest := TestAll(first.state, cfg, ids[1..], date, farmId, event, draw, at + 1).value;
      assert r.value.records[1..] == rest.records;
      TestAllClear(first.state, cfg, ids[1..], date, farmId, event, draw, at + 1);
    }
  }

  /** Testing only ever removes cows: every cow still live afterwards is exactly as it was. */
  lemma {:induction false} TestAllKeepsCows(s: State, cfg: Config, ids: seq<string>, date: int, farmId: string,
                                            event: string, draw: nat -> TestDraw, at: nat)
    requires Testable(s, farmId, ids)
    ensures var r := TestAll(s, cfg, ids, date, farmId, event, draw, at);
      r.Ok? ==> forall k :: k in r.value.state.cows ==> k in s.cows && r.value.state.cows[k] == s.cows[k]
    decreases |ids|
  {
    var r := TestAll(s, cfg, ids, date, farmId, event, draw, at);
    if |ids| > 0 && r.Ok? {
      TestAndRemoveKeepsCows(s, cfg, ids[0], date, farmId, event, draw(at));
      TestableAfterFirst(s, cfg, ids, date, farmId, event, draw(at));
      var first := TestAndRemove(s, cfg, ids[0], date, farmId, event, draw(at)).value;
      TestAllKeepsCows(first.state, cfg, ids[1..], date, farmId, event, draw, at + 1);
    }
  }

  lemma TestAndRemoveKeepsCows(s: State, cfg: Config, id: string, date: int, farmId: string, event: string,
                               d: TestDraw)
    requires id in s.cows && id in s.tree.nodes && farmId in s.farmInfections
    ensures var r := TestAndRemove(s, cfg, id, date, farmId, event, d);
      r.Ok? ==> forall k :: k in r.value.state.cows ==> k in s.cows && r.value.state.cows[k] == s.cows[k]
  {
  }

  /** A cow can only react if it was detectable, so the reactors never outnumber the cows
      tested. */
  lemma {:induction false} ReactorsAtMostTested(ts: seq<CattleTest>)
    ensures Positives(ts) <= |ts|
  {
    if |ts| > 0 {
      ReactorsAtMostTested(ts[1..]);
    }
  }

  /** Every cow of `ids` is live and on `farmId`. */
  predicate OnFarm(s: State, farmId: string, ids: seq<string>)
  {
    forall i :: 0 <= i < |ids| ==> ids[i] in s.cows && s.cows[ids[i]].farmId == farmId
  }

  lemma OnFarmAfterFirst(s: State, cfg: Config, ids: seq<string>, date: int, farmId: string, event: string,
                         d: TestDraw)
    requires Testable(s, farmId, ids) && OnFarm(s, farmId, ids) && |ids| > 0
    ensures var r := TestAndRemove(s, cfg, ids[0], date, farmId, event, d);
      r.Ok? ==> OnFarm(r.value.state, farmId, ids[1..])
  {
    TestAndRemoveEffect(s, cfg, ids[0], date, farmId, event, d);
    var tail := ids[1..];
    assert forall i :: 0 <= i < |tail| ==> tail[i] == ids[i + 1] && tail[i] != ids[0];
  }

  /** Testing cows listed on their own herd keeps the bookkeeping sound. */
  lemma {:induction false} TestAllSound(s: State, cfg: Config, ids: seq<string>, date: int, farmId: string,
                                        event: string, draw: nat -> TestDraw, at: nat)
    requires Sound(s) && Testable(s, farmId, ids) && OnFarm(s, farmId, ids)
    ensures var r := TestAll(s, cfg, ids, date, farmId, event, draw, at);
      r.Ok? ==> Sound(r.value.state)
    decreases |ids|
  {
    var r := TestAll(s, cfg, ids, date, farmId, event, draw, at);
    if |ids| > 0 && r.Ok? {
      TestAndRemoveSound(s, cfg, ids[0], date, farmId, event, draw(at));
      TestableAfterFirst(s, cfg, ids, date, farmId, event, draw(at));
      OnFarmAfterFirst(s, cfg, ids, date, farmId, event, draw(at));
      var t := TestAndRemove(s, cfg, ids[0], date, farmId, event, draw(at)).value.state;
      TestAllSound(t, cfg, ids[1..], date, farmId, event, draw, at + 1);
    }
  }

  /** Testing removes only reactors, and every one of them is found in the culled map. */
  lemma {:induction false} TestAllConserves(s: State, cfg: Config, ids: seq<string>, date: int, farmId: string,
                                            event: string, draw: nat -> TestDraw, at: nat)
    requires Testable(s, farmId, ids)
    ensures var r := TestAll(s, cfg, ids, date, farmId, event, draw, at);
      r.Ok? ==> Conserves(s, r.value.state)
    decreases |ids|
  {
    var r := TestAll(s, cfg, ids, date, farmId, event, draw, at);
    if |ids| > 0 && r.Ok? {
      TestAndRemoveConserves(s, cfg, ids[0], date, farmId, event, draw(at));
      TestableAfterFirst(s, cfg, ids, date, farmId, event, draw(at));
      var t := TestAndRemove(s, cfg, ids[0], date, farmId, event, draw(at)).value.state;
      TestAllConserves(t, cfg, ids[1..], date, farmId, event, draw, at + 1);
      ConservesTransitive(s, t, r.value.state);
    }
  }

  // ---------------------------------------------------------------------------
  // Whole-herd test
  // ---------------------------------------------------------------------------

  /** `performWHT`: every cow listed on the herd when the test starts is tested; the reactors
      are the positive test records. The herd-test record gives the number listed and the
      number of reactors, and the reactor count is added to the reactors-at-breakdown
      histogram, also when it is zero. The source's check that there are no more reactors
      than listed cows can never fail: the bound is part of the contract. */
  function PerformWHT(s: State, cfg: Config, date: int, farmId: string, draw: nat -> TestDraw): (r: Result<Batch>)
    requires Located(s) && CowsListed(s) && farmId in s.farmInfections
    ensures r.Ok? ==> RecordsFor(r.value.records, s.farmInfections[farmId], date, farmId, "WHT")
    ensures r.Ok? ==> r.value.state.cattleTests == s.cattleTests + r.value.records
    ensures r.Ok? ==> Positives(r.value.records) <= FarmInfected(s, farmId)
    ensures r.Ok? ==>
      r.value.state.herdTests == s.herdTests + [HerdTest(date, farmId, FarmInfected(s, farmId), Positives(r.value.records), "WHT")]
    ensures r.Ok? ==> r.value.state.reactorsAtBreakdown == Increment(s.reactorsAtBreakdown, Positives(r.value.records))
    ensures r.Ok? ==> r.value.state.farms == s.farms && r.value.state.restrictedHerds == s.restrictedHerds
  {
    var ids := s.farmInfections[farmId];
    var t :- TestAll(s, cfg, ids, date, farmId, "WHT", draw, 0);
    var st := t.state;
    var reactors := Positives(t.records);
    ReactorsAtMostTested(t.records);
    Ok(Batch(st.(herdTests := st.herdTests + [HerdTest(date, farmId, |ids|, reactors, "WHT")],
                reactorsAtBreakdown := Increment(st.reactorsAtBreakdown, reactors)), t.records))
  }

  lemma PerformWHTSound(s: State, cfg: Config, date: int, farmId: string, draw: nat -> TestDraw)
    requires Sound(s) && farmId in s.farmInfections
    ensures var r := PerformWHT(s, cfg, date, farmId, draw);
      r.Ok? ==> Sound(r.value.state) && Conserves(s, r.value.state)
  {
    var ids := s.farmInfections[farmId];
    TestAllSound(s, cfg, ids, date, farmId, "WHT", draw, 0);
    TestAllConserves(s, cfg, ids, date, farmId, "WHT", draw, 0);
    var t := TestAll(s, cfg, ids, date, farmId, "WHT", draw, 0);
    var r := PerformWHT(s, cfg, date, farmId, draw);
    if r.Ok? {
      SameAnimalsSound(t.value.state, r.value.state);
      ConservesTransitive(s, t.value.state, r.value.state);
    }
  }

  // ---------------------------------------------------------------------------
  // Scheduled herd tests
  // ---------------------------------------------------------------------------

  /** One scheduled test handled by `theta` at `time`: the herd is tested on the event's date
      and the result applied to its restriction. A positive test adds its reactor count to
      the reactors-at-breakdown histogram a second time. */
  function ThetaOne(s: State, cfg: Config, e: TestEvent, time: int, draw: nat -> TestDraw): (r: Result<State>)
    requires Located(s) && CowsListed(s) && e.herdId in s.farms
    ensures r.Ok? <==> PerformWHT(s, cfg, e.date, e.herdId, draw).Ok?
    ensures r.Ok? ==> var n := Positives(PerformWHT(s, cfg, e.date, e.herdId, draw).value.records);
      && Herds(r.value.farms, r.value.restrictedHerds) == TestOutcome(Herds(s.farms, s.restrictedHerds), e.herdId, n, time)
      && (n > 0 ==> Freq(r.value.reactorsAtBreakdown, n) == Freq(s.reactorsAtBreakdown, n) + 2)
      && (n == 0 ==> Freq(r.value.reactorsAtBreakdown, 0) == Freq(s.reactorsAtBreakdown, 0) + 1)
      && (forall b :: b != n ==> Freq(r.value.reactorsAtBreakdown, b) == Freq(s.reactorsAtBreakdown, b))
  {
    var w :- PerformWHT(s, cfg, e.date, e.herdId, draw);
    var st := w.state;
    var reactors := Positives(w.records);
    var h := TestOutcome(Herds(st.farms, st.restrictedHerds), e.herdId, reactors, time);
    Ok(st.(farms := h.farms, restrictedHerds := h.restricted,
           reactorsAtBreakdown := if reactors > 0 then Increment(st.reactorsAtBreakdown, reactors)
                                  else st.reactorsAtBreakdown))
  }

  lemma ThetaOneSound(s: State, cfg: Config, e: TestEvent, time: int, draw: nat -> TestDraw)
    requires Sound(s) && e.herdId in s.farms
    ensures var r := ThetaOne(s, cfg, e, time, draw);
      r.Ok? ==> Sound(r.value) && Conserves(s, r.value)
  {
    PerformWHTSound(s, cfg, e.date, e.herdId, draw);
    var w := PerformWHT(s, cfg, e.date, e.herdId, draw);
    var r := ThetaOne(s, cfg, e, time, draw);
    if r.Ok? {
      SameAnimalsSound(w.value.state, r.value);
      ConservesTransitive(s, w.value.state, r.value);
    }
  }

  /** `theta`: the scheduled tests of this step, in the order they are delivered; the j-th uses
      the draws `draws(j)`. Every test event must name a known herd. */
  function Theta(s: State, cfg: Config, events: seq<TestEvent>, time: int, draws: nat -> nat -> TestDraw,
                 j: nat): (r: Result<State>)
    requires Sound(s)
    requires forall i :: 0 <= i < |events| ==> events[i].herdId in s.farms
    ensures r.Ok? ==> Sound(r.value) && Conserves(s, r.value)
    ensures r.Ok? ==> r.value.farms.Keys == s.farms.Keys
    decreases |events|
  {
    if |events| == 0 then
      Ok(s)
    else
      ThetaOneSound(s, cfg, events[0], time, draws(j));
      var t :- ThetaOne(s, cfg, events[0], time, draws(j));
      var r :- Theta(t, cfg, events[1..], time, draws, j + 1);
      ConservesTransitive(s, t, r);
      Ok(r)
  }
}

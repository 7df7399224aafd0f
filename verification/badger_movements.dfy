/** Badgers: the single-animal test the observer applies to a moving or dying badger, and one
    iteration of the badger movement loop. Badger moves consult no restriction and write no
    herd test; the tests they run are never captures, so they never react. */
module BadgerMovements {
  import opened Common
  import opened Units
  import opened Animals
  import opened Records
  import opened Settings
  import opened Scenario
  import opened Culling
  import opened Sampling
  import opened Movements

  // ---------------------------------------------------------------------------
  // Testing one badger
  // ---------------------------------------------------------------------------

  /** Sampling a badger: it gains the next batch of SNP ids, and both its last generation date
      and its sample date become `date`. An error is the SNP generation's. */
  function SampleBadger(s: State, cfg: Config, id: string, date: int, poisson: nat): (r: Result<State>)
    requires id in s.badgers
    ensures var b := s.badgers[id];
      r.Err? <==> NextSnps(cfg.mutationRate, date, b.lastSnpGeneration, s.lastSnp, poisson).Err?
    ensures r.Ok? ==>
      && r.value == s.(badgers := r.value.badgers, lastSnp := r.value.lastSnp)
      && r.value.badgers.Keys == s.badgers.Keys
      && r.value.lastSnp >= s.lastSnp
    ensures r.Ok? ==> id in r.value.badgers
    ensures r.Ok? ==>
      var b := s.badgers[id];
      var sampled := r.value.badgers[id];
      && b.snps <= sampled.snps
      && sampled.lastSnpGeneration == date && sampled.dateSampleTaken == date
      && sampled.(snps := b.snps, lastSnpGeneration := b.lastSnpGeneration, dateSampleTaken := b.dateSampleTaken) == b
    ensures r.Ok? ==> forall k :: k in s.badgers && k != id ==> k in r.value.badgers && r.value.badgers[k] == s.badgers[k]
  {
    var u :- UpdateBadgerSnps(s, cfg, id, date, poisson);
    Ok(u.(badgers := u.badgers[id := u.badgers[id].(dateSampleTaken := date)]))
  }

  /** Sampling changes no badger's sett, so the bookkeeping stays sound. */
  lemma SampleBadgerSound(s: State, cfg: Config, id: string, date: int, poisson: nat)
    requires Sound(s) && id in s.badgers
    ensures var r := SampleBadger(s, cfg, id, date, poisson);
      r.Ok? ==> Sound(r.value) && Conserves(s, r.value)
  {
    var r := SampleBadger(s, cfg, id, date, poisson);
    if r.Ok? {
      SameSettsSound(s, r.value);
    }
  }

  /** Badgers that change nothing but their SNP data keep the bookkeeping sound. */
  lemma SameSettsSound(s: State, r: State)
    requires Sound(s) && r == s.(badgers := r.badgers, lastSnp := r.lastSnp) && r.lastSnp >= s.lastSnp
    requires r.badgers.Keys == s.badgers.Keys
    requires forall k :: k in s.badgers ==> r.badgers[k].(snps := s.badgers[k].snps,
      lastSnpGeneration := s.badgers[k].lastSnpGeneration, dateSampleTaken := s.badgers[k].dateSampleTaken) == s.badgers[k]
    ensures Sound(r) && Conserves(s, r)
  {
    SameSettsListed(s, r);
  }

  lemma SameSettsListed(s: State, r: State)
    requires BadgersListed(s) && r.reservoirInfections == s.reservoirInfections && r.badgers.Keys == s.badgers.Keys
    requires forall k :: k in s.badgers ==> r.badgers[k].reservoirId == s.badgers[k].reservoirId
    ensures BadgersListed(r)
  {
  }

  /** The record a badger test writes. The infection state is always infectious. */
  function BadgerTestRecord(date: int, id: string, dep: string, dest: string, capture: bool, positive: bool,
                            event: string): RecordBadger
  {
    NewRecordBadger(date, id, dep, dest, capture, positive, BadgerInfectious, event)
  }

  /** `testBadger`: a badger tests positive only when it is captured and the draw falls within
      the sensitivity; a positive badger is sampled. One record is written either way. The
      badger is looked up only when it tests positive. */
  function TestBadger(s: State, cfg: Config, id: string, dep: string, dest: string, capture: bool, date: int,
                      event: string, d: TestDraw): (r: Result<State>)
    requires capture && d.sensitive ==> id in s.badgers
    ensures r.Err? <==> capture && d.sensitive && SampleBadger(s, cfg, id, date, d.poisson).Err?
    ensures r.Ok? ==>
      r.value.badgerTests == s.badgerTests + [BadgerTestRecord(date, id, dep, dest, capture, capture && d.sensitive, event)]
    ensures r.Ok? && !(capture && d.sensitive) ==> r.value == s.(badgerTests := r.value.badgerTests)
    ensures r.Ok? && capture && d.sensitive ==>
      r.value == SampleBadger(s, cfg, id, date, d.poisson).value.(badgerTests := r.value.badgerTests)
  {
    var positive := capture && d.sensitive;
    var u :- if positive then SampleBadger(s, cfg, id, date, d.poisson) else Ok(s);
    Ok(u.(badgerTests := u.badgerTests + [BadgerTestRecord(date, id, dep, dest, capture, positive, event)]))
  }

  /** A badger that is not captured cannot test positive, and its test cannot fail. */
  lemma UncapturedNegative(s: State, cfg: Config, id: string, dep: string, dest: string, date: int,
                           event: string, d: TestDraw)
    ensures var r := TestBadger(s, cfg, id, dep, dest, false, date, event, d);
      && r.Ok?
      && r.value == s.(badgerTests := s.badgerTests + [BadgerTestRecord(date, id, dep, dest, false, false, event)])
  {
  }

  /** Testing a badger keeps the bookkeeping sound and moves no animal in or out. */
  lemma TestBadgerSound(s: State, cfg: Config, id: string, dep: string, dest: string, capture: bool, date: int,
                        event: string, d: TestDraw)
    requires Sound(s) && (capture && d.sensitive ==> id in s.badgers)
    ensures var r := TestBadger(s, cfg, id, dep, dest, capture, date, event, d);
      r.Ok? ==> Sound(r.value) && Conserves(s, r.value)
  {
    var r := TestBadger(s, cfg, id, dep, dest, capture, date, event, d);
    if r.Ok? {
      var u := if capture && d.sensitive then SampleBadger(s, cfg, id, date, d.poisson).value else s;
      if capture && d.sensitive {
        SampleBadgerSound(s, cfg, id, date, d.poisson);
      }
      assert r.value == u.(badgerTests := r.value.badgerTests);
      SameAnimalsSound(u, r.value);
      ConservesTransitive(s, u, r.value);
    }
  }

  // ---------------------------------------------------------------------------
  // Relocating badgers
  // ---------------------------------------------------------------------------

  /** Every badger of `ids` is live and in sett `resId`. */
  predicate InSett(s: State, resId: string, ids: seq<string>)
  {
    forall i :: 0 <= i < |ids| ==> ids[i] in s.badgers && s.badgers[ids[i]].reservoirId == resId
  }

  /** Moving one infected badger: it leaves the departure list, joins the end of the
      destination list, takes the destination as its sett and appends it to its sett history;
      then it is tested without capture for the "movement" record. */
  function RelocateBadger(s: State, cfg: Config, id: string, dep: string, dest: string, date: int): (r: State)
    requires id in s.badgers && dep in s.reservoirInfections && dest in s.reservoirInfections
    ensures r == s.(badgers := r.badgers, reservoirInfections := r.reservoirInfections, badgerTests := r.badgerTests)
    ensures r.badgers.Keys == s.badgers.Keys && r.reservoirInfections.Keys == s.reservoirInfections.Keys
    ensures r.badgerTests == s.badgerTests + [BadgerTestRecord(date, id, dep, dest, false, false, "movement")]
  {
    var lists := s.reservoirInfections[dep := RemoveFirst(s.reservoirInfections[dep], id)];
    var b := s.badgers[id];
    var moved := s.(reservoirInfections := lists[dest := lists[dest] + [id]],
                    badgers := s.badgers[id := b.(reservoirId := dest, allReservoirIds := b.allReservoirIds + [dest])]);
    UncapturedNegative(moved, cfg, id, dep, dest, date, "movement", TestDraw(false, 0));
    TestBadger(moved, cfg, id, dep, dest, false, date, "movement", TestDraw(false, 0)).value
  }

  /** The badgers of `ids` moved one after another. */
  function RelocateBadgers(s: State, cfg: Config, ids: seq<string>, dep: string, dest: string, date: int): (r: State)
    requires forall i :: 0 <= i < |ids| ==> ids[i] in s.badgers
    requires dep in s.reservoirInfections && dest in s.reservoirInfections
    ensures r == s.(badgers := r.badgers, reservoirInfections := r.reservoirInfections, badgerTests := r.badgerTests)
    ensures r.badgers.Keys == s.badgers.Keys && r.reservoirInfections.Keys == s.reservoirInfections.Keys
    decreases |ids|
  {
    if |ids| == 0 then s
    else RelocateBadgers(RelocateBadger(s, cfg, ids[0], dep, dest, date), cfg, ids[1..], dep, dest, date)
  }

  /** After a move no sett list repeats a badger. */
  lemma RelocateBadgerDistinct(s: State, cfg: Config, id: string, dep: string, dest: string, date: int)
    requires BadgersListed(s) && id in s.badgers && s.badgers[id].reservoirId == dep && dest in s.reservoirInfections
    ensures dep in s.reservoirInfections
    ensures var r := RelocateBadger(s, cfg, id, dep, dest, date);
      forall u :: u in r.reservoirInfections ==> Distinct(r.reservoirInfections[u])
  {
    var list := s.reservoirInfections[dep];
    RemoveFirstDistinct(list, id);
    var prior := s.reservoirInfections[dep := RemoveFirst(list, id)][dest];
    assert id !in prior;
    forall a, b | 0 <= a < b < |prior| + 1 ensures (prior + [id])[a] != (prior + [id])[b] {
      if b == |prior| {
        assert (prior + [id])[a] == prior[a];
      }
    }
  }

  /** After a move every listed badger is live and in the sett that lists it. */
  lemma RelocateBadgerEntries(s: State, cfg: Config, id: string, dep: string, dest: string, date: int)
    requires BadgersListed(s) && id in s.badgers && s.badgers[id].reservoirId == dep && dest in s.reservoirInfections
    ensures dep in s.reservoirInfections
    ensures var r := RelocateBadger(s, cfg, id, dep, dest, date);
      forall u, i :: u in r.reservoirInfections && 0 <= i < |r.reservoirInfections[u]| ==>
        r.reservoirInfections[u][i] in r.badgers && r.badgers[r.reservoirInfections[u][i]].reservoirId == u
  {
    var r := RelocateBadger(s, cfg, id, dep, dest, date);
    var list := s.reservoirInfections[dep];
    RemoveFirstDistinct(list, id);
    var lists := s.reservoirInfections[dep := RemoveFirst(list, id)];
    forall u, i | u in r.reservoirInfections && 0 <= i < |r.reservoirInfections[u]|
      ensures r.reservoirInfections[u][i] in r.badgers && r.badgers[r.reservoirInfections[u][i]].reservoirId == u
    {
      var x := r.reservoirInfections[u][i];
      if u == dest && i == |lists[dest]| {
        assert x == id;
      } else {
        if u == dest {
          assert x == lists[dest][i];
        }
        assert x in lists[u];
        if u == dep {
          assert x in RemoveFirst(list, id);
          var j :| 0 <= j < |list| && list[j] == x;
        } else {
          var j :| 0 <= j < |s.reservoirInfections[u]| && s.reservoirInfections[u][j] == x;
        }
      }
    }
  }

  /** After a move every live badger is listed in its sett. */
  lemma RelocateBadgerCovers(s: State, cfg: Config, id: string, dep: string, dest: string, date: int)
    requires BadgersListed(s) && id in s.badgers && s.badgers[id].reservoirId == dep && dest in s.reservoirInfections
    ensures dep in s.reservoirInfections
    ensures var r := RelocateBadger(s, cfg, id, dep, dest, date);
      forall k :: k in r.badgers ==>
        r.badgers[k].reservoirId in r.reservoirInfections && k in r.reservoirInfections[r.badgers[k].reservoirId]
  {
    var r := RelocateBadger(s, cfg, id, dep, dest, date);
    RemoveFirstDistinct(s.reservoirInfections[dep], id);
    var lists := s.reservoirInfections[dep := RemoveFirst(s.reservoirInfections[dep], id)];
    forall k | k in r.badgers
      ensures r.badgers[k].reservoirId in r.reservoirInfections && k in r.reservoirInfections[r.badgers[k].reservoirId]
    {
      if k == id {
        assert r.reservoirInfections[dest][|lists[dest]|] == id;
      } else {
        var u := s.badgers[k].reservoirId;
        assert k in lists[u];
        var j :| 0 <= j < |lists[u]| && lists[u][j] == k;
        if u == dest {
          assert r.reservoirInfections[dest][j] == k;
        }
      }
    }
  }

  /** Moving a badger to a known sett keeps the bookkeeping sound and moves no animal in or
      out. */
  lemma RelocateBadgerSound(s: State, cfg: Config, id: string, dep: string, dest: string, date: int)
    requires Sound(s) && id in s.badgers && s.badgers[id].reservoirId == dep && dest in s.reservoirs
    ensures dep in s.reservoirInfections && dest in s.reservoirInfections
    ensures Sound(RelocateBadger(s, cfg, id, dep, dest, date))
    ensures Conserves(s, RelocateBadger(s, cfg, id, dep, dest, date))
  {
    RelocateBadgerDistinct(s, cfg, id, dep, dest, date);
    RelocateBadgerEntries(s, cfg, id, dep, dest, date);
    RelocateBadgerCovers(s, cfg, id, dep, dest, date);
    RelocateBadgerLocated(s, cfg, id, dep, dest, date);
  }

  lemma RelocateBadgerLocated(s: State, cfg: Config, id: string, dep: string, dest: string, date: int)
    requires Located(s) && Apart(s) && id in s.badgers && dep in s.reservoirs && dest in s.reservoirs
    ensures var r := RelocateBadger(s, cfg, id, dep, dest, date);
      Located(r) && Apart(r) && Conserves(s, r)
  {
  }

  /** After the first badger of `ids` moves, the rest are still distinct, live and in the
      departure sett, and every other badger is unchanged. */
  lemma RelocateBadgerKeepsOthers(s: State, cfg: Config, ids: seq<string>, dep: string, dest: string, date: int)
    requires Sound(s) && Distinct(ids) && |ids| > 0 && InSett(s, dep, ids) && dest in s.reservoirs
    ensures dep in s.reservoirInfections
    ensures var t := RelocateBadger(s, cfg, ids[0], dep, dest, date);
      && Distinct(ids[1..]) && InSett(t, dep, ids[1..])
      && forall k :: k in s.badgers && k != ids[0] ==> t.badgers[k] == s.badgers[k]
  {
    assert s.badgers[ids[0]].reservoirId == dep;
    var tail := ids[1..];
    assert forall i :: 0 <= i < |tail| ==> tail[i] == ids[i + 1] && tail[i] != ids[0];
  }

  /** Moving the badgers of `ids`, all in `dep`, keeps the bookkeeping sound. */
  lemma {:induction false} RelocateBadgersSound(s: State, cfg: Config, ids: seq<string>, dep: string, dest: string,
                                                date: int)
    requires Sound(s) && Distinct(ids) && InSett(s, dep, ids) && dep in s.reservoirs && dest in s.reservoirs
    ensures dep in s.reservoirInfections && dest in s.reservoirInfections
    ensures Sound(RelocateBadgers(s, cfg, ids, dep, dest, date))
    ensures Conserves(s, RelocateBadgers(s, cfg, ids, dep, dest, date))
    decreases |ids|
  {
    if |ids| > 0 {
      RelocateBadgerSound(s, cfg, ids[0], dep, dest, date);
      RelocateBadgerKeepsOthers(s, cfg, ids, dep, dest, date);
      var t := RelocateBadger(s, cfg, ids[0], dep, dest, date);
      RelocateBadgersSound(t, cfg, ids[1..], dep, dest, date);
      ConservesTransitive(s, t, RelocateBadgers(t, cfg, ids[1..], dep, dest, date));
    }
  }

  /** Each moved badger is now in the destination sett with the destination appended to its
      sett history; every other badger is unchanged. */
  lemma {:induction false} RelocateBadgersMoves(s: State, cfg: Config, ids: seq<string>, dep: string, dest: string,
                                                date: int)
    requires Distinct(ids) && (forall i :: 0 <= i < |ids| ==> ids[i] in s.badgers)
    requires dep in s.reservoirInfections && dest in s.reservoirInfections
    ensures var r := RelocateBadgers(s, cfg, ids, dep, dest, date);
      forall i :: 0 <= i < |ids| ==>
        r.badgers[ids[i]] == s.badgers[ids[i]].(reservoirId := dest,
                                                 allReservoirIds := s.badgers[ids[i]].allReservoirIds + [dest])
    ensures var r := RelocateBadgers(s, cfg, ids, dep, dest, date);
      forall k :: k in s.badgers && k !in ids ==> r.badgers[k] == s.badgers[k]
    decreases |ids|
  {
    if |ids| > 0 {
      var t := RelocateBadger(s, cfg, ids[0], dep, dest, date);
      var tail := ids[1..];
      DistinctTail(ids);
      assert forall i :: 0 <= i < |tail| ==> tail[i] == ids[i + 1];
      RelocateBadgersMoves(t, cfg, tail, dep, dest, date);
    }
  }

  /** Between two different setts the moved badgers are appended, in order, to the
      destination's list. */
  lemma {:induction false} RelocateBadgersLists(s: State, cfg: Config, ids: seq<string>, dep: string, dest: string,
                                                date: int)
    requires (forall i :: 0 <= i < |ids| ==> ids[i] in s.badgers)
    requires dep in s.reservoirInfections && dest in s.reservoirInfections && dep != dest
    ensures RelocateBadgers(s, cfg, ids, dep, dest, date).reservoirInfections[dest] == s.reservoirInfections[dest] + ids
    decreases |ids|
  {
    if |ids| > 0 {
      var t := RelocateBadger(s, cfg, ids[0], dep, dest, date);
      assert forall i :: 0 <= i < |ids| - 1 ==> ids[1..][i] == ids[i + 1];
      RelocateBadgersLists(t, cfg, ids[1..], dep, dest, date);
      assert ids == [ids[0]] + ids[1..];
      AppendAssociative(s.reservoirInfections[dest], [ids[0]], ids[1..]);
    }
  }

  /** Setts other than the two keep their lists. */
  lemma {:induction false} RelocateBadgersOthers(s: State, cfg: Config, ids: seq<string>, dep: string, dest: string,
                                                 date: int)
    requires (forall i :: 0 <= i < |ids| ==> ids[i] in s.badgers)
    requires dep in s.reservoirInfections && dest in s.reservoirInfections && dep != dest
    ensures var r := RelocateBadgers(s, cfg, ids, dep, dest, date);
      forall u :: u in s.reservoirInfections && u != dep && u != dest ==>
        u in r.reservoirInfections && r.reservoirInfections[u] == s.reservoirInfections[u]
    decreases |ids|
  {
    if |ids| > 0 {
      var t := RelocateBadger(s, cfg, ids[0], dep, dest, date);
      assert forall i :: 0 <= i < |ids| - 1 ==> ids[1..][i] == ids[i + 1];
      RelocateBadgersOthers(t, cfg, ids[1..], dep, dest, date);
    }
  }

  /** Moving one listed badger between two different setts takes it off the departure list
      and keeps the other badgers of that list. */
  lemma RelocateBadgerDeparture(s: State, cfg: Config, id: string, dep: string, dest: string, date: int,
                                others: seq<string>)
    requires id in s.badgers && dep in s.reservoirInfections && dest in s.reservoirInfections && dep != dest
    requires id in s.reservoirInfections[dep] && id !in others
    requires forall i :: 0 <= i < |others| ==> others[i] in s.reservoirInfections[dep]
    ensures var r := RelocateBadger(s, cfg, id, dep, dest, date).reservoirInfections[dep];
      && multiset(r) == multiset(s.reservoirInfections[dep]) - multiset{id}
      && forall i :: 0 <= i < |others| ==> others[i] in r
  {
    var r := RelocateBadger(s, cfg, id, dep, dest, date).reservoirInfections[dep];
    assert r == RemoveFirst(s.reservoirInfections[dep], id);
    forall i | 0 <= i < |others| ensures others[i] in r {
      assert others[i] in multiset(s.reservoirInfections[dep]);
      assert others[i] != id;
      assert others[i] in multiset(r);
    }
  }

  /** Between two different setts the departure list loses exactly the moved badgers. */
  lemma {:induction false} RelocateBadgersDeparture(s: State, cfg: Config, ids: seq<string>, dep: string,
                                                    dest: string, date: int)
    requires Distinct(ids) && (forall i :: 0 <= i < |ids| ==> ids[i] in s.badgers)
    requires dep in s.reservoirInfections && dest in s.reservoirInfections && dep != dest
    requires forall i :: 0 <= i < |ids| ==> ids[i] in s.reservoirInfections[dep]
    ensures multiset(RelocateBadgers(s, cfg, ids, dep, dest, date).reservoirInfections[dep])
         == multiset(s.reservoirInfections[dep]) - multiset(ids)
    decreases |ids|
  {
    if |ids| > 0 {
      var tail := ids[1..];
      DistinctTail(ids);
      RelocateBadgerDeparture(s, cfg, ids[0], dep, dest, date, tail);
      var t := RelocateBadger(s, cfg, ids[0], dep, dest, date);
      RelocateBadgersDeparture(t, cfg, tail, dep, dest, date);
      assert ids == [ids[0]] + tail;
      assert multiset(ids) == multiset{ids[0]} + multiset(tail);
    }
  }

  /** The records the movement tests of `ids` write: uncaptured, negative, naming both setts. */
  function MovementTests(ids: seq<string>, dep: string, dest: string, date: int): (r: seq<RecordBadger>)
    ensures |r| == |ids|
    ensures forall i :: 0 <= i < |ids| ==>
      r[i].animalId == ids[i] && !r[i].capture && !r[i].positive && r[i].event == "movement"
  {
    if |ids| == 0 then []
    else [BadgerTestRecord(date, ids[0], dep, dest, false, false, "movement")] + MovementTests(ids[1..], dep, dest, date)
  }

  /** Each moved badger leaves one movement test record, in the order the badgers moved. */
  lemma {:induction false} RelocateBadgersRecords(s: State, cfg: Config, ids: seq<string>, dep: string, dest: string,
                                                  date: int)
    requires (forall i :: 0 <= i < |ids| ==> ids[i] in s.badgers)
    requires dep in s.reservoirInfections && dest in s.reservoirInfections
    ensures RelocateBadgers(s, cfg, ids, dep, dest, date).badgerTests == s.badgerTests + MovementTests(ids, dep, dest, date)
    decreases |ids|
  {
    if |ids| > 0 {
      var t := RelocateBadger(s, cfg, ids[0], dep, dest, date);
      RelocateBadgersRecords(t, cfg, ids[1..], dep, dest, date);
      AppendAssociative(s.badgerTests, [BadgerTestRecord(date, ids[0], dep, dest, false, false, "movement")],
                        MovementTests(ids[1..], dep, dest, date));
    }
  }

  // ---------------------------------------------------------------------------
  // Sett sizes after a move
  // ---------------------------------------------------------------------------

  /** The sett sizes after infected badgers have moved: the rule for herds, applied to setts. */
  function AdjustSetts(setts: map<string, Reservoir>, dep: string, dest: string, batch: int, flex: bool,
                       infected: int): (r: map<string, Reservoir>)
    requires dep in setts && dest in setts
    ensures r.Keys == setts.Keys
    ensures forall u :: u in setts ==> r[u].(reservoirSize := setts[u].reservoirSize) == setts[u]
    ensures forall u :: u in setts && u != dep && u != dest ==> r[u] == setts[u]
    ensures flex && dep != dest ==>
      && r[dep].reservoirSize == setts[dep].reservoirSize - batch
      && r[dest].reservoirSize == setts[dest].reservoirSize + batch
    ensures flex && dep == dest ==> r[dep] == setts[dep]
    ensures !flex ==> dep == dest || r[dep] == setts[dep]
    ensures !flex ==>
      && r[dest].reservoirSize >= infected
      && r[dest].reservoirSize >= setts[dest].reservoirSize
      && (r[dest].reservoirSize == setts[dest].reservoirSize || r[dest].reservoirSize == infected)
  {
    if flex then
      var shrunk := setts[dep := ChangeReservoirSize(setts[dep], -batch)];
      ReservoirSizeInverse(setts[dep], -batch);
      shrunk[dest := ChangeReservoirSize(shrunk[dest], batch)]
    else if infected > setts[dest].reservoirSize then
      setts[dest := setts[dest].(reservoirSize := infected)]
    else
      setts
  }

  // ---------------------------------------------------------------------------
  // One badger movement
  // ---------------------------------------------------------------------------

  /** The batch size the draw gives the chosen departure sett. */
  function SettBatch(s: State, moves: seq<Move>, d: MoveDraw): int
    requires |moves| > 0 && Chosen(moves, d).0 in s.reservoirs
  {
    BatchSize(s.reservoirs[Chosen(moves, d).0].offMovement, d)
  }

  /** A badger iteration goes ahead whenever the departure sett is known and the batch
      proceeds; restrictions play no part. */
  predicate Sends(s: State, cfg: Config, moves: seq<Move>, d: MoveDraw)
  {
    && |moves| > 0
    && Chosen(moves, d).0 in s.reservoirs
    && Proceeds(SettBatch(s, moves, d), s.reservoirs[Chosen(moves, d).0].reservoirSize, cfg.reservoirSizeFlex)
  }

  /** `k` infected badgers selected from a sett's list: no badger twice, each live and in that
      sett. */
  function SettSelection(s: State, dep: string, k: nat, pick: nat -> nat): (ids: seq<string>)
    requires BadgersListed(s) && dep in s.reservoirInfections && k <= |s.reservoirInfections[dep]|
    ensures |ids| == k && Distinct(ids) && InSett(s, dep, ids)
    ensures forall i :: 0 <= i < k ==> ids[i] in s.reservoirInfections[dep]
  {
    var list := s.reservoirInfections[dep];
    SelectManyDistinct(list, k, pick, 0);
    var ids := SelectMany(list, k, pick, 0);
    forall i | 0 <= i < |ids| ensures ids[i] in s.badgers && s.badgers[ids[i]].reservoirId == dep {
      assert ids[i] in list;
      var j :| 0 <= j < |list| && list[j] == ids[i];
    }
    ids
  }

  /** The selected badgers move, the sett sizes are adjusted and the badgers are added to the
      count of infected badgers moved. */
  function DeliverBadgers(u: State, cfg: Config, ids: seq<string>, dep: string, dest: string, batch: int,
                          date: int): (r: State)
    requires forall i :: 0 <= i < |ids| ==> ids[i] in u.badgers
    requires dep in u.reservoirs && dest in u.reservoirs
    requires dep in u.reservoirInfections && dest in u.reservoirInfections
  {
    var v := RelocateBadgers(u, cfg, ids, dep, dest, date);
    v.(reservoirs := AdjustSetts(v.reservoirs, dep, dest, batch, cfg.reservoirSizeFlex, |v.reservoirInfections[dest]|),
       infectedBadgersMoved := v.infectedBadgersMoved + |ids|)
  }

  /** Changing sett sizes and tallies alone keeps the bookkeeping sound. */
  lemma ResizeSettsSound(v: State, r: State)
    requires Sound(v)
    requires r == v.(reservoirs := r.reservoirs, infectedBadgersMoved := r.infectedBadgersMoved)
    requires r.reservoirs.Keys == v.reservoirs.Keys
    requires forall u :: u in v.reservoirs ==> r.reservoirs[u].connectedFarms == v.reservoirs[u].connectedFarms
    ensures Sound(r) && Conserves(v, r)
  {
  }

  /** The movement record of a badger batch with `k` infected badgers. The destination is
      only written down, never looked up. */
  function BadgerRecord(s: State, moves: seq<Move>, d: MoveDraw, k: nat, time: int): RecordMovement
    requires |moves| > 0 && Chosen(moves, d).0 in s.reservoirs
  {
    var (dep, dest) := Chosen(moves, d);
    NewRecordMovement(time, "badgers", dep, dest, s.reservoirs[dep].reservoirSize, SettBatch(s, moves, d),
                      ReservoirInfected(s, dep), k, d.choice % |moves|, -1.0, "")
  }

  /** A batch that goes ahead with `k` infected badgers: it is recorded, and its infected
      badgers (if any) are delivered. Looking up an unknown departure sett is a null
      dereference, and so is delivering badgers to an unknown destination. */
  function BadgerBatch(s: State, cfg: Config, moves: seq<Move>, d: MoveDraw, k: nat, time: int): (r: Result<Step>)
    requires Sound(s) && |moves| > 0
    requires k <= ReservoirInfected(s, Chosen(moves, d).0)
    ensures r.Err? <==> Chosen(moves, d).0 !in s.reservoirs || (k > 0 && Chosen(moves, d).1 !in s.reservoirs)
    ensures r.Ok? ==>
      && r.value.sampled == k && r.value.infectedMoved == k && r.value.detected == 0
      && r.value.moved == SettBatch(s, moves, d)
  {
    var (dep, dest) := Chosen(moves, d);
    if dep !in s.reservoirs then Err("null pointer: unknown departure sett")
    else
      var batch := SettBatch(s, moves, d);
      var s1 := s.(movements := s.movements + [BadgerRecord(s, moves, d, k, time)]);
      if k == 0 then Ok(Step(s1, batch, 0, 0, 0))
      else if dest !in s.reservoirs then Err("null pointer: unknown destination sett")
      else Ok(Step(DeliverBadgers(s1, cfg, SettSelection(s, dep, k, d.pick), dep, dest, batch, time), batch, k, k, 0))
  }

  /** One iteration of `doBadgerMovements`. A batch that goes ahead is recorded with its size
      and infected count; its infected badgers (if any) move, each leaving a "movement" test
      record, and the sett sizes are adjusted. An empty list of known movements is an error,
      as is a hypergeometric draw the distribution refuses; an unknown departure sett is a
      null dereference whether or not the batch would proceed. */
  function BadgerMove(s: State, cfg: Config, moves: seq<Move>, d: MoveDraw, time: int): (r: Result<Step>)
    requires Sound(s)
    ensures |moves| == 0 ==> r.Err?
    ensures |moves| > 0 && Chosen(moves, d).0 !in s.reservoirs ==> r.Err?
    ensures |moves| > 0 && Chosen(moves, d).0 in s.reservoirs && !Sends(s, cfg, moves, d) ==>
      r == Ok(Step(s, 0, 0, 0, 0))
    ensures r.Ok? ==> r.value.detected == 0 && r.value.infectedMoved == r.value.sampled
    ensures r.Ok? && |moves| > 0 ==> r.value.sampled <= ReservoirInfected(s, Chosen(moves, d).0)
    ensures r.Ok? && Sends(s, cfg, moves, d) ==> r.value.moved == SettBatch(s, moves, d)
    ensures r.Ok? ==> r.value.moved >= 0
  {
    if |moves| == 0 then Err("no known badger movements")
    else if Chosen(moves, d).0 !in s.reservoirs then Err("null pointer: unknown departure sett")
    else if !Sends(s, cfg, moves, d) then Ok(Step(s, 0, 0, 0, 0))
    else
      var dep := Chosen(moves, d).0;
      var k :- Hyper(s.reservoirs[dep].reservoirSize, SettBatch(s, moves, d), ReservoirInfected(s, dep), d.hyper);
      BadgerBatch(s, cfg, moves, d, k, time)
  }

  lemma DeliverBadgersSound(u: State, cfg: Config, ids: seq<string>, dep: string, dest: string, batch: int,
                            date: int)
    requires Sound(u) && Distinct(ids) && InSett(u, dep, ids) && dep in u.reservoirs && dest in u.reservoirs
    ensures dep in u.reservoirInfections && dest in u.reservoirInfections
    ensures var r := DeliverBadgers(u, cfg, ids, dep, dest, batch, date);
      Sound(r) && Conserves(u, r)
  {
    RelocateBadgersSound(u, cfg, ids, dep, dest, date);
    var v := RelocateBadgers(u, cfg, ids, dep, dest, date);
    ResizeSettsSound(v, DeliverBadgers(u, cfg, ids, dep, dest, batch, date));
    ConservesTransitive(u, v, DeliverBadgers(u, cfg, ids, dep, dest, batch, date));
  }

  lemma BadgerBatchSound(s: State, cfg: Config, moves: seq<Move>, d: MoveDraw, k: nat, time: int)
    requires Sound(s) && |moves| > 0
    requires k <= ReservoirInfected(s, Chosen(moves, d).0)
    ensures var r := BadgerBatch(s, cfg, moves, d, k, time);
      r.Ok? ==> Sound(r.value.state) && Conserves(s, r.value.state)
  {
    var (dep, dest) := Chosen(moves, d);
    if BadgerBatch(s, cfg, moves, d, k, time).Ok? {
      var s1 := s.(movements := s.movements + [BadgerRecord(s, moves, d, k, time)]);
      SameAnimalsSound(s, s1);
      if k > 0 {
        var ids := SettSelection(s, dep, k, d.pick);
        DeliverBadgersSound(s1, cfg, ids, dep, dest, SettBatch(s, moves, d), time);
        ConservesTransitive(s, s1, BadgerBatch(s, cfg, moves, d, k, time).value.state);
      }
    }
  }

  /** A badger movement keeps the bookkeeping sound and moves no animal in or out. */
  lemma BadgerMoveSound(s: State, cfg: Config, moves: seq<Move>, d: MoveDraw, time: int)
    requires Sound(s)
    ensures var r := BadgerMove(s, cfg, moves, d, time);
      r.Ok? ==> Sound(r.value.state) && Conserves(s, r.value.state)
  {
    var r := BadgerMove(s, cfg, moves, d, time);
    if r.Ok? && |moves| > 0 && Sends(s, cfg, moves, d) {
      var dep := Chosen(moves, d).0;
      var k := Hyper(s.reservoirs[dep].reservoirSize, SettBatch(s, moves, d), ReservoirInfected(s, dep), d.hyper).value;
      BadgerBatchSound(s, cfg, moves, d, k, time);
    }
  }

  /** A badger batch touches only setts, badgers, badger records, the movement record and the
      tally of badgers moved: no herd, no cow and no restriction. With no infected badger in
      the batch only the movement record is written. */
  lemma BadgerBatchFrame(s: State, cfg: Config, moves: seq<Move>, d: MoveDraw, k: nat, time: int)
    requires Sound(s) && |moves| > 0
    requires k <= ReservoirInfected(s, Chosen(moves, d).0)
    ensures var r := BadgerBatch(s, cfg, moves, d, k, time);
      r.Ok? ==>
        var u := r.value.state;
        && u == s.(reservoirs := u.reservoirs, reservoirInfections := u.reservoirInfections, badgers := u.badgers,
                   badgerTests := u.badgerTests, movements := u.movements, infectedBadgersMoved := u.infectedBadgersMoved)
        && u.movements == s.movements + [BadgerRecord(s, moves, d, k, time)]
        && (k == 0 ==> u == s.(movements := u.movements))
  {
    var (dep, dest) := Chosen(moves, d);
    if dep in s.reservoirs && k > 0 && dest in s.reservoirs {
      var s1 := s.(movements := s.movements + [BadgerRecord(s, moves, d, k, time)]);
      var ids := SettSelection(s, dep, k, d.pick);
      assert BadgerBatch(s, cfg, moves, d, k, time).value.state
          == DeliverBadgers(s1, cfg, ids, dep, dest, SettBatch(s, moves, d), time);
    }
  }

  /** Between two different setts the selected badgers join the end of the destination list
      and leave the departure list; other setts keep their lists. */
  lemma BadgerBatchLists(s: State, cfg: Config, moves: seq<Move>, d: MoveDraw, k: nat, time: int)
    requires Sound(s) && |moves| > 0
    requires 0 < k <= ReservoirInfected(s, Chosen(moves, d).0) && Chosen(moves, d).0 != Chosen(moves, d).1
    ensures Chosen(moves, d).0 in s.reservoirInfections
    ensures var (dep, dest) := Chosen(moves, d);
      var ids := SettSelection(s, dep, k, d.pick);
      var r := BadgerBatch(s, cfg, moves, d, k, time);
      r.Ok? ==>
        && dest in s.reservoirInfections
        && r.value.state.reservoirInfections[dest] == s.reservoirInfections[dest] + ids
        && multiset(r.value.state.reservoirInfections[dep]) == multiset(s.reservoirInfections[dep]) - multiset(ids)
        && forall u :: u in s.reservoirInfections && u != dep && u != dest ==>
             r.value.state.reservoirInfections[u] == s.reservoirInfections[u]
  {
    var (dep, dest) := Chosen(moves, d);
    var ids := SettSelection(s, dep, k, d.pick);
    var s1 := s.(movements := s.movements + [BadgerRecord(s, moves, d, k, time)]);
    if dest in s.reservoirs {
      RelocateBadgersLists(s1, cfg, ids, dep, dest, time);
      RelocateBadgersOthers(s1, cfg, ids, dep, dest, time);
      RelocateBadgersDeparture(s1, cfg, ids, dep, dest, time);
    }
  }

  /** Each selected badger now lives in the destination sett with the destination appended to
      its history, and left a movement test record; other badgers are unchanged. */
  lemma BadgerBatchBadgers(s: State, cfg: Config, moves: seq<Move>, d: MoveDraw, k: nat, time: int)
    requires Sound(s) && |moves| > 0
    requires 0 < k <= ReservoirInfected(s, Chosen(moves, d).0)
    ensures Chosen(moves, d).0 in s.reservoirInfections
    ensures var (dep, dest) := Chosen(moves, d);
      var ids := SettSelection(s, dep, k, d.pick);
      var r := BadgerBatch(s, cfg, moves, d, k, time);
      r.Ok? ==>
        var u := r.value.state;
        && (forall i :: 0 <= i < k ==>
              u.badgers[ids[i]] == s.badgers[ids[i]].(reservoirId := dest,
                                                       allReservoirIds := s.badgers[ids[i]].allReservoirIds + [dest]))
        && (forall b :: b in s.badgers && b !in ids ==> u.badgers[b] == s.badgers[b])
        && u.badgerTests == s.badgerTests + MovementTests(ids, dep, dest, time)
        && u.infectedBadgersMoved == s.infectedBadgersMoved + k
  {
    var (dep, dest) := Chosen(moves, d);
    var ids := SettSelection(s, dep, k, d.pick);
    var s1 := s.(movements := s.movements + [BadgerRecord(s, moves, d, k, time)]);
    if dest in s.reservoirs {
      RelocateBadgersMoves(s1, cfg, ids, dep, dest, time);
      RelocateBadgersRecords(s1, cfg, ids, dep, dest, time);
    }
  }

  /** With flexible sizes the batch passes from one sett to the other; with fixed sizes only
      the destination can grow, to hold its infected badgers. */
  lemma BadgerBatchSizes(s: State, cfg: Config, moves: seq<Move>, d: MoveDraw, k: nat, time: int)
    requires Sound(s) && |moves| > 0
    requires 0 < k <= ReservoirInfected(s, Chosen(moves, d).0) && Chosen(moves, d).0 != Chosen(moves, d).1
    ensures var (dep, dest) := Chosen(moves, d);
      var r := BadgerBatch(s, cfg, moves, d, k, time);
      r.Ok? ==>
        var u := r.value.state;
        && dep in s.reservoirs && dest in s.reservoirs
        && (cfg.reservoirSizeFlex ==>
              && u.reservoirs[dep].reservoirSize == s.reservoirs[dep].reservoirSize - SettBatch(s, moves, d)
              && u.reservoirs[dest].reservoirSize == s.reservoirs[dest].reservoirSize + SettBatch(s, moves, d))
        && (!cfg.reservoirSizeFlex ==>
              && u.reservoirs[dep] == s.reservoirs[dep]
              && u.reservoirs[dest].reservoirSize >= |u.reservoirInfections[dest]|
              && u.reservoirs[dest].reservoirSize >= s.reservoirs[dest].reservoirSize)
  {
  }

  // ---------------------------------------------------------------------------
  // The badger movement loop
  // ---------------------------------------------------------------------------

  /** A badger movement keeps the setts known. */
  lemma BadgerMoveKeys(s: State, cfg: Config, moves: seq<Move>, d: MoveDraw, time: int)
    requires Sound(s)
    ensures var r := BadgerMove(s, cfg, moves, d, time);
      r.Ok? ==> r.value.state.reservoirs.Keys == s.reservoirs.Keys
  {
    var r := BadgerMove(s, cfg, moves, d, time);
    if r.Ok? && |moves| > 0 && Sends(s, cfg, moves, d) {
      var dep := Chosen(moves, d).0;
      var k := Hyper(s.reservoirs[dep].reservoirSize, SettBatch(s, moves, d), ReservoirInfected(s, dep), d.hyper).value;
      BadgerBatchFrame(s, cfg, moves, d, k, time);
      if k > 0 {
        BadgerBatchBadgers(s, cfg, moves, d, k, time);
      }
    }
  }

  /** A badger movement adds the infected badgers it moves to the tally. */
  lemma BadgerMoveTally(s: State, cfg: Config, moves: seq<Move>, d: MoveDraw, time: int)
    requires Sound(s)
    ensures var r := BadgerMove(s, cfg, moves, d, time);
      r.Ok? ==> r.value.state.infectedBadgersMoved == s.infectedBadgersMoved + r.value.infectedMoved
  {
    var r := BadgerMove(s, cfg, moves, d, time);
    if r.Ok? && |moves| > 0 && Sends(s, cfg, moves, d) {
      var dep := Chosen(moves, d).0;
      var k := Hyper(s.reservoirs[dep].reservoirSize, SettBatch(s, moves, d), ReservoirInfected(s, dep), d.hyper).value;
      BadgerBatchFrame(s, cfg, moves, d, k, time);
      if k > 0 {
        BadgerBatchBadgers(s, cfg, moves, d, k, time);
      }
    }
  }

  /** `doBadgerMovements` up to the badger deaths that follow it: iterations run, the i-th
      with `draws[i]`, until at least `quota` badgers have moved. No restriction holds a badger
      movement back, but a loop whose batches never proceed would not end; running out of
      draws before the quota is met stands for that and is an error. */
  method BadgerMovements(s: State, cfg: Config, moves: seq<Move>, quota: int, draws: seq<MoveDraw>, time: int)
    returns (r: Result<Run>)
    requires Sound(s)
    ensures r.Ok? ==> r.value.movedSoFar >= quota
    ensures r.Ok? ==> Sound(r.value.state) && Conserves(s, r.value.state)
    ensures r.Ok? ==> r.value.state.infectedBadgersMoved == s.infectedBadgersMoved + r.value.infectedMoved
    ensures r.Ok? ==> r.value.state.reservoirs.Keys == s.reservoirs.Keys
    ensures quota <= 0 ==> r == Ok(Run(s, 0, 0))
    ensures quota > 0 && |moves| == 0 ==> r.Err?
  {
    var u := s;
    var moved := 0;
    var infected: nat := 0;
    var i := 0;
    while moved < quota
      invariant 0 <= i <= |draws|
      invariant Sound(u) && Conserves(s, u) && u.reservoirs.Keys == s.reservoirs.Keys
      invariant u.infectedBadgersMoved == s.infectedBadgersMoved + infected
      invariant quota <= 0 ==> u == s && moved == 0 && infected == 0
      invariant |moves| == 0 ==> i == 0 && moved == 0
      decreases |draws| - i
    {
      if i == |draws| {
        return Err("the movement quota was not met");
      }
      var t := BadgerMove(u, cfg, moves, draws[i], time);
      if t.Err? {
        return Err(t.message);
      }
      BadgerMoveSound(u, cfg, moves, draws[i], time);
      BadgerMoveKeys(u, cfg, moves, draws[i], time);
      BadgerMoveTally(u, cfg, moves, draws[i], time);
      u, moved, infected := t.value.state, moved + t.value.moved, infected + t.value.infectedMoved;
      i := i + 1;
    }
    r := Ok(Run(u, moved, infected));
  }
}

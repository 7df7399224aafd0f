/** One iteration of the cattle and badger movement loops. A known movement (departure unit,
    destination unit) is picked, a batch size is drawn from the departure unit's off-movement
    distribution, and the number of infected animals in the batch is drawn; only infected
    animals are tracked. Cattle moves between restricted herds are skipped, and moved cattle
    are tested first: any reactor restricts the departure herd and cancels the move. Badger
    moves consult no restriction and their tests never react. */
module Movements {
  import opened Common
  import opened Units
  import opened Animals
  import opened Records
  import opened Settings
  import opened Scenario
  import opened Restrictions
  import opened Culling
  import opened Sampling

  /** A known movement: departure unit and destination unit. */
  type Move = (string, string)

  /** The draws behind one iteration: the index of the known movement, the batch size drawn
      from the departure unit's off-movement distribution (used only when it has bins), the
      hypergeometric draw, the selection of the infected animals, and the tests. */
  datatype MoveDraw = MoveDraw(choice: nat, batch: int, hyper: nat, pick: nat -> nat, tests: nat -> TestDraw)

  /** One iteration's outcome: the state, the animals added to the moved count, the infected
      animals drawn into the batch, those of them that changed unit, and the reactors found by
      pre-movement tests. */
  datatype Step = Step(state: State, moved: int, sampled: nat, infectedMoved: nat, detected: nat)

  function Chosen(moves: seq<Move>, d: MoveDraw): Move
    requires |moves| > 0
  {
    moves[d.choice % |moves|]
  }

  /** A unit without off-movement bins sends no batch. */
  function BatchSize(dist: Distribution, d: MoveDraw): int
  {
    if |dist| > 0 then d.batch else 0
  }

  /** A batch goes ahead only if it is positive and, with flexible unit sizes, leaves at least
      one animal behind. */
  predicate Proceeds(batch: int, population: int, flex: bool)
  {
    batch > 0 && (!flex || batch < population)
  }

  // ---------------------------------------------------------------------------
  // Relocating cattle
  // ---------------------------------------------------------------------------

  /** Moving one infected cow: it leaves the departure list, joins the end of the destination
      list, takes the destination as its farm and appends it to its farm history. */
  function RelocateCow(s: State, id: string, dep: string, dest: string): (r: State)
    requires id in s.cows && dep in s.farmInfections && dest in s.farmInfections
    ensures r == s.(cows := r.cows, farmInfections := r.farmInfections)
    ensures r.cows.Keys == s.cows.Keys && r.farmInfections.Keys == s.farmInfections.Keys
  {
    var lists := s.farmInfections[dep := RemoveFirst(s.farmInfections[dep], id)];
    var c := s.cows[id];
    s.(farmInfections := lists[dest := lists[dest] + [id]],
       cows := s.cows[id := c.(farmId := dest, allFarmIds := c.allFarmIds + [dest])])
  }

  /** The cows of `ids` moved one after another. */
  function RelocateCows(s: State, ids: seq<string>, dep: string, dest: string): (r: State)
    requires forall i :: 0 <= i < |ids| ==> ids[i] in s.cows
    requires dep in s.farmInfections && dest in s.farmInfections
    ensures r == s.(cows := r.cows, farmInfections := r.farmInfections)
    ensures r.cows.Keys == s.cows.Keys && r.farmInfections.Keys == s.farmInfections.Keys
    decreases |ids|
  {
    if |ids| == 0 then s
    else RelocateCows(RelocateCow(s, ids[0], dep, dest), ids[1..], dep, dest)
  }

  /** The moved cow was not yet on the destination list (unless it is moving within its own
      herd, where it has just been taken off). */
  lemma NotYetOnDestination(s: State, id: string, dep: string, dest: string)
    requires CowsListed(s) && id in s.cows && s.cows[id].farmId == dep && dest in s.farmInfections
    ensures dep in s.farmInfections
    ensures id !in s.farmInfections[dep := RemoveFirst(s.farmInfections[dep], id)][dest]
  {
    RemoveFirstDistinct(s.farmInfections[dep], id);
  }

  /** After a move no list repeats a cow. */
  lemma RelocateCowDistinct(s: State, id: string, dep: string, dest: string)
    requires CowsListed(s) && id in s.cows && s.cows[id].farmId == dep && dest in s.farmInfections
    ensures dep in s.farmInfections
    ensures forall f :: f in RelocateCow(s, id, dep, dest).farmInfections ==>
      Distinct(RelocateCow(s, id, dep, dest).farmInfections[f])
  {
    var r := RelocateCow(s, id, dep, dest);
    RemoveFirstDistinct(s.farmInfections[dep], id);
    NotYetOnDestination(s, id, dep, dest);
    var prior := s.farmInfections[dep := RemoveFirst(s.farmInfections[dep], id)][dest];
    forall a, b | 0 <= a < b < |prior| + 1 ensures (prior + [id])[a] != (prior + [id])[b] {
      if b == |prior| {
        assert (prior + [id])[a] == prior[a];
      }
    }
  }

  /** After a move every listed cow is live and on the herd that lists it. */
  lemma RelocateCowEntries(s: State, id: string, dep: string, dest: string)
    requires CowsListed(s) && id in s.cows && s.cows[id].farmId == dep && dest in s.farmInfections
    ensures dep in s.farmInfections
    ensures var r := RelocateCow(s, id, dep, dest);
      forall f, i :: f in r.farmInfections && 0 <= i < |r.farmInfections[f]| ==>
        r.farmInfections[f][i] in r.cows && r.cows[r.farmInfections[f][i]].farmId == f
  {
    var r := RelocateCow(s, id, dep, dest);
    var list := s.farmInfections[dep];
    RemoveFirstDistinct(list, id);
    var lists := s.farmInfections[dep := RemoveFirst(list, id)];
    forall f, i | f in r.farmInfections && 0 <= i < |r.farmInfections[f]|
      ensures r.farmInfections[f][i] in r.cows && r.cows[r.farmInfections[f][i]].farmId == f
    {
      var x := r.farmInfections[f][i];
      if f == dest && i == |lists[dest]| {
        assert x == id;
      } else {
        if f == dest {
          assert x == lists[dest][i];
        }
        assert x in lists[f];
        if f == dep {
          assert x in RemoveFirst(list, id);
          var j :| 0 <= j < |list| && list[j] == x;
        } else {
          var j :| 0 <= j < |s.farmInfections[f]| && s.farmInfections[f][j] == x;
        }
      }
    }
  }

  /** After a move every live cow is listed on its herd. */
  lemma RelocateCowCovers(s: State, id: string, dep: string, dest: string)
    requires CowsListed(s) && id in s.cows && s.cows[id].farmId == dep && dest in s.farmInfections
    ensures dep in s.farmInfections
    ensures var r := RelocateCow(s, id, dep, dest);
      forall k :: k in r.cows ==> r.cows[k].farmId in r.farmInfections && k in r.farmInfections[r.cows[k].farmId]
  {
    var r := RelocateCow(s, id, dep, dest);
    RemoveFirstDistinct(s.farmInfections[dep], id);
    var lists := s.farmInfections[dep := RemoveFirst(s.farmInfections[dep], id)];
    forall k | k in r.cows
      ensures r.cows[k].farmId in r.farmInfections && k in r.farmInfections[r.cows[k].farmId]
    {
      if k == id {
        assert r.farmInfections[dest][|lists[dest]|] == id;
      } else {
        var f := s.cows[k].farmId;
        assert k in lists[f];
        var j :| 0 <= j < |lists[f]| && lists[f][j] == k;
        if f == dest {
          assert r.farmInfections[dest][j] == k;
        }
      }
    }
  }

  /** Moving a cow listed on its herd keeps the lists in agreement with the live map. */
  lemma RelocateCowListed(s: State, id: string, dep: string, dest: string)
    requires CowsListed(s) && id in s.cows && s.cows[id].farmId == dep && dest in s.farmInfections
    ensures dep in s.farmInfections
    ensures CowsListed(RelocateCow(s, id, dep, dest))
  {
    RelocateCowDistinct(s, id, dep, dest);
    RelocateCowEntries(s, id, dep, dest);
    RelocateCowCovers(s, id, dep, dest);
  }

  /** Moving a cow to a known herd keeps the bookkeeping sound and moves no animal in or out. */
  lemma RelocateCowSound(s: State, id: string, dep: string, dest: string)
    requires Sound(s) && id in s.cows && s.cows[id].farmId == dep && dest in s.farms
    ensures dep in s.farmInfections && dest in s.farmInfections
    ensures Sound(RelocateCow(s, id, dep, dest)) && Conserves(s, RelocateCow(s, id, dep, dest))
  {
    RelocateCowListed(s, id, dep, dest);
    RelocateCowLocated(s, id, dep, dest);
    RelocateCowApart(s, id, dep, dest);
  }

  lemma RelocateCowLocated(s: State, id: string, dep: string, dest: string)
    requires Located(s) && id in s.cows && dep in s.farms && dest in s.farms
    ensures Located(RelocateCow(s, id, dep, dest))
  {
  }

  lemma RelocateCowApart(s: State, id: string, dep: string, dest: string)
    requires Apart(s) && id in s.cows && dep in s.farmInfections && dest in s.farmInfections
    ensures Apart(RelocateCow(s, id, dep, dest)) && Conserves(s, RelocateCow(s, id, dep, dest))
  {
  }

  /** Cows of `ids` all sit on `dep`. */
  lemma RelocateCowKeepsOthers(s: State, ids: seq<string>, dep: string, dest: string)
    requires Sound(s) && Distinct(ids) && |ids| > 0 && OnFarm(s, dep, ids) && dest in s.farms
    ensures dep in s.farmInfections
    ensures var t := RelocateCow(s, ids[0], dep, dest);
      && Distinct(ids[1..]) && OnFarm(t, dep, ids[1..])
      && forall k :: k in s.cows && k != ids[0] ==> t.cows[k] == s.cows[k]
  {
    assert s.cows[ids[0]].farmId == dep;
    var tail := ids[1..];
    assert forall i :: 0 <= i < |tail| ==> tail[i] == ids[i + 1] && tail[i] != ids[0];
  }

  /** Moving the cows of `ids`, all listed on `dep`, keeps the bookkeeping sound. */
  lemma {:induction false} RelocateCowsSound(s: State, ids: seq<string>, dep: string, dest: string)
    requires Sound(s) && Distinct(ids) && OnFarm(s, dep, ids) && dep in s.farms && dest in s.farms
    ensures dep in s.farmInfections && dest in s.farmInfections
    ensures Sound(RelocateCows(s, ids, dep, dest)) && Conserves(s, RelocateCows(s, ids, dep, dest))
    decreases |ids|
  {
    if |ids| > 0 {
      RelocateCowSound(s, ids[0], dep, dest);
      RelocateCowKeepsOthers(s, ids, dep, dest);
      var t := RelocateCow(s, ids[0], dep, dest);
      RelocateCowsSound(t, ids[1..], dep, dest);
      ConservesTransitive(s, t, RelocateCows(t, ids[1..], dep, dest));
    }
  }

  /** Each moved cow is now on the destination herd with the destination appended to its farm
      history; every other cow is unchanged. */
  lemma {:induction false} RelocateCowsMoves(s: State, ids: seq<string>, dep: string, dest: string)
    requires Distinct(ids) && (forall i :: 0 <= i < |ids| ==> ids[i] in s.cows)
    requires dep in s.farmInfections && dest in s.farmInfections
    ensures var r := RelocateCows(s, ids, dep, dest);
      forall i :: 0 <= i < |ids| ==>
        r.cows[ids[i]] == s.cows[ids[i]].(farmId := dest, allFarmIds := s.cows[ids[i]].allFarmIds + [dest])
    ensures var r := RelocateCows(s, ids, dep, dest);
      forall k :: k in s.cows && k !in ids ==> r.cows[k] == s.cows[k]
    decreases |ids|
  {
    if |ids| > 0 {
      var t := RelocateCow(s, ids[0], dep, dest);
      var tail := ids[1..];
      DistinctTail(ids);
      assert forall i :: 0 <= i < |tail| ==> tail[i] == ids[i + 1];
      RelocateCowsMoves(t, tail, dep, dest);
    }
  }

  /** Between two different herds the moved cows are appended, in order, to the destination's
      list. */
  lemma {:induction false} RelocateCowsLists(s: State, ids: seq<string>, dep: string, dest: string)
    requires (forall i :: 0 <= i < |ids| ==> ids[i] in s.cows)
    requires dep in s.farmInfections && dest in s.farmInfections && dep != dest
    ensures RelocateCows(s, ids, dep, dest).farmInfections[dest] == s.farmInfections[dest] + ids
    decreases |ids|
  {
    if |ids| > 0 {
      var t := RelocateCow(s, ids[0], dep, dest);
      assert forall i :: 0 <= i < |ids| - 1 ==> ids[1..][i] == ids[i + 1];
      RelocateCowsLists(t, ids[1..], dep, dest);
      assert ids == [ids[0]] + ids[1..];
      AppendAssociative(s.farmInfections[dest], [ids[0]], ids[1..]);
    }
  }

  /** Herds other than the two keep their lists. */
  lemma {:induction false} RelocateCowsOthers(s: State, ids: seq<string>, dep: string, dest: string)
    requires (forall i :: 0 <= i < |ids| ==> ids[i] in s.cows)
    requires dep in s.farmInfections && dest in s.farmInfections && dep != dest
    ensures var r := RelocateCows(s, ids, dep, dest);
      forall f :: f in s.farmInfections && f != dep && f != dest ==>
        f in r.farmInfections && r.farmInfections[f] == s.farmInfections[f]
    decreases |ids|
  {
    if |ids| > 0 {
      var t := RelocateCow(s, ids[0], dep, dest);
      assert forall i :: 0 <= i < |ids| - 1 ==> ids[1..][i] == ids[i + 1];
      RelocateCowsOthers(t, ids[1..], dep, dest);
    }
  }

  /** Moving one listed cow between two different herds takes it off the departure list and
      keeps the other cows of that list. */
  lemma RelocateCowDeparture(s: State, id: string, dep: string, dest: string, others: seq<string>)
    requires id in s.cows && dep in s.farmInfections && dest in s.farmInfections && dep != dest
    requires id in s.farmInfections[dep] && id !in others
    requires forall i :: 0 <= i < |others| ==> others[i] in s.farmInfections[dep]
    ensures var r := RelocateCow(s, id, dep, dest).farmInfections[dep];
      && multiset(r) == multiset(s.farmInfections[dep]) - multiset{id}
      && forall i :: 0 <= i < |others| ==> others[i] in r
  {
    var r := RelocateCow(s, id, dep, dest).farmInfections[dep];
    assert r == RemoveFirst(s.farmInfections[dep], id);
    forall i | 0 <= i < |others| ensures others[i] in r {
      assert others[i] in multiset(s.farmInfections[dep]);
      assert others[i] != id;
      assert others[i] in multiset(r);
    }
  }

  /** Between two different herds the departure list loses exactly the moved cows. */
  lemma {:induction false} RelocateCowsDeparture(s: State, ids: seq<string>, dep: string, dest: string)
    requires Distinct(ids) && (forall i :: 0 <= i < |ids| ==> ids[i] in s.cows)
    requires dep in s.farmInfections && dest in s.farmInfections && dep != dest
    requires forall i :: 0 <= i < |ids| ==> ids[i] in s.farmInfections[dep]
    ensures multiset(RelocateCows(s, ids, dep, dest).farmInfections[dep]) == multiset(s.farmInfections[dep]) - multiset(ids)
    decreases |ids|
  {
    if |ids| > 0 {
      var tail := ids[1..];
      DistinctTail(ids);
      RelocateCowDeparture(s, ids[0], dep, dest, tail);
      var t := RelocateCow(s, ids[0], dep, dest);
      RelocateCowsDeparture(t, tail, dep, dest);
      assert ids == [ids[0]] + tail;
      assert multiset(ids) == multiset{ids[0]} + multiset(tail);
    }
  }

  // ---------------------------------------------------------------------------
  // Herd sizes after a move
  // ---------------------------------------------------------------------------

  /** The herd sizes after infected cows have moved. With flexible sizes the batch leaves the
      departure herd and joins the destination herd. With fixed sizes only the destination can
      change: it grows to its infected count when that count exceeds it. */
  function AdjustHerds(farms: map<string, Farm>, dep: string, dest: string, batch: int, flex: bool,
                       infected: int): (r: map<string, Farm>)
    requires dep in farms && dest in farms
    ensures r.Keys == farms.Keys
    ensures forall f :: f in farms ==> r[f].(herdSize := farms[f].herdSize) == farms[f]
    ensures forall f :: f in farms && f != dep && f != dest ==> r[f] == farms[f]
    ensures flex && dep != dest ==>
      && r[dep].herdSize == farms[dep].herdSize - batch
      && r[dest].herdSize == farms[dest].herdSize + batch
    ensures flex && dep == dest ==> r[dep] == farms[dep]
    ensures !flex ==> dep == dest || r[dep] == farms[dep]
    ensures !flex ==>
      && r[dest].herdSize >= infected
      && r[dest].herdSize >= farms[dest].herdSize
      && (r[dest].herdSize == farms[dest].herdSize || r[dest].herdSize == infected)
  {
    if flex then
      var shrunk := farms[dep := ChangeFarmSize(farms[dep], -batch)];
      FarmSizeInverse(farms[dep], -batch);
      shrunk[dest := ChangeFarmSize(shrunk[dest], batch)]
    else if infected > farms[dest].herdSize then
      farms[dest := farms[dest].(herdSize := infected)]
    else
      farms
  }

  // ---------------------------------------------------------------------------
  // One cattle movement
  // ---------------------------------------------------------------------------

  /** Any reactor restricts the herd exactly as a positive herd test does. */
  function ApplyOutcome(u: State, herdId: string, reactors: int, time: int): (r: State)
    requires herdId in u.farms
  {
    var h := TestOutcome(Herds(u.farms, u.restrictedHerds), herdId, reactors, time);
    u.(farms := h.farms, restrictedHerds := h.restricted)
  }

  /** The cows that passed their pre-movement tests move to the destination herd, the herd
      sizes are adjusted and the cows are added to the count of infected cows moved. */
  function DeliverCows(u: State, flex: bool, ids: seq<string>, dep: string, dest: string, batch: int): (r: State)
    requires forall i :: 0 <= i < |ids| ==> ids[i] in u.cows
    requires dep in u.farms && dest in u.farms && dep in u.farmInfections && dest in u.farmInfections
  {
    var v := RelocateCows(u, ids, dep, dest);
    v.(farms := AdjustHerds(v.farms, dep, dest, batch, flex, |v.farmInfections[dest]|),
       infectedCowsMoved := v.infectedCowsMoved + |ids|)
  }

  /** Cows taken from a herd's list are live, have a vertex and sit on that herd. */
  lemma ListedOnFarm(s: State, dep: string, ids: seq<string>)
    requires Located(s) && CowsListed(s) && dep in s.farmInfections
    requires forall i :: 0 <= i < |ids| ==> ids[i] in s.farmInfections[dep]
    ensures OnFarm(s, dep, ids)
    ensures forall i :: 0 <= i < |ids| ==> ids[i] in s.tree.nodes
  {
    var list := s.farmInfections[dep];
    forall i | 0 <= i < |ids| ensures ids[i] in s.cows && ids[i] in s.tree.nodes && s.cows[ids[i]].farmId == dep {
      assert ids[i] in list;
      var j :| 0 <= j < |list| && list[j] == ids[i];
    }
  }

  /** `k` infected cows selected from a herd's list: no cow twice, each live and on the herd. */
  function Selection(s: State, dep: string, k: nat, pick: nat -> nat): (ids: seq<string>)
    requires Located(s) && CowsListed(s) && dep in s.farmInfections && k <= |s.farmInfections[dep]|
    ensures |ids| == k && Testable(s, dep, ids) && OnFarm(s, dep, ids)
    ensures forall i :: 0 <= i < k ==> ids[i] in s.farmInfections[dep]
  {
    var list := s.farmInfections[dep];
    SelectManyDistinct(list, k, pick, 0);
    var ids := SelectMany(list, k, pick, 0);
    ListedOnFarm(s, dep, ids);
    ids
  }

  /** What settling needs: the cows were on the departure herd, testing touched only what
      testing may, and without a reactor it only wrote records. */
  predicate Settleable(s: State, t: Batch, ids: seq<string>, dep: string, dest: string)
  {
    && dep in s.farms && dep in s.farmInfections
    && OnFarm(s, dep, ids) && TestFrame(s, t.state) && Positives(t.records) <= |ids|
    && (Positives(t.records) == 0 ==>
          dest in s.farms && dest in s.farmInfections && t.state == s.(cattleTests := t.state.cattleTests))
  }

  /** What the pre-movement tests decide: any reactor restricts the departure herd and cancels
      the move; with none, the selected cows move. */
  function Settle(s: State, t: Batch, flex: bool, ids: seq<string>, dep: string, dest: string, batch: int,
                  time: int): (r: Step)
    requires Settleable(s, t, ids, dep, dest)
    ensures r.detected == Positives(t.records) && r.detected <= |ids| && r.sampled == |ids|
    ensures r.detected > 0 ==> r.moved == 0 && r.infectedMoved == 0
    ensures r.detected == 0 ==> r.moved == batch && r.infectedMoved == |ids|
    ensures r.state.farms.Keys == s.farms.Keys
    ensures r.state.infectedCowsMoved == s.infectedCowsMoved + r.infectedMoved
    ensures r.state.cattleTests == t.state.cattleTests
  {
    var detected := Positives(t.records);
    if detected > 0 then
      Step(ApplyOutcome(t.state, dep, detected, time), 0, |ids|, 0, detected)
    else
      Step(DeliverCows(t.state, flex, ids, dep, dest, batch), batch, |ids|, |ids|, 0)
  }

  lemma SettleSound(s: State, t: Batch, flex: bool, ids: seq<string>, dep: string, dest: string, batch: int,
                    time: int)
    requires Settleable(s, t, ids, dep, dest) && Sound(s) && Distinct(ids)
    requires Positives(t.records) > 0 ==> Sound(t.state) && Conserves(s, t.state)
    ensures var r := Settle(s, t, flex, ids, dep, dest, batch, time);
      Sound(r.state) && Conserves(s, r.state)
  {
    var u := t.state;
    var r := Settle(s, t, flex, ids, dep, dest, batch, time);
    if Positives(t.records) > 0 {
      SameAnimalsSound(u, r.state);
      ConservesTransitive(s, u, r.state);
    } else {
      RecordKeepsSound(s, u.cattleTests);
      RelocateCowsSound(u, ids, dep, dest);
      var v := RelocateCows(u, ids, dep, dest);
      SameAnimalsSound(v, r.state);
      ConservesTransitive(s, u, v);
      ConservesTransitive(s, v, r.state);
    }
  }

  /** A reactor puts the departure herd under restriction with no clear tests, marks its last
      test positive on the move date, and leaves the surviving cows where they were. */
  lemma SettleRestricts(s: State, t: Batch, flex: bool, ids: seq<string>, dep: string, dest: string, batch: int,
                        time: int)
    requires Settleable(s, t, ids, dep, dest) && Positives(t.records) > 0
    ensures var r := Settle(s, t, flex, ids, dep, dest, batch, time).state;
      && r.restrictedHerds == s.restrictedHerds[dep := 0]
      && r.farms == s.farms[dep := s.farms[dep].(lastClearTestDate := UNSET, lastPositiveTestDate := time)]
      && r.cows == t.state.cows
  {
  }

  /** Without a reactor the selected cows are appended to the destination's list and taken
      off the departure list; no other herd's list changes. */
  lemma SettleDeliversLists(s: State, t: Batch, flex: bool, ids: seq<string>, dep: string, dest: string,
                            batch: int, time: int)
    requires Settleable(s, t, ids, dep, dest) && Positives(t.records) == 0 && Distinct(ids) && dep != dest
    requires forall i :: 0 <= i < |ids| ==> ids[i] in s.farmInfections[dep]
    ensures var r := Settle(s, t, flex, ids, dep, dest, batch, time).state;
      && r.farmInfections[dest] == s.farmInfections[dest] + ids
      && multiset(r.farmInfections[dep]) == multiset(s.farmInfections[dep]) - multiset(ids)
      && forall f :: f in s.farmInfections && f != dep && f != dest ==> r.farmInfections[f] == s.farmInfections[f]
  {
    var u := t.state;
    RelocateCowsLists(u, ids, dep, dest);
    RelocateCowsOthers(u, ids, dep, dest);
    RelocateCowsDeparture(u, ids, dep, dest);
  }

  /** Without a reactor each selected cow now has the destination as its farm and at the end of
      its farm history; every other cow is as it was. */
  lemma SettleDeliversCows(s: State, t: Batch, flex: bool, ids: seq<string>, dep: string, dest: string,
                           batch: int, time: int)
    requires Settleable(s, t, ids, dep, dest) && Positives(t.records) == 0 && Distinct(ids)
    ensures var r := Settle(s, t, flex, ids, dep, dest, batch, time).state;
      && (forall i :: 0 <= i < |ids| ==>
            r.cows[ids[i]] == s.cows[ids[i]].(farmId := dest, allFarmIds := s.cows[ids[i]].allFarmIds + [dest]))
      && (forall k :: k in s.cows && k !in ids ==> r.cows[k] == s.cows[k])
      && r.infectedCowsMoved == s.infectedCowsMoved + |ids|
  {
    RelocateCowsMoves(t.state, ids, dep, dest);
  }

  /** Without a reactor, flexible herd sizes pass the batch from one herd to the other; fixed
      sizes only let the destination grow, to hold its infected cows. */
  lemma SettleDeliversSizes(s: State, t: Batch, flex: bool, ids: seq<string>, dep: string, dest: string,
                            batch: int, time: int)
    requires Settleable(s, t, ids, dep, dest) && Positives(t.records) == 0 && dep != dest
    ensures var r := Settle(s, t, flex, ids, dep, dest, batch, time).state;
      && r.restrictedHerds == s.restrictedHerds
      && (flex ==> r.farms[dep].herdSize == s.farms[dep].herdSize - batch
                   && r.farms[dest].herdSize == s.farms[dest].herdSize + batch)
      && (!flex ==> r.farms[dep] == s.farms[dep]
                    && r.farms[dest].herdSize >= |r.farmInfections[dest]|
                    && r.farms[dest].herdSize >= s.farms[dest].herdSize)
  {
  }

  /** The `k > 0` part of a cattle move: `k` infected cows are selected and tested on the
      departure herd, and the outcome settled. Only clean tests look the destination up, and
      an unknown destination is then a null dereference. */
  function ShipCows(s: State, cfg: Config, dep: string, dest: string, batch: int, k: nat, d: MoveDraw,
                    time: int): (r: Result<Step>)
    requires Sound(s) && dep in s.farms && 0 < k <= FarmInfected(s, dep)
    ensures r.Ok? ==> r.value.detected <= k && r.value.sampled == k
    ensures r.Ok? && r.value.detected > 0 ==> r.value.moved == 0 && r.value.infectedMoved == 0
    ensures r.Ok? && r.value.detected == 0 ==> r.value.moved == batch && r.value.infectedMoved == k
    ensures r.Ok? && r.value.detected == 0 ==> dest in s.farms
  {
    var ids := Selection(s, dep, k, d.pick);
    var t :- TestAll(s, cfg, ids, time, dep, "pre-move", d.tests, 0);
    ReactorsAtMostTested(t.records);
    TestAllClear(s, cfg, ids, time, dep, "pre-move", d.tests, 0);
    if Positives(t.records) == 0 && dest !in s.farms then Err("null pointer: unknown destination farm")
    else Ok(Settle(s, t, cfg.herdSizeFlex, ids, dep, dest, batch, time))
  }

  /** The pre-movement herd-test record, written whenever the batch went ahead. */
  function RecordPreMove(t: Step, dep: string, infected: int, time: int): (r: Step)
  {
    t.(state := t.state.(herdTests := t.state.herdTests + [HerdTest(time, dep, infected, t.detected, "pre-move")]))
  }

  /** The batch size the draw gives the chosen departure herd. */
  function PlannedBatch(s: State, moves: seq<Move>, d: MoveDraw): int
    requires |moves| > 0 && Chosen(moves, d).0 in s.farms
  {
    BatchSize(s.farms[Chosen(moves, d).0].offMovement, d)
  }

  /** A cattle iteration goes ahead when neither herd is restricted, the departure herd is
      known and the batch proceeds. */
  predicate Goes(s: State, cfg: Config, moves: seq<Move>, d: MoveDraw)
  {
    && |moves| > 0
    && Chosen(moves, d).0 !in s.restrictedHerds && Chosen(moves, d).1 !in s.restrictedHerds
    && Chosen(moves, d).0 in s.farms
    && Proceeds(PlannedBatch(s, moves, d), s.farms[Chosen(moves, d).0].herdSize, cfg.herdSizeFlex)
  }

  /** The movement record of a cattle batch with `k` infected cows; the random-number column
      is unused. The destination is only written down, never looked up. */
  function CattleRecord(s: State, moves: seq<Move>, d: MoveDraw, k: nat, time: int): RecordMovement
    requires |moves| > 0 && Chosen(moves, d).0 in s.farms
  {
    var (dep, dest) := Chosen(moves, d);
    NewRecordMovement(time, "cows", dep, dest, s.farms[dep].herdSize, PlannedBatch(s, moves, d),
                      FarmInfected(s, dep), k, d.choice % |moves|, -1.0, "")
  }

  /** A batch that goes ahead with `k` infected cows: it is recorded, its infected cows (if
      any) are shipped, and a herd-test record follows. Looking up an unknown departure herd
      is a null dereference; so is delivering cows that passed their tests to an unknown
      destination. */
  function CattleBatch(s: State, cfg: Config, moves: seq<Move>, d: MoveDraw, k: nat, time: int): (r: Result<Step>)
    requires Sound(s) && |moves| > 0
    requires k <= FarmInfected(s, Chosen(moves, d).0)
    ensures Chosen(moves, d).0 !in s.farms ==> r.Err?
    ensures r.Ok? ==> Chosen(moves, d).0 in s.farms
    ensures r.Ok? && k > 0 && r.value.detected == 0 ==> Chosen(moves, d).1 in s.farms
    ensures r.Ok? ==> r.value.sampled == k && r.value.detected <= k
    ensures r.Ok? ==> r.value.moved == if r.value.detected > 0 then 0 else PlannedBatch(s, moves, d)
    ensures r.Ok? ==> r.value.infectedMoved == if r.value.detected > 0 then 0 else k
  {
    var (dep, dest) := Chosen(moves, d);
    if dep !in s.farms then Err("null pointer: unknown departure farm")
    else
      var batch := PlannedBatch(s, moves, d);
      var s1 := s.(movements := s.movements + [CattleRecord(s, moves, d, k, time)]);
      SameAnimalsSound(s, s1);
      var t :- if k == 0 then Ok(Step(s1, batch, 0, 0, 0)) else ShipCows(s1, cfg, dep, dest, batch, k, d, time);
      Ok(RecordPreMove(t, dep, FarmInfected(s, dep), time))
  }

  /** One iteration of `doCattleMovements`. A move touching a restricted herd is skipped and
      counts nothing; so is a batch that does not proceed. A batch that goes ahead is recorded
      with its size and infected count, its infected cows (if any) are tested before they
      move, and a herd-test record follows. The source's check that there are no more
      reactors than infected cows can never fail: the bound is part of the contract. An empty
      list of known movements is an error, as is a hypergeometric draw the distribution
      refuses. An unrestricted move whose departure herd is unknown is a null dereference.
      */
  function CattleMove(s: State, cfg: Config, moves: seq<Move>, d: MoveDraw, time: int): (r: Result<Step>)
    requires Sound(s)
    ensures |moves| == 0 ==> r.Err?
    ensures |moves| > 0 && (Chosen(moves, d).0 in s.restrictedHerds || Chosen(moves, d).1 in s.restrictedHerds) ==>
      r == Ok(Step(s, 0, 0, 0, 0))
    ensures |moves| > 0 && Chosen(moves, d).0 !in s.restrictedHerds && Chosen(moves, d).1 !in s.restrictedHerds ==>
      (Chosen(moves, d).0 !in s.farms ==> r.Err?)
    ensures |moves| > 0 && Chosen(moves, d).0 in s.farms && !Goes(s, cfg, moves, d) ==> r == Ok(Step(s, 0, 0, 0, 0))
    ensures r.Ok? && |moves| > 0 ==>
      && r.value.sampled <= FarmInfected(s, Chosen(moves, d).0)
      && r.value.infectedMoved <= r.value.sampled
      && r.value.detected <= r.value.sampled
    ensures r.Ok? ==> r.value.moved >= 0
    ensures r.Ok? && r.value.detected > 0 ==> r.value.moved == 0 && r.value.infectedMoved == 0
  {
    if |moves| == 0 then Err("no known cattle movements")
    else if Chosen(moves, d).0 in s.restrictedHerds || Chosen(moves, d).1 in s.restrictedHerds then
      Ok(Step(s, 0, 0, 0, 0))
    else if Chosen(moves, d).0 !in s.farms then Err("null pointer: unknown departure farm")
    else if !Goes(s, cfg, moves, d) then Ok(Step(s, 0, 0, 0, 0))
    else
      var dep := Chosen(moves, d).0;
      var k :- Hyper(s.farms[dep].herdSize, PlannedBatch(s, moves, d), FarmInfected(s, dep), d.hyper);
      CattleBatch(s, cfg, moves, d, k, time)
  }

  // ---------------------------------------------------------------------------
  // What a cattle movement does
  // ---------------------------------------------------------------------------

  /** Shipping cows keeps the bookkeeping sound and moves no animal in or out. */
  lemma ShipCowsSound(s: State, cfg: Config, dep: string, dest: string, batch: int, k: nat, d: MoveDraw, time: int)
    requires Sound(s) && dep in s.farms && 0 < k <= FarmInfected(s, dep)
    ensures var r := ShipCows(s, cfg, dep, dest, batch, k, d, time);
      r.Ok? ==> Sound(r.value.state) && Conserves(s, r.value.state)
  {
    ShipCowsSettles(s, cfg, dep, dest, batch, k, d, time);
    var ids := Selection(s, dep, k, d.pick);
    var t := TestAll(s, cfg, ids, time, dep, "pre-move", d.tests, 0);
    var r := ShipCows(s, cfg, dep, dest, batch, k, d, time);
    if r.Ok? {
      TestAllSound(s, cfg, ids, time, dep, "pre-move", d.tests, 0);
      TestAllConserves(s, cfg, ids, time, dep, "pre-move", d.tests, 0);
      ReactorsAtMostTested(t.value.records);
      TestAllClear(s, cfg, ids, time, dep, "pre-move", d.tests, 0);
      SettleSound(s, t.value, cfg.herdSizeFlex, ids, dep, dest, batch, time);
    }
  }

  /** Shipping cows touches only cattle, herds and restrictions: setts, badgers and every record
      other than the cattle tests stay as they were. */
  lemma ShipCowsFrame(s: State, cfg: Config, dep: string, dest: string, batch: int, k: nat, d: MoveDraw, time: int)
    requires Sound(s) && dep in s.farms && 0 < k <= FarmInfected(s, dep)
    ensures var r := ShipCows(s, cfg, dep, dest, batch, k, d, time);
      r.Ok? ==> var u := r.value.state;
        u == s.(cows := u.cows, culledCows := u.culledCows, farmInfections := u.farmInfections, tree := u.tree,
                lastSnp := u.lastSnp, cattleTests := u.cattleTests, farms := u.farms,
                restrictedHerds := u.restrictedHerds, infectedCowsMoved := u.infectedCowsMoved)
  {
    ShipCowsSettles(s, cfg, dep, dest, batch, k, d, time);
  }

  /** Shipping writes no movement record and no herd-test record. */
  lemma ShipCowsKeepsRecords(s: State, cfg: Config, dep: string, dest: string, batch: int, k: nat, d: MoveDraw,
                             time: int)
    requires Sound(s) && dep in s.farms && 0 < k <= FarmInfected(s, dep)
    ensures var r := ShipCows(s, cfg, dep, dest, batch, k, d, time);
      r.Ok? ==> r.value.state.movements == s.movements && r.value.state.herdTests == s.herdTests
  {
    ShipCowsFrame(s, cfg, dep, dest, batch, k, d, time);
  }

  /** Shipping is testing the selection and settling the outcome. */
  lemma ShipCowsSettles(s: State, cfg: Config, dep: string, dest: string, batch: int, k: nat, d: MoveDraw,
                        time: int)
    requires Sound(s) && dep in s.farms && 0 < k <= FarmInfected(s, dep)
    ensures var ids := Selection(s, dep, k, d.pick);
      var t := TestAll(s, cfg, ids, time, dep, "pre-move", d.tests, 0);
      var r := ShipCows(s, cfg, dep, dest, batch, k, d, time);
      && (r.Ok? <==> t.Ok? && (Positives(t.value.records) == 0 ==> dest in s.farms))
      && (r.Ok? ==> Settleable(s, t.value, ids, dep, dest) && r.value == Settle(s, t.value, cfg.herdSizeFlex, ids, dep, dest, batch, time))
  {
    var ids := Selection(s, dep, k, d.pick);
    var t := TestAll(s, cfg, ids, time, dep, "pre-move", d.tests, 0);
    if t.Ok? {
      ReactorsAtMostTested(t.value.records);
      TestAllClear(s, cfg, ids, time, dep, "pre-move", d.tests, 0);
    }
  }

  /** A reactor among the shipped cows restricts the departure herd with no clear tests, marks
      its last test positive on the move date, and leaves every surviving cow as it was. */
  lemma ShipCowsDetected(s: State, cfg: Config, dep: string, dest: string, batch: int, k: nat, d: MoveDraw,
                         time: int)
    requires Sound(s) && dep in s.farms && 0 < k <= FarmInfected(s, dep)
    ensures var r := ShipCows(s, cfg, dep, dest, batch, k, d, time);
      r.Ok? && r.value.detected > 0 ==>
        var u := r.value.state;
        && u.restrictedHerds == s.restrictedHerds[dep := 0]
        && u.farms == s.farms[dep := s.farms[dep].(lastClearTestDate := UNSET, lastPositiveTestDate := time)]
        && u.infectedCowsMoved == s.infectedCowsMoved
        && forall c :: c in u.cows ==> c in s.cows && u.cows[c] == s.cows[c]
  {
    ShipCowsSettles(s, cfg, dep, dest, batch, k, d, time);
    var ids := Selection(s, dep, k, d.pick);
    var t := TestAll(s, cfg, ids, time, dep, "pre-move", d.tests, 0);
    var r := ShipCows(s, cfg, dep, dest, batch, k, d, time);
    if r.Ok? && Positives(t.value.records) > 0 {
      TestAllKeepsCows(s, cfg, ids, time, dep, "pre-move", d.tests, 0);
      SettleRestricts(s, t.value, cfg.herdSizeFlex, ids, dep, dest, batch, time);
    }
  }

  /** With no reactor, the selected cows move between two different herds: they join the end
      of the destination list and leave the departure list; every other list is as it was. */
  lemma ShipCowsDeliversLists(s: State, cfg: Config, dep: string, dest: string, batch: int, k: nat, d: MoveDraw,
                              time: int)
    requires Sound(s) && dep in s.farms && 0 < k <= FarmInfected(s, dep) && dep != dest
    ensures dep in s.farmInfections
    ensures var r := ShipCows(s, cfg, dep, dest, batch, k, d, time);
      r.Ok? && r.value.detected == 0 ==>
        var ids := Selection(s, dep, k, d.pick);
        var u := r.value.state;
        && dest in s.farmInfections
        && u.farmInfections[dest] == s.farmInfections[dest] + ids
        && multiset(u.farmInfections[dep]) == multiset(s.farmInfections[dep]) - multiset(ids)
        && (forall f :: f in s.farmInfections && f != dep && f != dest ==> u.farmInfections[f] == s.farmInfections[f])
  {
    ShipCowsSettles(s, cfg, dep, dest, batch, k, d, time);
    var ids := Selection(s, dep, k, d.pick);
    var t := TestAll(s, cfg, ids, time, dep, "pre-move", d.tests, 0);
    var r := ShipCows(s, cfg, dep, dest, batch, k, d, time);
    if r.Ok? && Positives(t.value.records) == 0 {
      SettleDeliversLists(s, t.value, cfg.herdSizeFlex, ids, dep, dest, batch, time);
    }
  }

  /** With no reactor each selected cow has the destination as its farm and at the end of its
      history; every other cow is as it was, and the moved count grows by the selection. */
  lemma ShipCowsDeliversCows(s: State, cfg: Config, dep: string, dest: string, batch: int, k: nat, d: MoveDraw,
                             time: int)
    requires Sound(s) && dep in s.farms && 0 < k <= FarmInfected(s, dep)
    ensures var r := ShipCows(s, cfg, dep, dest, batch, k, d, time);
      r.Ok? && r.value.detected == 0 ==>
        var ids := Selection(s, dep, k, d.pick);
        var u := r.value.state;
        && (forall i :: 0 <= i < k ==>
              ids[i] in u.cows && u.cows[ids[i]] == s.cows[ids[i]].(farmId := dest, allFarmIds := s.cows[ids[i]].allFarmIds + [dest]))
        && (forall c :: c in s.cows && c !in ids ==> c in u.cows && u.cows[c] == s.cows[c])
        && u.infectedCowsMoved == s.infectedCowsMoved + k
  {
    ShipCowsSettles(s, cfg, dep, dest, batch, k, d, time);
    var ids := Selection(s, dep, k, d.pick);
    var t := TestAll(s, cfg, ids, time, dep, "pre-move", d.tests, 0);
    var r := ShipCows(s, cfg, dep, dest, batch, k, d, time);
    if r.Ok? && Positives(t.value.records) == 0 {
      SettleDeliversCows(s, t.value, cfg.herdSizeFlex, ids, dep, dest, batch, time);
    }
  }

  /** Each selected cow has one "pre-move" test record, in selection order, appended to the
      cattle tests. */
  lemma ShipCowsTests(s: State, cfg: Config, dep: string, dest: string, batch: int, k: nat, d: MoveDraw,
                      time: int)
    requires Sound(s) && dep in s.farms && 0 < k <= FarmInfected(s, dep)
    ensures var r := ShipCows(s, cfg, dep, dest, batch, k, d, time);
      r.Ok? ==>
        var u := r.value.state;
        && |u.cattleTests| >= |s.cattleTests|
        && u.cattleTests[..|s.cattleTests|] == s.cattleTests
        && RecordsFor(u.cattleTests[|s.cattleTests|..], Selection(s, dep, k, d.pick), time, dep, "pre-move")
  {
    ShipCowsSettles(s, cfg, dep, dest, batch, k, d, time);
    var ids := Selection(s, dep, k, d.pick);
    var t := TestAll(s, cfg, ids, time, dep, "pre-move", d.tests, 0);
    var r := ShipCows(s, cfg, dep, dest, batch, k, d, time);
    if r.Ok? {
      var u := Settle(s, t.value, cfg.herdSizeFlex, ids, dep, dest, batch, time).state;
      assert u.cattleTests[|s.cattleTests|..] == t.value.records;
    }
  }

  /** The reactors reported are the positive records among those appended. */
  lemma ShipCowsReactors(s: State, cfg: Config, dep: string, dest: string, batch: int, k: nat, d: MoveDraw,
                         time: int)
    requires Sound(s) && dep in s.farms && 0 < k <= FarmInfected(s, dep)
    ensures var r := ShipCows(s, cfg, dep, dest, batch, k, d, time);
      r.Ok? ==>
        var u := r.value.state;
        |u.cattleTests| >= |s.cattleTests| && Positives(u.cattleTests[|s.cattleTests|..]) == r.value.detected
  {
    ShipCowsSettles(s, cfg, dep, dest, batch, k, d, time);
    var ids := Selection(s, dep, k, d.pick);
    var t := TestAll(s, cfg, ids, time, dep, "pre-move", d.tests, 0);
    var r := ShipCows(s, cfg, dep, dest, batch, k, d, time);
    if r.Ok? {
      var u := Settle(s, t.value, cfg.herdSizeFlex, ids, dep, dest, batch, time).state;
      assert u.cattleTests[|s.cattleTests|..] == t.value.records;
    }
  }

  /** With no reactor the herd sizes change as the size rule says. */
  lemma ShipCowsSizes(s: State, cfg: Config, dep: string, dest: string, batch: int, k: nat, d: MoveDraw, time: int)
    requires Sound(s) && dep in s.farms && 0 < k <= FarmInfected(s, dep) && dep != dest
    ensures var r := ShipCows(s, cfg, dep, dest, batch, k, d, time);
      r.Ok? && r.value.detected == 0 ==>
        var u := r.value.state;
        && u.restrictedHerds == s.restrictedHerds
        && (cfg.herdSizeFlex ==> u.farms[dep].herdSize == s.farms[dep].herdSize - batch
                                 && u.farms[dest].herdSize == s.farms[dest].herdSize + batch)
        && (!cfg.herdSizeFlex ==> u.farms[dep] == s.farms[dep]
                                  && u.farms[dest].herdSize >= |u.farmInfections[dest]|
                                  && u.farms[dest].herdSize >= s.farms[dest].herdSize)
  {
    ShipCowsSettles(s, cfg, dep, dest, batch, k, d, time);
    var ids := Selection(s, dep, k, d.pick);
    var t := TestAll(s, cfg, ids, time, dep, "pre-move", d.tests, 0);
    var r := ShipCows(s, cfg, dep, dest, batch, k, d, time);
    if r.Ok? && Positives(t.value.records) == 0 {
      SettleDeliversSizes(s, t.value, cfg.herdSizeFlex, ids, dep, dest, batch, time);
    }
  }

  /** The selection reads only the herd's list. */
  lemma SameSelection(s: State, s1: State, dep: string, k: nat, pick: nat -> nat)
    requires Located(s) && CowsListed(s) && Located(s1) && CowsListed(s1)
    requires s1.farmInfections == s.farmInfections && dep in s.farmInfections && k <= |s.farmInfections[dep]|
    ensures Selection(s1, dep, k, pick) == Selection(s, dep, k, pick)
  {
  }

  /** The record written before shipping changes nothing shipping reads. */
  lemma CattleRecordKeepsSound(s: State, moves: seq<Move>, d: MoveDraw, k: nat, time: int)
    requires Sound(s) && |moves| > 0 && Chosen(moves, d).0 in s.farms
    ensures var s1 := s.(movements := s.movements + [CattleRecord(s, moves, d, k, time)]);
      Sound(s1) && Conserves(s, s1) && FarmInfected(s1, Chosen(moves, d).0) == FarmInfected(s, Chosen(moves, d).0)
  {
    SameAnimalsSound(s, s.(movements := s.movements + [CattleRecord(s, moves, d, k, time)]));
  }

  /** A cattle batch keeps the bookkeeping sound and moves no animal in or out. */
  lemma CattleBatchSound(s: State, cfg: Config, moves: seq<Move>, d: MoveDraw, k: nat, time: int)
    requires Sound(s) && |moves| > 0
    requires k <= FarmInfected(s, Chosen(moves, d).0)
    ensures var r := CattleBatch(s, cfg, moves, d, k, time);
      r.Ok? ==> Sound(r.value.state) && Conserves(s, r.value.state)
  {
    var (dep, dest) := Chosen(moves, d);
    if dep in s.farms {
      var s1 := s.(movements := s.movements + [CattleRecord(s, moves, d, k, time)]);
      CattleRecordKeepsSound(s, moves, d, k, time);
      var t := if k == 0 then Ok(Step(s1, PlannedBatch(s, moves, d), 0, 0, 0))
               else ShipCows(s1, cfg, dep, dest, PlannedBatch(s, moves, d), k, d, time);
      if t.Ok? {
        if k > 0 {
          ShipCowsSound(s1, cfg, dep, dest, PlannedBatch(s, moves, d), k, d, time);
          ConservesTransitive(s, s1, t.value.state);
        }
        var r := RecordPreMove(t.value, dep, FarmInfected(s, dep), time);
        SameAnimalsSound(t.value.state, r.state);
        ConservesTransitive(s, t.value.state, r.state);
      }
    }
  }

  /** A cattle batch writes one movement record, giving the batch and its infected count. */
  lemma CattleBatchRecords(s: State, cfg: Config, moves: seq<Move>, d: MoveDraw, k: nat, time: int)
    requires Sound(s) && |moves| > 0
    requires k <= FarmInfected(s, Chosen(moves, d).0)
    ensures var r := CattleBatch(s, cfg, moves, d, k, time);
      r.Ok? ==> r.value.state.movements == s.movements + [CattleRecord(s, moves, d, k, time)]
  {
    var (dep, dest) := Chosen(moves, d);
    if dep in s.farms {
      var s1 := s.(movements := s.movements + [CattleRecord(s, moves, d, k, time)]);
      CattleRecordKeepsSound(s, moves, d, k, time);
      if k > 0 {
        ShipCowsKeepsRecords(s1, cfg, dep, dest, PlannedBatch(s, moves, d), k, d, time);
      }
    }
  }

  /** A cattle batch writes one "pre-move" herd-test record, giving the herd's infected count
      and the reactors found. */
  lemma CattleBatchHerdTest(s: State, cfg: Config, moves: seq<Move>, d: MoveDraw, k: nat, time: int)
    requires Sound(s) && |moves| > 0
    requires k <= FarmInfected(s, Chosen(moves, d).0)
    ensures var r := CattleBatch(s, cfg, moves, d, k, time);
      r.Ok? ==>
        r.value.state.herdTests ==
          s.herdTests + [HerdTest(time, Chosen(moves, d).0, FarmInfected(s, Chosen(moves, d).0), r.value.detected, "pre-move")]
  {
    var (dep, dest) := Chosen(moves, d);
    if dep in s.farms {
      var s1 := s.(movements := s.movements + [CattleRecord(s, moves, d, k, time)]);
      CattleRecordKeepsSound(s, moves, d, k, time);
      if k > 0 {
        ShipCowsKeepsRecords(s1, cfg, dep, dest, PlannedBatch(s, moves, d), k, d, time);
      }
    }
  }

  /** A cattle batch touches no sett and no badger; with no infected cow in the batch the two
      records are all it writes. */
  lemma CattleBatchFrame(s: State, cfg: Config, moves: seq<Move>, d: MoveDraw, k: nat, time: int)
    requires Sound(s) && |moves| > 0
    requires k <= FarmInfected(s, Chosen(moves, d).0)
    ensures var r := CattleBatch(s, cfg, moves, d, k, time);
      r.Ok? ==>
        var u := r.value.state;
        && u.reservoirs == s.reservoirs && u.reservoirInfections == s.reservoirInfections
        && u.badgers == s.badgers && u.expiredBadgers == s.expiredBadgers && u.badgerTests == s.badgerTests
        && (k == 0 ==> u == s.(movements := u.movements, herdTests := u.herdTests))
  {
    var (dep, dest) := Chosen(moves, d);
    if dep in s.farms {
      var s1 := s.(movements := s.movements + [CattleRecord(s, moves, d, k, time)]);
      CattleRecordKeepsSound(s, moves, d, k, time);
      if k > 0 {
        ShipCowsFrame(s1, cfg, dep, dest, PlannedBatch(s, moves, d), k, d, time);
      }
    }
  }

  /** A reactor in the batch restricts the departure herd with no clear tests and marks its
      last test positive on the move date; no cow moves, and every surviving cow is as it
      was. */
  lemma CattleBatchDetected(s: State, cfg: Config, moves: seq<Move>, d: MoveDraw, k: nat, time: int)
    requires Sound(s) && |moves| > 0
    requires k <= FarmInfected(s, Chosen(moves, d).0)
    ensures var r := CattleBatch(s, cfg, moves, d, k, time);
      r.Ok? && r.value.detected > 0 ==>
        var dep := Chosen(moves, d).0;
        var u := r.value.state;
        && u.restrictedHerds == s.restrictedHerds[dep := 0]
        && u.farms == s.farms[dep := s.farms[dep].(lastClearTestDate := UNSET, lastPositiveTestDate := time)]
        && u.infectedCowsMoved == s.infectedCowsMoved
        && forall c :: c in u.cows ==> c in s.cows && u.cows[c] == s.cows[c]
  {
    var (dep, dest) := Chosen(moves, d);
    if dep in s.farms {
      CattleRecordKeepsSound(s, moves, d, k, time);
      if k > 0 {
        var s1 := s.(movements := s.movements + [CattleRecord(s, moves, d, k, time)]);
        ShipCowsDetected(s1, cfg, dep, dest, PlannedBatch(s, moves, d), k, d, time);
      }
    }
  }

  /** With no reactor and two different herds, the `k` selected cows leave the departure list
      and join the end of the destination list, each with the destination as its farm and at
      the end of its history; other lists and cows are as they were. */
  lemma CattleBatchDelivers(s: State, cfg: Config, moves: seq<Move>, d: MoveDraw, k: nat, time: int)
    requires Sound(s) && |moves| > 0
    requires 0 < k <= FarmInfected(s, Chosen(moves, d).0) && Chosen(moves, d).0 != Chosen(moves, d).1
    ensures Chosen(moves, d).0 in s.farmInfections
    ensures var r := CattleBatch(s, cfg, moves, d, k, time);
      r.Ok? && r.value.detected == 0 ==>
        var (dep, dest) := Chosen(moves, d);
        var ids := Selection(s, dep, k, d.pick);
        var u := r.value.state;
        && dest in s.farmInfections
        && u.farmInfections[dest] == s.farmInfections[dest] + ids
        && multiset(u.farmInfections[dep]) == multiset(s.farmInfections[dep]) - multiset(ids)
        && (forall f :: f in s.farmInfections && f != dep && f != dest ==> u.farmInfections[f] == s.farmInfections[f])
        && (forall i :: 0 <= i < k ==>
              ids[i] in u.cows && u.cows[ids[i]] == s.cows[ids[i]].(farmId := dest, allFarmIds := s.cows[ids[i]].allFarmIds + [dest]))
        && (forall c :: c in s.cows && c !in ids ==> c in u.cows && u.cows[c] == s.cows[c])
        && u.infectedCowsMoved == s.infectedCowsMoved + k
  {
    var (dep, dest) := Chosen(moves, d);
    if dep in s.farms {
      var s1 := s.(movements := s.movements + [CattleRecord(s, moves, d, k, time)]);
      CattleRecordKeepsSound(s, moves, d, k, time);
      SameSelection(s, s1, dep, k, d.pick);
      ShipCowsDeliversLists(s1, cfg, dep, dest, PlannedBatch(s, moves, d), k, d, time);
      ShipCowsDeliversCows(s1, cfg, dep, dest, PlannedBatch(s, moves, d), k, d, time);
    }
  }

  /** A cattle movement keeps the bookkeeping sound and moves no animal in or out. */
  lemma CattleMoveSound(s: State, cfg: Config, moves: seq<Move>, d: MoveDraw, time: int)
    requires Sound(s)
    ensures var r := CattleMove(s, cfg, moves, d, time);
      r.Ok? ==> Sound(r.value.state) && Conserves(s, r.value.state)
  {
    var r := CattleMove(s, cfg, moves, d, time);
    if r.Ok? && |moves| > 0 && Goes(s, cfg, moves, d) {
      var dep := Chosen(moves, d).0;
      var k := Hyper(s.farms[dep].herdSize, PlannedBatch(s, moves, d), FarmInfected(s, dep), d.hyper).value;
      CattleBatchSound(s, cfg, moves, d, k, time);
    }
  }

  /** Shipping keeps the herds that exist, and adds to the tally of infected cows moved
      exactly the cows it moved. */
  lemma ShipCowsTally(s: State, cfg: Config, dep: string, dest: string, batch: int, k: nat, d: MoveDraw, time: int)
    requires Sound(s) && dep in s.farms && 0 < k <= FarmInfected(s, dep)
    ensures var r := ShipCows(s, cfg, dep, dest, batch, k, d, time);
      r.Ok? ==>
        && r.value.state.farms.Keys == s.farms.Keys
        && r.value.state.infectedCowsMoved == s.infectedCowsMoved + r.value.infectedMoved
  {
    ShipCowsSettles(s, cfg, dep, dest, batch, k, d, time);
  }

  /** A cattle movement keeps the herds that exist, and adds to the tally of infected cows
      moved exactly the infected cows it moved. */
  lemma CattleBatchTally(s: State, cfg: Config, moves: seq<Move>, d: MoveDraw, k: nat, time: int)
    requires Sound(s) && |moves| > 0
    requires k <= FarmInfected(s, Chosen(moves, d).0)
    ensures var r := CattleBatch(s, cfg, moves, d, k, time);
      r.Ok? ==>
        && r.value.state.farms.Keys == s.farms.Keys
        && r.value.state.infectedCowsMoved == s.infectedCowsMoved + r.value.infectedMoved
  {
    var (dep, dest) := Chosen(moves, d);
    if dep in s.farms {
      CattleRecordKeepsSound(s, moves, d, k, time);
      if k > 0 {
        var s1 := s.(movements := s.movements + [CattleRecord(s, moves, d, k, time)]);
        ShipCowsTally(s1, cfg, dep, dest, PlannedBatch(s, moves, d), k, d, time);
      }
    }
  }

  lemma CattleMoveTally(s: State, cfg: Config, moves: seq<Move>, d: MoveDraw, time: int)
    requires Sound(s)
    ensures var r := CattleMove(s, cfg, moves, d, time);
      r.Ok? ==>
        && r.value.state.farms.Keys == s.farms.Keys
        && r.value.state.infectedCowsMoved == s.infectedCowsMoved + r.value.infectedMoved
  {
    var r := CattleMove(s, cfg, moves, d, time);
    if r.Ok? && |moves| > 0 && Goes(s, cfg, moves, d) {
      var dep := Chosen(moves, d).0;
      var k := Hyper(s.farms[dep].herdSize, PlannedBatch(s, moves, d), FarmInfected(s, dep), d.hyper).value;
      CattleBatchTally(s, cfg, moves, d, k, time);
    }
  }

  // ---------------------------------------------------------------------------
  // The cattle movement loop
  // ---------------------------------------------------------------------------

  /** Where a movement loop stands: the state, the animals moved so far and the infected
      animals moved so far. */
  datatype Run = Run(state: State, movedSoFar: int, infectedMoved: nat)

  /** Every known movement touches a restricted herd. */
  predicate AllRestricted(s: State, moves: seq<Move>)
  {
    forall i :: 0 <= i < |moves| ==> moves[i].0 in s.restrictedHerds || moves[i].1 in s.restrictedHerds
  }

  /** `doCattleMovements` without the slaughterhouse moves that follow it: iterations run,
      the i-th with `draws[i]`, until at least `quota` animals have moved. An iteration that
      moves nothing leaves the loop where it was, so a loop whose every known movement
      touches a restricted herd never ends; running out of draws before the quota is met
      stands for that and is an error. The tally of infected cows moved grows by the
      infected cows the loop moved (the source adds the loop's count once, at the end). */
  method CattleMovements(s: State, cfg: Config, moves: seq<Move>, quota: int, draws: seq<MoveDraw>, time: int)
    returns (r: Result<Run>)
    requires Sound(s)
    ensures r.Ok? ==> r.value.movedSoFar >= quota
    ensures r.Ok? ==> Sound(r.value.state) && Conserves(s, r.value.state)
    ensures r.Ok? ==> r.value.state.infectedCowsMoved == s.infectedCowsMoved + r.value.infectedMoved
    ensures r.Ok? ==> r.value.state.farms.Keys == s.farms.Keys
    ensures quota <= 0 ==> r == Ok(Run(s, 0, 0))
    ensures quota > 0 && AllRestricted(s, moves) ==> r.Err?
  {
    var u := s;
    var moved := 0;
    var infected: nat := 0;
    var i := 0;
    while moved < quota
      invariant 0 <= i <= |draws|
      invariant Sound(u) && Conserves(s, u) && u.farms.Keys == s.farms.Keys
      invariant u.infectedCowsMoved == s.infectedCowsMoved + infected
      invariant quota <= 0 ==> u == s && moved == 0 && infected == 0
      invariant AllRestricted(s, moves) ==> u == s && moved == 0
      decreases |draws| - i
    {
      if i == |draws| {
        return Err("the movement quota was not met");
      }
      var d := draws[i];
      var t := CattleMove(u, cfg, moves, d, time);
      if t.Err? {
        return Err(t.message);
      }
      CattleMoveSound(u, cfg, moves, d, time);
      CattleMoveTally(u, cfg, moves, d, time);
      if AllRestricted(s, moves) && |moves| > 0 {
        assert Chosen(moves, d) in moves;
      }
      u, moved, infected := t.value.state, moved + t.value.moved, infected + t.value.infectedMoved;
      i := i + 1;
    }
    r := Ok(Run(u, moved, infected));
  }
}

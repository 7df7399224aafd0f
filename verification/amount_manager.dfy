/** Performing a chosen event: progression inside a cow, or a transmission that creates a new
    infected animal (with fresh SNPs for the infector, a new vertex in the transmission tree
    and a count in the transmission tallies). */
module AmountManager {
  import opened Common
  import opened Units
  import opened Animals
  import opened Transmission
  import opened Settings
  import opened Scenario
  import opened Kernel

  /** The random draws one repetition of an event may consume: the Poisson SNP count for the
      infector, and the index behind the k-th `selectOneOf` of the destination search. */
  datatype EventDraw = EventDraw(poisson: nat, pick: nat -> nat)

  function Max(a: int, b: int): int { if a < b then b else a }

  /** How many animals a change created, by the id counters. */
  function Created(s: State, r: State): int
  {
    (r.nextCowId - s.nextCowId) + (r.nextBadgerId - s.nextBadgerId)
  }

  function Total(t: Transmissions): nat
  {
    t.cowCow + t.cowBadger + t.badgerCow + t.badgerBadger
  }

  // ---------------------------------------------------------------------------
  // The destination search of a cross-species transmission
  // ---------------------------------------------------------------------------

  /** The unit the k-th draw lands on. */
  function Drawn(conn: seq<string>, pick: nat -> nat, k: nat): string
    requires |conn| > 0
  {
    conn[pick(k) % |conn|]
  }

  /** The do/while search for a unit with a susceptible animal, from draw `j` on: a draw is
      taken and counted; once the count reaches the number of candidates the search gives up
      (before looking at that draw), otherwise a draw with room ends it. So the last draw is
      never used, and a single candidate is never chosen. */
  function PickFrom(conn: seq<string>, pick: nat -> nat, roomy: set<string>, j: nat): (r: Option<string>)
    requires j < |conn|
    ensures r.Some? ==> r.value in roomy && r.value in conn
    ensures j + 1 == |conn| ==> r.None?
    decreases |conn| - j
  {
    var u := Drawn(conn, pick, j);
    if j + 1 == |conn| then None
    else if u in roomy then Some(u)
    else PickFrom(conn, pick, roomy, j + 1)
  }

  /** The search fails exactly when none of the draws it looks at (all but the last) has room,
      and otherwise returns the first one that has. */
  lemma {:induction false} PickFromFirstRoomy(conn: seq<string>, pick: nat -> nat, roomy: set<string>, j: nat)
    requires j < |conn|
    ensures PickFrom(conn, pick, roomy, j).None? <==>
      forall k :: j <= k < |conn| - 1 ==> Drawn(conn, pick, k) !in roomy
    ensures PickFrom(conn, pick, roomy, j).Some? ==>
      exists k :: j <= k < |conn| - 1 && PickFrom(conn, pick, roomy, j).value == Drawn(conn, pick, k)
        && (forall m :: j <= m < k ==> Drawn(conn, pick, m) !in roomy)
    decreases |conn| - j
  {
    if j + 1 < |conn| && Drawn(conn, pick, j) !in roomy {
      PickFromFirstRoomy(conn, pick, roomy, j + 1);
      var r := PickFrom(conn, pick, roomy, j + 1);
      if r.Some? {
        var k :| j + 1 <= k < |conn| - 1 && r.value == Drawn(conn, pick, k)
          && (forall m :: j + 1 <= m < k ==> Drawn(conn, pick, m) !in roomy);
        assert forall m :: j <= m < k ==> Drawn(conn, pick, m) !in roomy;
      }
    }
  }

  // ---------------------------------------------------------------------------
  // What one repetition may change
  // ---------------------------------------------------------------------------

  /** Everything but the infected populations, the id and SNP counters, the tree and the
      transmission tallies is left alone. */
  predicate Frame(s: State, r: State)
  {
    && r.farms == s.farms && r.reservoirs == s.reservoirs
    && r.culledCows == s.culledCows && r.expiredBadgers == s.expiredBadgers
    && r.restrictedHerds == s.restrictedHerds && r.reactorsAtBreakdown == s.reactorsAtBreakdown
    && r.cattleTests == s.cattleTests && r.badgerTests == s.badgerTests
    && r.herdTests == s.herdTests && r.movements == s.movements
    && r.infectedCowsMoved == s.infectedCowsMoved && r.infectedBadgersMoved == s.infectedBadgersMoved
    && r.infectedCowsAtDeath == s.infectedCowsAtDeath && r.infectedBadgersAtDeath == s.infectedBadgersAtDeath
    && r.finishedPrematurely == s.finishedPrematurely && r.outbreakContained == s.outbreakContained
  }

  /** No animal or vertex disappears, the counters only move on, and every new id is counted
      in exactly one transmission tally. */
  predicate Monotone(s: State, r: State)
  {
    && s.cows.Keys <= r.cows.Keys && s.badgers.Keys <= r.badgers.Keys
    && s.nextCowId <= r.nextCowId && s.nextBadgerId <= r.nextBadgerId && s.lastSnp <= r.lastSnp
    && Total(r.transmissions) == Total(s.transmissions) + (r.nextCowId - s.nextCowId) + (r.nextBadgerId - s.nextBadgerId)
    && s.tree.nodes.Keys <= r.tree.nodes.Keys && s.tree.edges <= r.tree.edges
  }

  /** A unit's infected count only grows, and never past the unit's size unless it already
      was past it. */
  predicate Capacity(s: State, r: State)
  {
    && (forall f :: f in s.farms ==>
          FarmInfected(s, f) <= FarmInfected(r, f) <= Max(FarmInfected(s, f), s.farms[f].herdSize))
    && (forall u :: u in s.reservoirs ==>
          ReservoirInfected(s, u) <= ReservoirInfected(r, u) <= Max(ReservoirInfected(s, u), s.reservoirs[u].reservoirSize))
  }

  /** The effect of performing events, over any number of repetitions. */
  predicate Grows(s: State, r: State)
  {
    Frame(s, r) && Monotone(s, r) && Capacity(s, r)
  }

  lemma GrowsReflexive(s: State)
    ensures Grows(s, s)
  {
  }

  lemma GrowsTransitive(a: State, b: State, c: State)
    requires Grows(a, b) && Grows(b, c)
    ensures Grows(a, c)
  {
    assert b.farms == a.farms && b.reservoirs == a.reservoirs;
  }

  /** Infection lists untouched: capacity holds trivially. */
  lemma CapacityUnchanged(s: State, r: State)
    requires r.farms == s.farms && r.reservoirs == s.reservoirs
    requires r.farmInfections == s.farmInfections && r.reservoirInfections == s.reservoirInfections
    ensures Capacity(s, r)
  {
  }

  /** One id appended to a farm with room. */
  lemma CapacityAddToFarm(s: State, r: State, f: string, id: string)
    requires r.farms == s.farms && r.reservoirs == s.reservoirs && f in s.farms && f in s.farmInfections
    requires r.farmInfections == s.farmInfections[f := s.farmInfections[f] + [id]]
    requires r.reservoirInfections == s.reservoirInfections
    requires FarmInfected(s, f) < s.farms[f].herdSize
    ensures Capacity(s, r)
  {
    assert FarmInfected(r, f) == FarmInfected(s, f) + 1;
  }

  /** One id appended to a reservoir with room. */
  lemma CapacityAddToReservoir(s: State, r: State, u: string, id: string)
    requires r.farms == s.farms && r.reservoirs == s.reservoirs && u in s.reservoirs && u in s.reservoirInfections
    requires r.reservoirInfections == s.reservoirInfections[u := s.reservoirInfections[u] + [id]]
    requires r.farmInfections == s.farmInfections
    requires ReservoirInfected(s, u) < s.reservoirs[u].reservoirSize
    ensures Capacity(s, r)
  {
    assert ReservoirInfected(r, u) == ReservoirInfected(s, u) + 1;
  }

  // ---------------------------------------------------------------------------
  // The four kinds of transmission
  // ---------------------------------------------------------------------------

  /** Updating a cow's SNPs only moves the SNP counter on. */
  lemma UpdateCowSnpsGrows(s: State, cfg: Config, id: string, date: int, poisson: nat)
    requires Located(s) && Fresh(s) && id in s.cows && UpdateCowSnps(s, cfg, id, date, poisson).Ok?
    ensures var s1 := UpdateCowSnps(s, cfg, id, date, poisson).value;
      && Located(s1) && Fresh(s1) && Grows(s, s1) && s1.tree == s.tree
      && s1.nextCowId == s.nextCowId && s1.nextBadgerId == s.nextBadgerId && s1.transmissions == s.transmissions
      && s1.farmInfections == s.farmInfections && s1.reservoirInfections == s.reservoirInfections
      && s1.badgers == s.badgers
  {
    var s1 := UpdateCowSnps(s, cfg, id, date, poisson).value;
    UpdateSnpsLocated(s, cfg, id, date, poisson);
    CapacityUnchanged(s, s1);
  }

  /** Updating a badger's SNPs only moves the SNP counter on. */
  lemma UpdateBadgerSnpsGrows(s: State, cfg: Config, id: string, date: int, poisson: nat)
    requires Located(s) && Fresh(s) && id in s.badgers && UpdateBadgerSnps(s, cfg, id, date, poisson).Ok?
    ensures var s1 := UpdateBadgerSnps(s, cfg, id, date, poisson).value;
      && Located(s1) && Fresh(s1) && Grows(s, s1) && s1.tree == s.tree
      && s1.nextCowId == s.nextCowId && s1.nextBadgerId == s.nextBadgerId && s1.transmissions == s.transmissions
      && s1.farmInfections == s.farmInfections && s1.reservoirInfections == s.reservoirInfections
      && s1.cows == s.cows
  {
    var s1 := UpdateBadgerSnps(s, cfg, id, date, poisson).value;
    UpdateSnpsLocated(s, cfg, id, date, poisson);
    CapacityUnchanged(s, s1);
  }

  /** A new infected cow on `farmId`, caught from `parentId`, counted in the tally `tally`
      (the old tallies with one of them incremented). */
  function InfectCow(s1: State, parentId: string, farmId: string, snps: set<int>, day: int,
                     status: CowState, date: int, tally: Transmissions): (r: State)
    requires Located(s1) && Fresh(s1) && farmId in s1.farms && parentId in s1.tree.nodes
    requires FarmInfected(s1, farmId) < s1.farms[farmId].herdSize
    requires Total(tally) == Total(s1.transmissions) + 1
    ensures Located(r) && Fresh(r) && Grows(s1, r)
    ensures r.nextCowId == s1.nextCowId + 1 && r.nextBadgerId == s1.nextBadgerId
    ensures var id := CowId(r.nextCowId);
      && id !in s1.cows && id !in s1.tree.nodes
      && r.cows == s1.cows[id := NewCow(id, farmId, snps, day, status)]
      && r.badgers == s1.badgers
      && r.farmInfections == s1.farmInfections[farmId := s1.farmInfections[farmId] + [id]]
      && r.tree == AddChild(s1.tree, parentId, NewNode(id, farmId, snps, Some(date), None, true))
      && r.transmissions == tally
  {
    AddCowLocated(s1, parentId, farmId, snps, day, status, date);
    AddCowFresh(s1, parentId, farmId, snps, day, status, date);
    var r := AddCow(s1, parentId, farmId, snps, day, status, date).(transmissions := tally);
    CapacityAddToFarm(s1, r, farmId, CowId(r.nextCowId));
    r
  }

  /** A new infected badger in `reservoirId`, caught from `parentId`. */
  function InfectBadger(s1: State, parentId: string, reservoirId: string, snps: set<int>, day: int,
                        date: int, tally: Transmissions): (r: State)
    requires Located(s1) && Fresh(s1) && reservoirId in s1.reservoirs && parentId in s1.tree.nodes
    requires ReservoirInfected(s1, reservoirId) < s1.reservoirs[reservoirId].reservoirSize
    requires Total(tally) == Total(s1.transmissions) + 1
    ensures Located(r) && Fresh(r) && Grows(s1, r)
    ensures r.nextBadgerId == s1.nextBadgerId + 1 && r.nextCowId == s1.nextCowId
    ensures var id := BadgerId(r.nextBadgerId);
      && id !in s1.badgers && id !in s1.tree.nodes
      && r.badgers == s1.badgers[id := NewBadger(id, reservoirId, snps, day)]
      && r.cows == s1.cows
      && r.reservoirInfections == s1.reservoirInfections[reservoirId := s1.reservoirInfections[reservoirId] + [id]]
      && r.tree == AddChild(s1.tree, parentId, NewNode(id, reservoirId, snps, Some(date), None, false))
      && r.transmissions == tally
  {
    AddBadgerLocated(s1, parentId, reservoirId, snps, day, date);
    AddBadgerFresh(s1, parentId, reservoirId, snps, day, date);
    var r := AddBadger(s1, parentId, reservoirId, snps, day, date).(transmissions := tally);
    CapacityAddToReservoir(s1, r, reservoirId, BadgerId(r.nextBadgerId));
    r
  }

  /** One more step of the tally named by the event kind. */
  function CountCowCow(t: Transmissions): Transmissions { t.(cowCow := t.cowCow + 1) }
  function CountCowBadger(t: Transmissions): Transmissions { t.(cowBadger := t.cowBadger + 1) }
  function CountBadgerBadger(t: Transmissions): Transmissions { t.(badgerBadger := t.badgerBadger + 1) }
  function CountBadgerCow(t: Transmissions): Transmissions { t.(badgerCow := t.badgerCow + 1) }

  /** A cow infecting a cow on farm `f` (its own): the infector's SNPs are updated and a cow
      in compartment `status` carrying them is created on `f`. */
  function CowInfectsCowOn(s: State, cfg: Config, id: string, f: string, status: CowState, date: int, d: EventDraw): (r: Result<State>)
    requires Located(s) && Fresh(s) && id in s.cows && f in s.farms
    requires FarmInfected(s, f) < s.farms[f].herdSize
    ensures r.Ok? ==> Located(r.value) && Fresh(r.value) && Grows(s, r.value)
    ensures r.Ok? ==> Created(s, r.value) <= 1
    ensures r.Err? <==> UpdateCowSnps(s, cfg, id, date, d.poisson).Err?
  {
    var s1 :- UpdateCowSnps(s, cfg, id, date, d.poisson);
    UpdateCowSnpsGrows(s, cfg, id, date, d.poisson);
    var c := s1.cows[id];
    var r := InfectCow(s1, id, f, c.snps, c.lastSnpGeneration, status, date, CountCowCow(s1.transmissions));
    GrowsTransitive(s, s1, r);
    Ok(r)
  }

  /** What the new infection looks like: a fresh id, the infector's grown SNPs, a new vertex under
      the infector's, and one more count in the matching tally. */
  lemma CowInfectsCowOnEffect(s: State, cfg: Config, id: string, f: string, status: CowState, date: int, d: EventDraw)
    requires Located(s) && Fresh(s) && id in s.cows && f in s.farms
    requires FarmInfected(s, f) < s.farms[f].herdSize
    ensures var r := CowInfectsCowOn(s, cfg, id, f, status, date, d);
      r.Ok? ==>
        var n := CowId(r.value.nextCowId);
        var src := r.value.cows[id];
        && r.value.nextCowId == s.nextCowId + 1 && n !in s.cows && n !in s.tree.nodes
        && src == s.cows[id].(snps := src.snps, lastSnpGeneration := date) && s.cows[id].snps <= src.snps
        && r.value.cows == s.cows[id := src][n := NewCow(n, f, src.snps, date, status)]
        && r.value.farmInfections[f] == s.farmInfections[f] + [n]
        && (id, n) in r.value.tree.edges && r.value.tree.nodes[n] == NewNode(n, f, src.snps, Some(date), None, true)
        && r.value.transmissions == CountCowCow(s.transmissions)
  {
    if UpdateCowSnps(s, cfg, id, date, d.poisson).Ok? {
      UpdateCowSnpsGrows(s, cfg, id, date, d.poisson);
    }
  }

  /** A badger infecting a badger in reservoir `u` (its own). */
  function BadgerInfectsBadgerIn(s: State, cfg: Config, id: string, u: string, date: int, d: EventDraw): (r: Result<State>)
    requires Located(s) && Fresh(s) && id in s.badgers && u in s.reservoirs
    requires ReservoirInfected(s, u) < s.reservoirs[u].reservoirSize
    ensures r.Ok? ==> Located(r.value) && Fresh(r.value) && Grows(s, r.value)
    ensures r.Ok? ==> Created(s, r.value) <= 1
    ensures r.Err? <==> UpdateBadgerSnps(s, cfg, id, date, d.poisson).Err?
  {
    var s1 :- UpdateBadgerSnps(s, cfg, id, date, d.poisson);
    UpdateBadgerSnpsGrows(s, cfg, id, date, d.poisson);
    var b := s1.badgers[id];
    var r := InfectBadger(s1, id, u, b.snps, b.lastSnpGeneration, date, CountBadgerBadger(s1.transmissions));
    GrowsTransitive(s, s1, r);
    Ok(r)
  }

  lemma BadgerInfectsBadgerInEffect(s: State, cfg: Config, id: string, u: string, date: int, d: EventDraw)
    requires Located(s) && Fresh(s) && id in s.badgers && u in s.reservoirs
    requires ReservoirInfected(s, u) < s.reservoirs[u].reservoirSize
    ensures var r := BadgerInfectsBadgerIn(s, cfg, id, u, date, d);
      r.Ok? ==>
        var n := BadgerId(r.value.nextBadgerId);
        var src := r.value.badgers[id];
        && r.value.nextBadgerId == s.nextBadgerId + 1 && n !in s.badgers && n !in s.tree.nodes
        && src == s.badgers[id].(snps := src.snps, lastSnpGeneration := date) && s.badgers[id].snps <= src.snps
        && r.value.badgers == s.badgers[id := src][n := NewBadger(n, u, src.snps, date)]
        && r.value.reservoirInfections[u] == s.reservoirInfections[u] + [n]
        && (id, n) in r.value.tree.edges && r.value.tree.nodes[n] == NewNode(n, u, src.snps, Some(date), None, false)
        && r.value.transmissions == CountBadgerBadger(s.transmissions)
  {
    if UpdateBadgerSnps(s, cfg, id, date, d.poisson).Ok? {
      UpdateBadgerSnpsGrows(s, cfg, id, date, d.poisson);
    }
  }

  /** Cow to cow: the new infection lands on the infector's own farm when a susceptible is
      left there; otherwise nothing happens. */
  function CowToCow(s: State, cfg: Config, id: string, status: CowState, date: int, d: EventDraw): (r: Result<State>)
    requires Located(s) && Fresh(s) && id in s.cows
    ensures r.Ok? ==> Located(r.value) && Fresh(r.value) && Grows(s, r.value)
    ensures r.Ok? ==> Created(s, r.value) <= 1
    ensures var f := s.cows[id].farmId;
      && (FarmInfected(s, f) >= s.farms[f].herdSize ==> r == Ok(s))
      && (FarmInfected(s, f) < s.farms[f].herdSize ==> r == CowInfectsCowOn(s, cfg, id, f, status, date, d))
  {
    var f := s.cows[id].farmId;
    if FarmInfected(s, f) < s.farms[f].herdSize then CowInfectsCowOn(s, cfg, id, f, status, date, d)
    else (GrowsReflexive(s); Ok(s))
  }

  /** Badger to badger: the new infection lands in the infector's own reservoir when a
      susceptible is left there; otherwise nothing happens. */
  function BadgerToBadger(s: State, cfg: Config, id: string, date: int, d: EventDraw): (r: Result<State>)
    requires Located(s) && Fresh(s) && id in s.badgers
    ensures r.Ok? ==> Located(r.value) && Fresh(r.value) && Grows(s, r.value)
    ensures r.Ok? ==> Created(s, r.value) <= 1
    ensures var u := s.badgers[id].reservoirId;
      && (ReservoirInfected(s, u) >= s.reservoirs[u].reservoirSize ==> r == Ok(s))
      && (ReservoirInfected(s, u) < s.reservoirs[u].reservoirSize ==> r == BadgerInfectsBadgerIn(s, cfg, id, u, date, d))
  {
    var u := s.badgers[id].reservoirId;
    if ReservoirInfected(s, u) < s.reservoirs[u].reservoirSize then BadgerInfectsBadgerIn(s, cfg, id, u, date, d)
    else (GrowsReflexive(s); Ok(s))
  }

  /** A cow infecting a badger in the chosen reservoir `u`: the cow's SNPs are updated and
      a badger carrying them is created in `u`. */
  function CowInfectsBadgerIn(s: State, cfg: Config, id: string, u: string, date: int, d: EventDraw): (r: Result<State>)
    requires Located(s) && Fresh(s) && id in s.cows && u in s.reservoirs
    requires ReservoirInfected(s, u) < s.reservoirs[u].reservoirSize
    ensures r.Ok? ==> Located(r.value) && Fresh(r.value) && Grows(s, r.value)
    ensures r.Ok? ==> Created(s, r.value) <= 1
    ensures r.Err? <==> UpdateCowSnps(s, cfg, id, date, d.poisson).Err?
  {
    var s1 :- UpdateCowSnps(s, cfg, id, date, d.poisson);
    UpdateCowSnpsGrows(s, cfg, id, date, d.poisson);
    var c := s1.cows[id];
    var r := InfectBadger(s1, id, u, c.snps, c.lastSnpGeneration, date, CountCowBadger(s1.transmissions));
    GrowsTransitive(s, s1, r);
    Ok(r)
  }

  lemma CowInfectsBadgerInEffect(s: State, cfg: Config, id: string, u: string, date: int, d: EventDraw)
    requires Located(s) && Fresh(s) && id in s.cows && u in s.reservoirs
    requires ReservoirInfected(s, u) < s.reservoirs[u].reservoirSize
    ensures var r := CowInfectsBadgerIn(s, cfg, id, u, date, d);
      r.Ok? ==>
        var n := BadgerId(r.value.nextBadgerId);
        var src := r.value.cows[id];
        && r.value.nextBadgerId == s.nextBadgerId + 1 && n !in s.badgers && n !in s.tree.nodes
        && src == s.cows[id].(snps := src.snps, lastSnpGeneration := date) && s.cows[id].snps <= src.snps
        && r.value.badgers == s.badgers[n := NewBadger(n, u, src.snps, date)]
        && r.value.reservoirInfections[u] == s.reservoirInfections[u] + [n]
        && (id, n) in r.value.tree.edges && r.value.tree.nodes[n] == NewNode(n, u, src.snps, Some(date), None, false)
        && r.value.transmissions == CountCowBadger(s.transmissions)
  {
    if UpdateCowSnps(s, cfg, id, date, d.poisson).Ok? {
      UpdateCowSnpsGrows(s, cfg, id, date, d.poisson);
    }
  }

  /** A badger infecting a cow on the chosen farm `f`. */
  function BadgerInfectsCowOn(s: State, cfg: Config, id: string, f: string, status: CowState, date: int, d: EventDraw): (r: Result<State>)
    requires Located(s) && Fresh(s) && id in s.badgers && f in s.farms
    requires FarmInfected(s, f) < s.farms[f].herdSize
    ensures r.Ok? ==> Located(r.value) && Fresh(r.value) && Grows(s, r.value)
    ensures r.Ok? ==> Created(s, r.value) <= 1
    ensures r.Err? <==> UpdateBadgerSnps(s, cfg, id, date, d.poisson).Err?
  {
    var s1 :- UpdateBadgerSnps(s, cfg, id, date, d.poisson);
    UpdateBadgerSnpsGrows(s, cfg, id, date, d.poisson);
    var b := s1.badgers[id];
    var r := InfectCow(s1, id, f, b.snps, b.lastSnpGeneration, status, date, CountBadgerCow(s1.transmissions));
    GrowsTransitive(s, s1, r);
    Ok(r)
  }

  lemma BadgerInfectsCowOnEffect(s: State, cfg: Config, id: string, f: string, status: CowState, date: int, d: EventDraw)
    requires Located(s) && Fresh(s) && id in s.badgers && f in s.farms
    requires FarmInfected(s, f) < s.farms[f].herdSize
    ensures var r := BadgerInfectsCowOn(s, cfg, id, f, status, date, d);
      r.Ok? ==>
        var n := CowId(r.value.nextCowId);
        var src := r.value.badgers[id];
        && r.value.nextCowId == s.nextCowId + 1 && n !in s.cows && n !in s.tree.nodes
        && src == s.badgers[id].(snps := src.snps, lastSnpGeneration := date) && s.badgers[id].snps <= src.snps
        && r.value.cows == s.cows[n := NewCow(n, f, src.snps, date, status)]
        && r.value.farmInfections[f] == s.farmInfections[f] + [n]
        && (id, n) in r.value.tree.edges && r.value.tree.nodes[n] == NewNode(n, f, src.snps, Some(date), None, true)
        && r.value.transmissions == CountBadgerCow(s.transmissions)
  {
    if UpdateBadgerSnps(s, cfg, id, date, d.poisson).Ok? {
      UpdateBadgerSnpsGrows(s, cfg, id, date, d.poisson);
    }
  }

  /** Cow to badger: a reservoir connected to the infector's farm is searched for by
      `PickFrom`; the one found, if any, receives the new infection, and when none is found
      the event is dropped. A farm without any connected reservoir cannot be searched. */
  function CowToBadger(s: State, cfg: Config, id: string, date: int, d: EventDraw): (r: Result<State>)
    requires Located(s) && Covers(cfg, s) && Fresh(s) && id in s.cows
    ensures r.Ok? ==> Located(r.value) && Fresh(r.value) && Grows(s, r.value)
    ensures r.Ok? ==> Created(s, r.value) <= 1
    ensures var conn := cfg.farmReservoirs[s.cows[id].farmId];
      && (|conn| == 0 ==> r.Err?)
      && (|conn| > 0 ==>
            var pick := PickFrom(conn, d.pick, ReservoirsWithRoom(s), 0);
            && (pick.None? ==> r == Ok(s))
            && (pick.Some? ==>
                  && pick.value in s.reservoirs
                  && ReservoirInfected(s, pick.value) < s.reservoirs[pick.value].reservoirSize
                  && r == CowInfectsBadgerIn(s, cfg, id, pick.value, date, d)))
  {
    var conn := cfg.farmReservoirs[s.cows[id].farmId];
    if |conn| == 0 then Err("No reservoir is connected to the farm of the infecting cow.")
    else
      match PickFrom(conn, d.pick, ReservoirsWithRoom(s), 0)
      case None => Ok(s)
      case Some(u) => CowInfectsBadgerIn(s, cfg, id, u, date, d)
  }

  /** Badger to cow: a farm connected to the infector's reservoir is searched for by
      `PickFrom`; the one found, if any, receives the new infection, and when none is found
      the event is dropped. */
  function BadgerToCow(s: State, cfg: Config, id: string, status: CowState, date: int, d: EventDraw): (r: Result<State>)
    requires Located(s) && Fresh(s) && id in s.badgers
    ensures r.Ok? ==> Located(r.value) && Fresh(r.value) && Grows(s, r.value)
    ensures r.Ok? ==> Created(s, r.value) <= 1
    ensures var conn := s.reservoirs[s.badgers[id].reservoirId].connectedFarms;
      && (|conn| == 0 ==> r.Err?)
      && (|conn| > 0 ==>
            var pick := PickFrom(conn, d.pick, FarmsWithRoom(s), 0);
            && (pick.None? ==> r == Ok(s))
            && (pick.Some? ==>
                  && pick.value in s.farms
                  && FarmInfected(s, pick.value) < s.farms[pick.value].herdSize
                  && r == BadgerInfectsCowOn(s, cfg, id, pick.value, status, date, d)))
  {
    var conn := s.reservoirs[s.badgers[id].reservoirId].connectedFarms;
    if |conn| == 0 then Err("No farm is connected to the reservoir of the infecting badger.")
    else
      match PickFrom(conn, d.pick, FarmsWithRoom(s), 0)
      case None => Ok(s)
      case Some(f) => BadgerInfectsCowOn(s, cfg, id, f, status, date, d)
  }

  /** Disease progress in a cow: only its compartment changes. */
  function Progress(s: State, id: string, status: CowState): (r: State)
    requires Located(s) && Fresh(s) && id in s.cows
    ensures Located(r) && Fresh(r) && Grows(s, r) && Created(s, r) == 0 && r.cows.Keys == s.cows.Keys
    ensures r.cows[id].status == status
    ensures r.cows[id].(status := s.cows[id].status) == s.cows[id]
    ensures r.(cows := s.cows) == s
  {
    var r := s.(cows := s.cows[id := s.cows[id].(status := status)]);
    CapacityUnchanged(s, r);
    r
  }

  lemma ProgressIdempotent(s: State, id: string, status: CowState)
    requires Located(s) && Fresh(s) && id in s.cows
    ensures Progress(Progress(s, id, status), id, status) == Progress(s, id, status)
  {
    var s1 := Progress(s, id, status);
    assert s1.cows[id := s1.cows[id].(status := status)] == s1.cows;
  }

  /** One repetition of an event started by a live cow. */
  function PerformFromCow(s: State, cfg: Config, id: string, target: Target, date: int, d: EventDraw): (r: Result<State>)
    requires Located(s) && Covers(cfg, s) && Fresh(s) && id in s.cows
    ensures r.Ok? ==> Located(r.value) && Fresh(r.value) && Grows(s, r.value) && Created(s, r.value) <= 1
  {
    match target
    case CowTarget(tid, _, status) =>
      if tid == "" then CowToCow(s, cfg, id, status, date, d) else Ok(Progress(s, id, status))
    case BadgerTarget(_, _) => CowToBadger(s, cfg, id, date, d)
  }

  /** One repetition of an event started by a live badger. */
  function PerformFromBadger(s: State, cfg: Config, id: string, target: Target, date: int, d: EventDraw): (r: Result<State>)
    requires Located(s) && Covers(cfg, s) && Fresh(s) && id in s.badgers
    ensures r.Ok? ==> Located(r.value) && Fresh(r.value) && Grows(s, r.value) && Created(s, r.value) <= 1
  {
    match target
    case BadgerTarget(tid, _) =>
      if tid == "" then BadgerToBadger(s, cfg, id, date, d) else (GrowsReflexive(s); Ok(s))
    case CowTarget(_, _, status) => BadgerToCow(s, cfg, id, status, date, d)
  }

  /** One repetition of an event, dispatched on the kinds of its two ends. An event whose
      infector is no longer alive (culled or dead since the kernel was built) does nothing,
      and so does a badger-to-badger event naming an existing badger. */
  function PerformOnce(s: State, cfg: Config, ev: Event, date: int, d: EventDraw): (r: Result<State>)
    requires Located(s) && Covers(cfg, s) && Fresh(s)
    ensures r.Ok? ==> Located(r.value) && Fresh(r.value) && Grows(s, r.value) && Created(s, r.value) <= 1
  {
    match ev.source
    case CowSource(id) =>
      if id !in s.cows then (GrowsReflexive(s); Ok(s)) else PerformFromCow(s, cfg, id, ev.target, date, d)
    case BadgerSource(id) =>
      if id !in s.badgers then (GrowsReflexive(s); Ok(s)) else PerformFromBadger(s, cfg, id, ev.target, date, d)
  }

  /** `performEvent(event, times)`: the event repeated once per draw, stopping at the first
      error. Over all repetitions, no more animals are created than there are repetitions. */
  function PerformEvent(s: State, cfg: Config, ev: Event, date: int, draws: seq<EventDraw>): (r: Result<State>)
    requires Located(s) && Covers(cfg, s) && Fresh(s)
    ensures r.Ok? ==> Located(r.value) && Covers(cfg, r.value) && Fresh(r.value) && Grows(s, r.value)
    ensures r.Ok? ==> Created(s, r.value) <= |draws|
    decreases |draws|
  {
    if |draws| == 0 then Ok(s)
    else
      var s1 :- PerformOnce(s, cfg, ev, date, draws[0]);
      var r := PerformEvent(s1, cfg, ev, date, draws[1..]);
      if r.Ok? then
        GrowsTransitive(s, s1, r.value);
        r
      else r
  }

  /** An event that does nothing once does nothing however often it is repeated. */
  lemma {:induction false} RepeatIdle(s: State, cfg: Config, ev: Event, date: int, draws: seq<EventDraw>)
    requires Located(s) && Covers(cfg, s) && Fresh(s)
    requires forall d :: PerformOnce(s, cfg, ev, date, d) == Ok(s)
    ensures PerformEvent(s, cfg, ev, date, draws) == Ok(s)
    decreases |draws|
  {
    if |draws| > 0 {
      RepeatIdle(s, cfg, ev, date, draws[1..]);
      assert PerformOnce(s, cfg, ev, date, draws[0]) == Ok(s);
    }
  }

  /** An event whose infector has gone does nothing, however often it is repeated. */
  lemma PerformMissingSource(s: State, cfg: Config, ev: Event, date: int, draws: seq<EventDraw>)
    requires Located(s) && Covers(cfg, s) && Fresh(s)
    requires match ev.source
      case CowSource(id) => id !in s.cows
      case BadgerSource(id) => id !in s.badgers
    ensures PerformEvent(s, cfg, ev, date, draws) == Ok(s)
  {
    RepeatIdle(s, cfg, ev, date, draws);
  }

  /** One repetition of a progression event is the progression itself. */
  lemma ProgressionOnce(s: State, cfg: Config, id: string, tid: string, unit: string, status: CowState,
                        date: int, d: EventDraw)
    requires Located(s) && Covers(cfg, s) && Fresh(s) && id in s.cows && tid != ""
    ensures PerformOnce(s, cfg, Event(CowSource(id), CowTarget(tid, unit, status)), date, d) == Ok(Progress(s, id, status))
    ensures Covers(cfg, Progress(s, id, status))
  {
    var r := Progress(s, id, status);
    assert r.farms == s.farms && r.reservoirs == s.reservoirs;
  }

  /** A progression event moves its cow to the target compartment once, and repeating it
      changes nothing more. */
  lemma PerformProgression(s: State, cfg: Config, id: string, tid: string, unit: string,
                           status: CowState, date: int, draws: seq<EventDraw>)
    requires Located(s) && Covers(cfg, s) && Fresh(s) && id in s.cows && tid != ""
    ensures PerformEvent(s, cfg, Event(CowSource(id), CowTarget(tid, unit, status)), date, draws)
      == Ok(if |draws| == 0 then s else Progress(s, id, status))
  {
    if |draws| > 0 {
      var ev := Event(CowSource(id), CowTarget(tid, unit, status));
      var s1 := Progress(s, id, status);
      ProgressionOnce(s, cfg, id, tid, unit, status, date, draws[0]);
      forall d ensures PerformOnce(s1, cfg, ev, date, d) == Ok(s1) {
        ProgressionOnce(s1, cfg, id, tid, unit, status, date, d);
        ProgressIdempotent(s, id, status);
      }
      RepeatIdle(s1, cfg, ev, date, draws[1..]);
    }
  }

  /** A badger-to-badger event naming an existing badger (a progression, which badgers do not
      have) does nothing. */
  lemma PerformBadgerProgression(s: State, cfg: Config, id: string, tid: string, unit: string,
                                 date: int, draws: seq<EventDraw>)
    requires Located(s) && Covers(cfg, s) && Fresh(s) && tid != ""
    ensures PerformEvent(s, cfg, Event(BadgerSource(id), BadgerTarget(tid, unit)), date, draws) == Ok(s)
  {
    var ev := Event(BadgerSource(id), BadgerTarget(tid, unit));
    forall d ensures PerformOnce(s, cfg, ev, date, d) == Ok(s) {
    }
    RepeatIdle(s, cfg, ev, date, draws);
  }
}

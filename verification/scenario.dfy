/** The population state of one simulated scenario: units, the infected animals in them, the
    transmission tree, the id counters, and everything that is recorded along the way. Java's
    object graph becomes one value; an animal is referred to by its id, so the per-unit lists
    hold ids and the live maps hold the animals. */
module Scenario {
  import opened Common
  import opened Units
  import opened Animals
  import opened Transmission
  import opened Records
  import opened Settings

  /** How many infections of each kind have happened. */
  datatype Transmissions = Transmissions(cowCow: nat, cowBadger: nat, badgerCow: nat, badgerBadger: nat)

  /** Settings that stay fixed for a scenario. `farmReservoirs` lists, per farm, the ids of
      the reservoirs it is connected to. */
  datatype Config = Config(
    farmReservoirs: map<string, seq<string>>,
    includeReservoir: bool,
    herdSizeFlex: bool,
    reservoirSizeFlex: bool,
    startDate: int,
    endDate: int,
    stepSize: int,
    maxInfectedCows: int,
    maxInfectedBadgers: int,
    mutationRate: real)

  datatype State = State(
    farms: map<string, Farm>,
    reservoirs: map<string, Reservoir>,
    farmInfections: map<string, seq<string>>,
    reservoirInfections: map<string, seq<string>>,
    cows: map<string, Cow>,
    badgers: map<string, Badger>,
    culledCows: map<string, Cow>,
    expiredBadgers: map<string, Badger>,
    restrictedHerds: map<string, int>,
    nextCowId: nat,
    nextBadgerId: nat,
    lastSnp: nat,
    tree: Tree,
    transmissions: Transmissions,
    reactorsAtBreakdown: Distribution,
    cattleTests: seq<CattleTest>,
    badgerTests: seq<RecordBadger>,
    herdTests: seq<HerdTest>,
    movements: seq<RecordMovement>,
    infectedCowsMoved: int,
    infectedBadgersMoved: int,
    infectedCowsAtDeath: int,
    infectedBadgersAtDeath: int,
    finishedPrematurely: bool,
    outbreakContained: nat)

  /** Every lookup the simulator makes without a null check succeeds: each unit has an
      infection list, each live animal is stored under its own id, sits in a known unit and
      has a tree vertex. */
  predicate Located(s: State)
  {
    && WellFormed(s.tree)
    && s.farms.Keys == s.farmInfections.Keys
    && s.reservoirs.Keys == s.reservoirInfections.Keys
    && (forall id :: id in s.cows ==> s.cows[id].id == id && s.cows[id].farmId in s.farms && id in s.tree.nodes)
    && (forall id :: id in s.badgers ==>
          s.badgers[id].id == id && s.badgers[id].reservoirId in s.reservoirs && id in s.tree.nodes)
  }

  /** Each reservoir's connected farms exist. The reservoir definitions store the farm ids
      untrimmed, so this can fail; only the reservoir paths look these ids up. */
  predicate Connected(s: State)
  {
    forall r :: r in s.reservoirs ==> forall f :: f in s.reservoirs[r].connectedFarms ==> f in s.farms
  }

  /** Every farm has a (possibly empty) list of connected reservoirs, all of which exist,
      and with the reservoir included every connected farm of a reservoir exists. */
  predicate Covers(cfg: Config, s: State)
  {
    && (forall f :: f in s.farms ==> f in cfg.farmReservoirs)
    && (forall f :: f in cfg.farmReservoirs ==> forall r :: r in cfg.farmReservoirs[f] ==> r in s.reservoirs)
    && (cfg.includeReservoir ==> Connected(s))
  }

  /** Infected count and unit size of a farm (a map get in the source). */
  function FarmInfected(s: State, f: string): nat
  {
    if f in s.farmInfections then |s.farmInfections[f]| else 0
  }

  function ReservoirInfected(s: State, r: string): nat
  {
    if r in s.reservoirInfections then |s.reservoirInfections[r]| else 0
  }

  /** Farms with at least one susceptible animal: fewer infected than the herd size. */
  function FarmsWithRoom(s: State): (r: set<string>)
    ensures forall f :: f in r <==> f in s.farms && FarmInfected(s, f) < s.farms[f].herdSize
  {
    set f | f in s.farms && FarmInfected(s, f) < s.farms[f].herdSize
  }

  function ReservoirsWithRoom(s: State): (r: set<string>)
    ensures forall u :: u in r <==> u in s.reservoirs && ReservoirInfected(s, u) < s.reservoirs[u].reservoirSize
  {
    set u | u in s.reservoirs && ReservoirInfected(s, u) < s.reservoirs[u].reservoirSize
  }

  // ---------------------------------------------------------------------------
  // Mutations of one animal
  // ---------------------------------------------------------------------------

  /** `updateSnps` on a cow: the cow gains the next batch of SNP ids and its last generation
      date becomes `date`. The tree keeps the SNP snapshot its vertex was built with. */
  function UpdateCowSnps(s: State, cfg: Config, id: string, date: int, poisson: nat): (r: Result<State>)
    requires id in s.cows
    ensures var c := s.cows[id];
      r.Err? <==> NextSnps(cfg.mutationRate, date, c.lastSnpGeneration, s.lastSnp, poisson).Err?
    ensures r.Ok? ==>
      var c := s.cows[id];
      var batch := NextSnps(cfg.mutationRate, date, c.lastSnpGeneration, s.lastSnp, poisson).value;
      && r.value.cows.Keys == s.cows.Keys
      && r.value.cows[id] == c.(snps := c.snps + batch.snps, lastSnpGeneration := date)
      && r.value.lastSnp == batch.counter
      && (forall k :: k in s.cows && k != id ==> r.value.cows[k] == s.cows[k])
      && r.value.(cows := s.cows, lastSnp := s.lastSnp) == s
  {
    var c := s.cows[id];
    var batch :- NextSnps(cfg.mutationRate, date, c.lastSnpGeneration, s.lastSnp, poisson);
    Ok(s.(cows := s.cows[id := c.(snps := c.snps + batch.snps, lastSnpGeneration := date)], lastSnp := batch.counter))
  }

  /** `updateSnps` on a badger. */
  function UpdateBadgerSnps(s: State, cfg: Config, id: string, date: int, poisson: nat): (r: Result<State>)
    requires id in s.badgers
    ensures var b := s.badgers[id];
      r.Err? <==> NextSnps(cfg.mutationRate, date, b.lastSnpGeneration, s.lastSnp, poisson).Err?
    ensures r.Ok? ==>
      var b := s.badgers[id];
      var batch := NextSnps(cfg.mutationRate, date, b.lastSnpGeneration, s.lastSnp, poisson).value;
      && r.value.badgers.Keys == s.badgers.Keys
      && r.value.badgers[id] == b.(snps := b.snps + batch.snps, lastSnpGeneration := date)
      && r.value.lastSnp == batch.counter
      && (forall k :: k in s.badgers && k != id ==> r.value.badgers[k] == s.badgers[k])
      && r.value.(badgers := s.badgers, lastSnp := s.lastSnp) == s
  {
    var b := s.badgers[id];
    var batch :- NextSnps(cfg.mutationRate, date, b.lastSnpGeneration, s.lastSnp, poisson);
    Ok(s.(badgers := s.badgers[id := b.(snps := b.snps + batch.snps, lastSnpGeneration := date)], lastSnp := batch.counter))
  }

  /** Updating SNPs keeps every lookup valid. */
  lemma UpdateSnpsLocated(s: State, cfg: Config, id: string, date: int, poisson: nat)
    requires Located(s)
    ensures id in s.cows && UpdateCowSnps(s, cfg, id, date, poisson).Ok? ==>
      Located(UpdateCowSnps(s, cfg, id, date, poisson).value)
    ensures id in s.badgers && UpdateBadgerSnps(s, cfg, id, date, poisson).Ok? ==>
      Located(UpdateBadgerSnps(s, cfg, id, date, poisson).value)
  {
  }

  // ---------------------------------------------------------------------------
  // New infections
  // ---------------------------------------------------------------------------

  /** `getNextCowId` followed by creating the cow on `farmId`, listing it on the farm, storing
      it in the live map and hanging its vertex (infected on `date`, not yet detected) under
      the infector's vertex. */
  function AddCow(s: State, parentId: string, farmId: string, snps: set<int>, day: int,
                  status: CowState, date: int): (r: State)
    requires farmId in s.farmInfections
    requires WellFormed(s.tree) && parentId in s.tree.nodes
    ensures r.nextCowId == s.nextCowId + 1
    ensures var id := CowId(r.nextCowId);
      && (forall k :: 1 <= k <= s.nextCowId ==> id != CowId(k))
      && r.cows == s.cows[id := NewCow(id, farmId, snps, day, status)]
      && r.farmInfections == s.farmInfections[farmId := s.farmInfections[farmId] + [id]]
      && r.tree == AddChild(s.tree, parentId, NewNode(id, farmId, snps, Some(date), None, true))
    ensures r.(cows := s.cows, farmInfections := s.farmInfections, tree := s.tree, nextCowId := s.nextCowId) == s
  {
    var n := s.nextCowId + 1;
    var id := CowId(n);
    forall k | 1 <= k <= s.nextCowId
      ensures id != CowId(k)
    {
      IdsInjective(n, k);
    }
    var cow := NewCow(id, farmId, snps, day, status);
    s.(cows := s.cows[id := cow],
       farmInfections := s.farmInfections[farmId := s.farmInfections[farmId] + [id]],
       tree := AddChild(s.tree, parentId, NewNode(id, farmId, snps, Some(date), None, true)),
       nextCowId := n)
  }

  /** `getNextBadgerId` followed by creating the badger in `reservoirId`. */
  function AddBadger(s: State, parentId: string, reservoirId: string, snps: set<int>, day: int,
                     date: int): (r: State)
    requires reservoirId in s.reservoirInfections
    requires WellFormed(s.tree) && parentId in s.tree.nodes
    ensures r.nextBadgerId == s.nextBadgerId + 1
    ensures var id := BadgerId(r.nextBadgerId);
      && (forall k :: 1 <= k <= s.nextBadgerId ==> id != BadgerId(k))
      && r.badgers == s.badgers[id := NewBadger(id, reservoirId, snps, day)]
      && r.reservoirInfections == s.reservoirInfections[reservoirId := s.reservoirInfections[reservoirId] + [id]]
      && r.tree == AddChild(s.tree, parentId, NewNode(id, reservoirId, snps, Some(date), None, false))
    ensures r.(badgers := s.badgers, reservoirInfections := s.reservoirInfections, tree := s.tree,
               nextBadgerId := s.nextBadgerId) == s
  {
    var n := s.nextBadgerId + 1;
    var id := BadgerId(n);
    forall k | 1 <= k <= s.nextBadgerId
      ensures id != BadgerId(k)
    {
      IdsInjective(n, k);
    }
    var badger := NewBadger(id, reservoirId, snps, day);
    s.(badgers := s.badgers[id := badger],
       reservoirInfections := s.reservoirInfections[reservoirId := s.reservoirInfections[reservoirId] + [id]],
       tree := AddChild(s.tree, parentId, NewNode(id, reservoirId, snps, Some(date), None, false)),
       nextBadgerId := n)
  }

  /** A new infection in a known unit keeps every lookup valid. */
  lemma AddCowLocated(s: State, parentId: string, farmId: string, snps: set<int>, day: int,
                      status: CowState, date: int)
    requires Located(s) && parentId in s.tree.nodes && farmId in s.farms
    ensures Located(AddCow(s, parentId, farmId, snps, day, status, date))
  {
    var r := AddCow(s, parentId, farmId, snps, day, status, date);
    assert r.farmInfections.Keys == s.farmInfections.Keys;
  }

  lemma AddBadgerLocated(s: State, parentId: string, reservoirId: string, snps: set<int>, day: int, date: int)
    requires Located(s) && parentId in s.tree.nodes && reservoirId in s.reservoirs
    ensures Located(AddBadger(s, parentId, reservoirId, snps, day, date))
  {
    var r := AddBadger(s, parentId, reservoirId, snps, day, date);
    assert r.reservoirInfections.Keys == s.reservoirInfections.Keys;
  }

  /** The id counters are ahead of every id in use: no id a later `getNextCowId` or
      `getNextBadgerId` produces has a vertex yet (and so, by Located, no live animal). */
  ghost predicate Fresh(s: State)
  {
    && (forall k: nat :: k > s.nextCowId ==> CowId(k) !in s.tree.nodes)
    && (forall k: nat :: k > s.nextBadgerId ==> BadgerId(k) !in s.tree.nodes)
  }

  /** A new cow takes an id nobody has and keeps the counters ahead. */
  lemma AddCowFresh(s: State, parentId: string, farmId: string, snps: set<int>, day: int,
                    status: CowState, date: int)
    requires Located(s) && Fresh(s) && parentId in s.tree.nodes && farmId in s.farmInfections
    ensures CowId(s.nextCowId + 1) !in s.tree.nodes && CowId(s.nextCowId + 1) !in s.cows
    ensures Fresh(AddCow(s, parentId, farmId, snps, day, status, date))
  {
    var n := s.nextCowId + 1;
    var r := AddCow(s, parentId, farmId, snps, day, status, date);
    assert r.tree.nodes.Keys == s.tree.nodes.Keys + {CowId(n)};
    forall k: nat | k > n ensures CowId(k) !in r.tree.nodes {
      IdsInjective(k, n);
    }
    forall k: nat | k > s.nextBadgerId ensures BadgerId(k) !in r.tree.nodes {
      IdsInjective(n, k);
    }
  }

  /** A new badger takes an id nobody has and keeps the counters ahead. */
  lemma AddBadgerFresh(s: State, parentId: string, reservoirId: string, snps: set<int>, day: int, date: int)
    requires Located(s) && Fresh(s) && parentId in s.tree.nodes && reservoirId in s.reservoirInfections
    ensures BadgerId(s.nextBadgerId + 1) !in s.tree.nodes && BadgerId(s.nextBadgerId + 1) !in s.badgers
    ensures Fresh(AddBadger(s, parentId, reservoirId, snps, day, date))
  {
    var m := s.nextBadgerId + 1;
    var r := AddBadger(s, parentId, reservoirId, snps, day, date);
    assert r.tree.nodes.Keys == s.tree.nodes.Keys + {BadgerId(m)};
    forall k: nat | k > m ensures BadgerId(k) !in r.tree.nodes {
      IdsInjective(k, m);
    }
    forall k: nat | k > s.nextCowId ensures CowId(k) !in r.tree.nodes {
      IdsInjective(k, m);
    }
  }

  // ---------------------------------------------------------------------------
  // Scenario initialisation
  // ---------------------------------------------------------------------------

  /** One herd drawn for initial restriction: how many clear tests it has had (0 or 1) and
      how many days before the start its last test was. */
  datatype RestrictionDraw = RestrictionDraw(farmId: string, clearTests: int, daysBack: int)

  /** The dates a restricted herd starts with: with no clear test yet, the last test was
      positive; with one, it was clear. */
  predicate RestrictedAsDrawn(before: Farm, after: Farm, start: int, d: RestrictionDraw)
  {
    && after.(lastClearTestDate := before.lastClearTestDate, lastPositiveTestDate := before.lastPositiveTestDate) == before
    && (d.clearTests == 0 ==> after.lastClearTestDate == UNSET && after.lastPositiveTestDate == start - d.daysBack)
    && (d.clearTests != 0 ==> after.lastClearTestDate == start - d.daysBack && after.lastPositiveTestDate == UNSET)
  }

  /** The two parts of the state the initial restrictions touch. */
  datatype Herds = Herds(farms: map<string, Farm>, restricted: map<string, int>)

  function RestrictInitially(h: Herds, start: int, d: RestrictionDraw): Herds
    requires d.farmId in h.farms
  {
    var f := h.farms[d.farmId];
    var date := start - d.daysBack;
    var g := if d.clearTests == 0 then f.(lastClearTestDate := UNSET, lastPositiveTestDate := date)
             else f.(lastClearTestDate := date, lastPositiveTestDate := UNSET);
    Herds(h.farms[d.farmId := g], h.restricted[d.farmId := d.clearTests])
  }

  /** Each selected herd in turn is put under restriction with its drawn clear-test count and
      matching dates. */
  function RestrictAll(h: Herds, start: int, draws: seq<RestrictionDraw>): (r: Herds)
    requires forall i :: 0 <= i < |draws| ==> draws[i].farmId in h.farms
    ensures r.farms.Keys == h.farms.Keys
    decreases |draws|
  {
    if |draws| == 0 then h
    else RestrictAll(RestrictInitially(h, start, draws[0]), start, draws[1..])
  }

  /** A herd that is not drawn keeps its farm record and its restriction entry (or its
      absence of one). */
  lemma {:induction false} RestrictAllUntouched(h: Herds, start: int, draws: seq<RestrictionDraw>, id: string)
    requires forall i :: 0 <= i < |draws| ==> draws[i].farmId in h.farms
    requires forall i :: 0 <= i < |draws| ==> draws[i].farmId != id
    ensures var r := RestrictAll(h, start, draws);
      && (id in h.farms ==> r.farms[id] == h.farms[id])
      && (id in r.restricted <==> id in h.restricted)
      && (id in h.restricted ==> r.restricted[id] == h.restricted[id])
    decreases |draws|
  {
    if |draws| > 0 {
      var rest := draws[1..];
      assert forall i :: 0 <= i < |rest| ==> rest[i] == draws[i + 1];
      assert draws[0].farmId != id;
      RestrictAllUntouched(RestrictInitially(h, start, draws[0]), start, rest, id);
    }
  }

  /** With distinct selected herds (a selection from the key set is), every selected herd ends
      up restricted exactly as drawn. */
  lemma {:induction false} RestrictAllAsDrawn(h: Herds, start: int, draws: seq<RestrictionDraw>)
    requires forall i :: 0 <= i < |draws| ==> draws[i].farmId in h.farms
    requires forall i, j :: 0 <= i < j < |draws| ==> draws[i].farmId != draws[j].farmId
    ensures var r := RestrictAll(h, start, draws);
      forall i :: 0 <= i < |draws| ==>
        && draws[i].farmId in r.restricted
        && r.restricted[draws[i].farmId] == draws[i].clearTests
        && RestrictedAsDrawn(h.farms[draws[i].farmId], r.farms[draws[i].farmId], start, draws[i])
    decreases |draws|
  {
    if |draws| > 0 {
      var d := draws[0];
      var h1 := RestrictInitially(h, start, d);
      var rest := draws[1..];
      assert forall i :: 0 <= i < |rest| ==> rest[i] == draws[i + 1];
      RestrictAllAsDrawn(h1, start, rest);
      var r := RestrictAll(h1, start, rest);
      assert r == RestrictAll(h, start, draws);
      forall i | 0 <= i < |draws|
        ensures && draws[i].farmId in r.restricted
                && r.restricted[draws[i].farmId] == draws[i].clearTests
                && RestrictedAsDrawn(h.farms[draws[i].farmId], r.farms[draws[i].farmId], start, draws[i])
      {
        if i > 0 {
          assert draws[i] == rest[i - 1];
          assert draws[0].farmId != draws[i].farmId;
          assert h1.farms[draws[i].farmId] == h.farms[draws[i].farmId];
        } else {
          forall j | 0 <= j < |rest| ensures rest[j].farmId != d.farmId {
            assert rest[j] == draws[j + 1];
          }
          RestrictAllUntouched(h1, start, rest, d.farmId);
        }
      }
    }
  }

  /** `initialiseMovementRestrictions`: only the herds and the restriction map change. */
  function InitialiseMovementRestrictions(s: State, start: int, draws: seq<RestrictionDraw>): (r: State)
    requires forall i :: 0 <= i < |draws| ==> draws[i].farmId in s.farms
    ensures var h := RestrictAll(Herds(s.farms, s.restrictedHerds), start, draws);
      r.farms == h.farms && r.restrictedHerds == h.restricted
    ensures r.(farms := s.farms, restrictedHerds := s.restrictedHerds) == s
  {
    var h := RestrictAll(Herds(s.farms, s.restrictedHerds), start, draws);
    s.(farms := h.farms, restrictedHerds := h.restricted)
  }

  /** `setFarmLastTestDate`: every herd not under restriction had its last clear test
      `back(id)` days before the start; restricted herds keep the dates they were given. */
  function SetFarmLastTestDate(s: State, start: int, back: string -> int): (r: State)
    ensures r.farms.Keys == s.farms.Keys
    ensures forall id :: id in s.farms && id in s.restrictedHerds ==> r.farms[id] == s.farms[id]
    ensures forall id :: id in s.farms && id !in s.restrictedHerds ==>
      && r.farms[id].lastClearTestDate == start - back(id)
      && r.farms[id].(lastClearTestDate := s.farms[id].lastClearTestDate) == s.farms[id]
    ensures r.(farms := s.farms) == s
  {
    s.(farms := map id | id in s.farms ::
         if id in s.restrictedHerds then s.farms[id] else s.farms[id].(lastClearTestDate := start - back(id)))
  }

  /** The vertices `createTransmissionTree` adds: ROOT first, then the cows, then the badgers;
      adding a vertex whose id is already present does nothing, so ROOT wins over an animal
      of that name and a cow over a badger. Each vertex snapshots the animal's SNPs. */
  function SeedNodes(cows: map<string, Cow>, badgers: map<string, Badger>): (nodes: map<string, Node>)
    ensures nodes.Keys == cows.Keys + badgers.Keys + {ROOT_ID}
    ensures forall k :: k in nodes ==> nodes[k].id == k
    ensures nodes[ROOT_ID] == NewNode(ROOT_ID, ROOT_ID, {}, None, None, false)
    ensures forall k :: k in cows && k != ROOT_ID ==>
      nodes[k] == NewNode(k, cows[k].farmId, cows[k].snps, None, None, true)
    ensures forall k :: k in badgers && k !in cows && k != ROOT_ID ==>
      nodes[k] == NewNode(k, badgers[k].reservoirId, badgers[k].snps, None, None, false)
  {
    map k | k in cows.Keys + badgers.Keys + {ROOT_ID} ::
      if k == ROOT_ID then NewNode(ROOT_ID, ROOT_ID, {}, None, None, false)
      else if k in cows then NewNode(k, cows[k].farmId, cows[k].snps, None, None, true)
      else NewNode(k, badgers[k].reservoirId, badgers[k].snps, None, None, false)
  }

  /** One edge from ROOT to every seeded animal. */
  function SeedEdges(cows: map<string, Cow>, badgers: map<string, Badger>): (edges: set<(string, string)>)
    ensures forall e :: e in edges <==> e.0 == ROOT_ID && (e.1 in cows || e.1 in badgers)
  {
    set k | k in cows.Keys + badgers.Keys :: (ROOT_ID, k)
  }

  /** `createTransmissionTree`: the seeded vertices and edges form a well-formed tree. */
  function CreateTransmissionTree(cows: map<string, Cow>, badgers: map<string, Badger>): (t: Tree)
    ensures WellFormed(t)
    ensures t.nodes.Keys == cows.Keys + badgers.Keys + {ROOT_ID}
  {
    Tree(SeedNodes(cows, badgers), SeedEdges(cows, badgers))
  }

  /** Every seeded animal is reachable from ROOT in one step, and no vertex other than ROOT
      has a parent. */
  lemma SeededAnimalsHangFromRoot(cows: map<string, Cow>, badgers: map<string, Badger>, k: string)
    requires k in cows || k in badgers
    ensures var t := CreateTransmissionTree(cows, badgers);
      && Reaches(t, ROOT_ID, k)
      && (forall e :: e in t.edges ==> e.0 == ROOT_ID)
  {
    var t := CreateTransmissionTree(cows, badgers);
    assert Path(t, [ROOT_ID, k]);
  }
}

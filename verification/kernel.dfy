/** The transition kernel: the list of possible events with their rates, rebuilt from the
    population state after every change, and the controller that decides whether the
    simulation goes on. */
module Kernel {
  import opened Common
  import opened Units
  import opened Animals
  import opened Scenario

  /** The animal an event starts from. */
  datatype Source = CowSource(id: string) | BadgerSource(id: string)

  /** The animal an event produces: the same animal in its next compartment, or an animal
      with an empty id that stands for a not-yet-infected one. */
  datatype Target = CowTarget(id: string, unit: string, status: CowState) | BadgerTarget(id: string, unit: string)

  datatype Event = Event(source: Source, target: Target)

  datatype Entry = Entry(event: Event, rate: real)

  /** The per-step progression rates and the four transmission coefficients. */
  datatype Rates = Rates(sigma: real, gamma: real, betaCC: real, betaCB: real, betaBB: real, betaBC: real)

  /** Susceptible animals in a unit: its size less its infected count. */
  function FarmSusceptible(s: State, f: string): int
    requires f in s.farms
  {
    s.farms[f].herdSize - FarmInfected(s, f)
  }

  function ReservoirSusceptible(s: State, r: string): int
    requires r in s.reservoirs
  {
    s.reservoirs[r].reservoirSize - ReservoirInfected(s, r)
  }

  /** The entries a kernel may contain, described entry by entry: a live exposed cow becomes
      test-sensitive at sigma, a test-sensitive one infectious at gamma; a live infectious cow
      infects a susceptible on its own farm at (susceptibles x beta_CC) and, with reservoirs
      included, one in each reservoir connected to its farm at (susceptibles x beta_CB); with
      reservoirs included a live badger infects one in its own reservoir at
      (susceptibles x beta_BB) and one on each connected farm at (susceptibles x beta_BC). */
  predicate Justified(s: State, cfg: Config, rates: Rates, e: Entry)
    requires Located(s) && Covers(cfg, s)
  {
    match e.event.source
    case CowSource(id) =>
      && id in s.cows
      && var c := s.cows[id];
      (match e.event.target
       case CowTarget(tid, u, st) =>
         && u == c.farmId
         && ((c.status == Exposed && tid == id && st == TestSensitive && e.rate == rates.sigma)
             || (c.status == TestSensitive && tid == id && st == Infectious && e.rate == rates.gamma)
             || (c.status == Infectious && tid == "" && st == Exposed
                 && e.rate == FarmSusceptible(s, c.farmId) as real * rates.betaCC))
       case BadgerTarget(tid, r) =>
         && cfg.includeReservoir && c.status == Infectious && tid == ""
         && r in cfg.farmReservoirs[c.farmId]
         && e.rate == ReservoirSusceptible(s, r) as real * rates.betaCB)
    case BadgerSource(id) =>
      && cfg.includeReservoir
      && id in s.badgers
      && var r := s.badgers[id].reservoirId;
      match e.event.target
      case BadgerTarget(tid, u) =>
        tid == "" && u == r && e.rate == ReservoirSusceptible(s, r) as real * rates.betaBB
      case CowTarget(tid, f, st) =>
        && tid == "" && st == Exposed && f in s.reservoirs[r].connectedFarms
        && e.rate == FarmSusceptible(s, f) as real * rates.betaBC
  }

  /** An infectious cow infecting a susceptible animal on farm `f`. */
  function CowInfectsFarm(s: State, rates: Rates, id: string, f: string): Entry
    requires f in s.farms
  {
    Entry(Event(CowSource(id), CowTarget("", f, Exposed)), FarmSusceptible(s, f) as real * rates.betaCC)
  }

  /** An infectious cow infecting a susceptible badger in reservoir `r`. */
  function CowInfectsReservoir(s: State, rates: Rates, id: string, r: string): Entry
    requires r in s.reservoirs
  {
    Entry(Event(CowSource(id), BadgerTarget("", r)), ReservoirSusceptible(s, r) as real * rates.betaCB)
  }

  /** A badger infecting a susceptible badger in reservoir `r`. */
  function BadgerInfectsReservoir(s: State, rates: Rates, id: string, r: string): Entry
    requires r in s.reservoirs
  {
    Entry(Event(BadgerSource(id), BadgerTarget("", r)), ReservoirSusceptible(s, r) as real * rates.betaBB)
  }

  /** A badger infecting a susceptible animal on farm `f`. */
  function BadgerInfectsFarm(s: State, rates: Rates, id: string, f: string): Entry
    requires f in s.farms
  {
    Entry(Event(BadgerSource(id), CowTarget("", f, Exposed)), FarmSusceptible(s, f) as real * rates.betaBC)
  }

  /** Cow-to-badger entries of an infectious cow: one per connected reservoir, in list order. */
  function CowBadgerEntries(s: State, cfg: Config, rates: Rates, id: string, rs: seq<string>): (r: seq<Entry>)
    requires forall i :: 0 <= i < |rs| ==> rs[i] in s.reservoirs
    ensures |r| == |rs|
    ensures forall i :: 0 <= i < |rs| ==> r[i] == CowInfectsReservoir(s, rates, id, rs[i])
  {
    seq(|rs|, i requires 0 <= i < |rs| && rs[i] in s.reservoirs => CowInfectsReservoir(s, rates, id, rs[i]))
  }

  /** Badger-to-cow entries of a badger: one per connected farm, in list order. */
  function BadgerCowEntries(s: State, rates: Rates, id: string, fs: seq<string>): (r: seq<Entry>)
    requires forall i :: 0 <= i < |fs| ==> fs[i] in s.farms
    ensures |r| == |fs|
    ensures forall i :: 0 <= i < |fs| ==> r[i] == BadgerInfectsFarm(s, rates, id, fs[i])
  {
    seq(|fs|, i requires 0 <= i < |fs| && fs[i] in s.farms => BadgerInfectsFarm(s, rates, id, fs[i]))
  }

  /** The entries one live cow contributes (the switch on its status). */
  function CowEntries(s: State, cfg: Config, rates: Rates, id: string): seq<Entry>
    requires Located(s) && Covers(cfg, s) && id in s.cows
  {
    var c := s.cows[id];
    var f := c.farmId;
    match c.status
    case Susceptible => []
    case Exposed => [Entry(Event(CowSource(id), CowTarget(id, f, TestSensitive)), rates.sigma)]
    case TestSensitive => [Entry(Event(CowSource(id), CowTarget(id, f, Infectious)), rates.gamma)]
    case Infectious =>
      [CowInfectsFarm(s, rates, id, f)]
      + (if cfg.includeReservoir then CowBadgerEntries(s, cfg, rates, id, cfg.farmReservoirs[f]) else [])
  }

  /** The entries one live badger contributes. */
  function BadgerEntries(s: State, cfg: Config, rates: Rates, id: string): seq<Entry>
    requires Located(s) && Connected(s) && id in s.badgers
  {
    var u := s.badgers[id].reservoirId;
    [BadgerInfectsReservoir(s, rates, id, u)] + BadgerCowEntries(s, rates, id, s.reservoirs[u].connectedFarms)
  }

  function AllCowEntries(s: State, cfg: Config, rates: Rates, order: seq<string>): seq<Entry>
    requires Located(s) && Covers(cfg, s)
    requires forall i :: 0 <= i < |order| ==> order[i] in s.cows
  {
    if |order| == 0 then []
    else CowEntries(s, cfg, rates, order[0]) + AllCowEntries(s, cfg, rates, order[1..])
  }

  function AllBadgerEntries(s: State, cfg: Config, rates: Rates, order: seq<string>): seq<Entry>
    requires Located(s) && Connected(s)
    requires forall i :: 0 <= i < |order| ==> order[i] in s.badgers
  {
    if |order| == 0 then []
    else BadgerEntries(s, cfg, rates, order[0]) + AllBadgerEntries(s, cfg, rates, order[1..])
  }

  /** `updateKernel`: the kernel is cleared and rebuilt from the live cows (in map iteration
      order `cowOrder`) and, with reservoirs included, the live badgers (`badgerOrder`). */
  function UpdateKernel(s: State, cfg: Config, rates: Rates, cowOrder: seq<string>, badgerOrder: seq<string>): seq<Entry>
    requires Located(s) && Covers(cfg, s)
    requires Enumerates(cowOrder, s.cows.Keys) && Enumerates(badgerOrder, s.badgers.Keys)
  {
    AllCowEntries(s, cfg, rates, cowOrder)
    + (if cfg.includeReservoir then AllBadgerEntries(s, cfg, rates, badgerOrder) else [])
  }

  /** Every entry a live cow contributes is justified. */
  lemma CowEntriesSound(s: State, cfg: Config, rates: Rates, id: string)
    requires Located(s) && Covers(cfg, s) && id in s.cows
    ensures forall e :: e in CowEntries(s, cfg, rates, id) ==> Justified(s, cfg, rates, e)
  {
    var c := s.cows[id];
    var own := CowEntries(s, cfg, rates, id);
    if c.status == Infectious && cfg.includeReservoir {
      var rs := cfg.farmReservoirs[c.farmId];
      var tail := CowBadgerEntries(s, cfg, rates, id, rs);
      assert own == [own[0]] + tail;
      forall e | e in tail ensures Justified(s, cfg, rates, e) {
        var j :| 0 <= j < |tail| && tail[j] == e;
      }
    }
  }

  /** With reservoirs included, every entry a live badger contributes is justified. */
  lemma BadgerEntriesSound(s: State, cfg: Config, rates: Rates, id: string)
    requires Located(s) && Covers(cfg, s) && id in s.badgers && cfg.includeReservoir
    ensures forall e :: e in BadgerEntries(s, cfg, rates, id) ==> Justified(s, cfg, rates, e)
  {
    var own := BadgerEntries(s, cfg, rates, id);
    var fs := s.reservoirs[s.badgers[id].reservoirId].connectedFarms;
    var tail := BadgerCowEntries(s, rates, id, fs);
    assert own == [own[0]] + tail;
    forall e | e in tail ensures Justified(s, cfg, rates, e) {
      var j :| 0 <= j < |tail| && tail[j] == e;
    }
  }

  /** The concatenation over an order holds exactly the entries of the animals it lists. */
  lemma {:induction false} AllCowEntriesMembers(s: State, cfg: Config, rates: Rates, order: seq<string>, e: Entry)
    requires Located(s) && Covers(cfg, s)
    requires forall i :: 0 <= i < |order| ==> order[i] in s.cows
    ensures e in AllCowEntries(s, cfg, rates, order) <==>
      exists i :: 0 <= i < |order| && e in CowEntries(s, cfg, rates, order[i])
  {
    if |order| > 0 {
      AllCowEntriesMembers(s, cfg, rates, order[1..], e);
      if exists i :: 1 <= i < |order| && e in CowEntries(s, cfg, rates, order[i]) {
        var i :| 1 <= i < |order| && e in CowEntries(s, cfg, rates, order[i]);
        assert order[1..][i - 1] == order[i];
      }
      if exists i :: 0 <= i < |order| - 1 && e in CowEntries(s, cfg, rates, order[1..][i]) {
        var i :| 0 <= i < |order| - 1 && e in CowEntries(s, cfg, rates, order[1..][i]);
        assert order[1..][i] == order[i + 1];
      }
    }
  }

  lemma {:induction false} AllBadgerEntriesMembers(s: State, cfg: Config, rates: Rates, order: seq<string>, e: Entry)
    requires Located(s) && Connected(s)
    requires forall i :: 0 <= i < |order| ==> order[i] in s.badgers
    ensures e in AllBadgerEntries(s, cfg, rates, order) <==>
      exists i :: 0 <= i < |order| && e in BadgerEntries(s, cfg, rates, order[i])
  {
    if |order| > 0 {
      AllBadgerEntriesMembers(s, cfg, rates, order[1..], e);
      if exists i :: 1 <= i < |order| && e in BadgerEntries(s, cfg, rates, order[i]) {
        var i :| 1 <= i < |order| && e in BadgerEntries(s, cfg, rates, order[i]);
        assert order[1..][i - 1] == order[i];
      }
      if exists i :: 0 <= i < |order| - 1 && e in BadgerEntries(s, cfg, rates, order[1..][i]) {
        var i :| 0 <= i < |order| - 1 && e in BadgerEntries(s, cfg, rates, order[1..][i]);
        assert order[1..][i] == order[i + 1];
      }
    }
  }

  /** The kernel holds an entry exactly when some live cow contributes it or, with reservoirs
      included, some live badger does: rebuilding after every change keeps the kernel equal
      to what the current population calls for. */
  lemma KernelMembers(s: State, cfg: Config, rates: Rates, cowOrder: seq<string>, badgerOrder: seq<string>, e: Entry)
    requires Located(s) && Covers(cfg, s)
    requires Enumerates(cowOrder, s.cows.Keys) && Enumerates(badgerOrder, s.badgers.Keys)
    ensures e in UpdateKernel(s, cfg, rates, cowOrder, badgerOrder) <==>
      || (exists id :: id in s.cows && e in CowEntries(s, cfg, rates, id))
      || (cfg.includeReservoir && exists id :: id in s.badgers && e in BadgerEntries(s, cfg, rates, id))
  {
    AllCowEntriesMembers(s, cfg, rates, cowOrder, e);
    if cfg.includeReservoir {
      AllBadgerEntriesMembers(s, cfg, rates, badgerOrder, e);
    }
    if exists id :: id in s.cows && e in CowEntries(s, cfg, rates, id) {
      var id :| id in s.cows && e in CowEntries(s, cfg, rates, id);
      assert id in Elems(cowOrder);
      var i :| 0 <= i < |cowOrder| && cowOrder[i] == id;
    }
    if cfg.includeReservoir && exists id :: id in s.badgers && e in BadgerEntries(s, cfg, rates, id) {
      var id :| id in s.badgers && e in BadgerEntries(s, cfg, rates, id);
      assert id in Elems(badgerOrder);
      var i :| 0 <= i < |badgerOrder| && badgerOrder[i] == id;
    }
  }

  /** Every entry of the kernel is one of the justified ones. */
  lemma KernelSound(s: State, cfg: Config, rates: Rates, cowOrder: seq<string>, badgerOrder: seq<string>, e: Entry)
    requires Located(s) && Covers(cfg, s)
    requires Enumerates(cowOrder, s.cows.Keys) && Enumerates(badgerOrder, s.badgers.Keys)
    requires e in UpdateKernel(s, cfg, rates, cowOrder, badgerOrder)
    ensures Justified(s, cfg, rates, e)
  {
    KernelMembers(s, cfg, rates, cowOrder, badgerOrder, e);
    if exists id :: id in s.cows && e in CowEntries(s, cfg, rates, id) {
      var id :| id in s.cows && e in CowEntries(s, cfg, rates, id);
      CowEntriesSound(s, cfg, rates, id);
    } else {
      var id :| id in s.badgers && e in BadgerEntries(s, cfg, rates, id);
      BadgerEntriesSound(s, cfg, rates, id);
    }
  }

  /** `updateKernel` leaves no cow out: a live cow in each compartment finds in the kernel
      every entry its compartment calls for. */
  lemma KernelCompleteForCow(s: State, cfg: Config, rates: Rates, cowOrder: seq<string>, badgerOrder: seq<string>, id: string)
    requires Located(s) && Covers(cfg, s)
    requires Enumerates(cowOrder, s.cows.Keys) && Enumerates(badgerOrder, s.badgers.Keys)
    requires id in s.cows
    ensures s.cows[id].status == Exposed ==>
      Entry(Event(CowSource(id), CowTarget(id, s.cows[id].farmId, TestSensitive)), rates.sigma)
        in UpdateKernel(s, cfg, rates, cowOrder, badgerOrder)
    ensures s.cows[id].status == TestSensitive ==>
      Entry(Event(CowSource(id), CowTarget(id, s.cows[id].farmId, Infectious)), rates.gamma)
        in UpdateKernel(s, cfg, rates, cowOrder, badgerOrder)
    ensures s.cows[id].status == Infectious ==>
      CowInfectsFarm(s, rates, id, s.cows[id].farmId) in UpdateKernel(s, cfg, rates, cowOrder, badgerOrder)
    ensures forall r :: (cfg.includeReservoir && s.cows[id].status == Infectious && r in cfg.farmReservoirs[s.cows[id].farmId]) ==>
      CowInfectsReservoir(s, rates, id, r) in UpdateKernel(s, cfg, rates, cowOrder, badgerOrder)
  {
    var c := s.cows[id];
    var own := CowEntries(s, cfg, rates, id);
    forall e | e in own ensures e in UpdateKernel(s, cfg, rates, cowOrder, badgerOrder) {
      KernelMembers(s, cfg, rates, cowOrder, badgerOrder, e);
    }
    if c.status != Susceptible {
      assert own[0] in own;
    }
    if cfg.includeReservoir && c.status == Infectious {
      var rs := cfg.farmReservoirs[c.farmId];
      var tail := CowBadgerEntries(s, cfg, rates, id, rs);
      assert own == [own[0]] + tail;
      forall r | r in rs ensures CowInfectsReservoir(s, rates, id, r) in own {
        var j :| 0 <= j < |rs| && rs[j] == r;
        assert tail[j] == own[j + 1];
      }
    }
  }

  /** With reservoirs included, `updateKernel` leaves no badger out: a live badger finds its
      badger-to-badger entry and one badger-to-cow entry per connected farm. */
  lemma KernelCompleteForBadger(s: State, cfg: Config, rates: Rates, cowOrder: seq<string>, badgerOrder: seq<string>, id: string)
    requires Located(s) && Covers(cfg, s)
    requires Enumerates(cowOrder, s.cows.Keys) && Enumerates(badgerOrder, s.badgers.Keys)
    requires cfg.includeReservoir && id in s.badgers
    ensures BadgerInfectsReservoir(s, rates, id, s.badgers[id].reservoirId) in UpdateKernel(s, cfg, rates, cowOrder, badgerOrder)
    ensures forall f :: f in s.reservoirs[s.badgers[id].reservoirId].connectedFarms ==>
      BadgerInfectsFarm(s, rates, id, f) in UpdateKernel(s, cfg, rates, cowOrder, badgerOrder)
  {
    var own := BadgerEntries(s, cfg, rates, id);
    forall e | e in own ensures e in UpdateKernel(s, cfg, rates, cowOrder, badgerOrder) {
      KernelMembers(s, cfg, rates, cowOrder, badgerOrder, e);
    }
    assert own[0] in own;
    var fs := s.reservoirs[s.badgers[id].reservoirId].connectedFarms;
    var tail := BadgerCowEntries(s, rates, id, fs);
    assert own == [own[0]] + tail;
    forall f | f in fs ensures BadgerInfectsFarm(s, rates, id, f) in own {
      var j :| 0 <= j < |fs| && fs[j] == f;
      assert tail[j] == own[j + 1];
    }
  }

  /** Without the reservoir no entry involves a badger, and susceptible cows never appear as
      a source. */
  lemma KernelWithoutReservoir(s: State, cfg: Config, rates: Rates, cowOrder: seq<string>, badgerOrder: seq<string>, e: Entry)
    requires Located(s) && Covers(cfg, s)
    requires Enumerates(cowOrder, s.cows.Keys) && Enumerates(badgerOrder, s.badgers.Keys)
    requires e in UpdateKernel(s, cfg, rates, cowOrder, badgerOrder)
    ensures !cfg.includeReservoir ==> e.event.source.CowSource? && e.event.target.CowTarget?
    ensures e.event.source.CowSource? ==> e.event.source.id in s.cows && s.cows[e.event.source.id].status != Susceptible
  {
    KernelSound(s, cfg, rates, cowOrder, badgerOrder, e);
  }

  // ---------------------------------------------------------------------------
  // Controller
  // ---------------------------------------------------------------------------

  /** The simulator's clock as a double: a finite value, an infinity, or NaN. */
  datatype Clock = Finite(t: real) | PositiveInfinity | NegativeInfinity | NotANumber

  /** `currentTime <= endDate && currentTime != -inf && currentTime != +inf`: minus infinity
      passes the comparison but is excluded explicitly; a NaN fails the comparison. */
  predicate DateValid(time: Clock, endDate: int)
  {
    match time
    case Finite(t) => t <= endDate as real
    case PositiveInfinity => false
    case NegativeInfinity => false
    case NotANumber => false
  }

  /** `goOn`: whether to keep simulating, with the side effects on the scenario. An empty
      kernel marks the run as finished prematurely and counts a contained outbreak. */
  function GoOn(s: State, cfg: Config, time: Clock, kernel: seq<Entry>): (r: (bool, State))
    ensures r.0 <==> (time.Finite? && time.t <= cfg.endDate as real) && |kernel| > 0
                     && |s.cows| <= cfg.maxInfectedCows && |s.badgers| <= cfg.maxInfectedBadgers
    ensures |kernel| == 0 ==> r.1.finishedPrematurely && r.1.outbreakContained == s.outbreakContained + 1
    ensures |kernel| > 0 ==> r.1 == s
    ensures r.1.(finishedPrematurely := s.finishedPrematurely, outbreakContained := s.outbreakContained) == s
  {
    var valid := DateValid(time, cfg.endDate);
    var hasMore := |kernel| > 0;
    var larger := |s.cows| > cfg.maxInfectedCows || |s.badgers| > cfg.maxInfectedBadgers;
    var s1 := if !hasMore then s.(finishedPrematurely := true, outbreakContained := s.outbreakContained + 1) else s;
    (valid && !larger && hasMore, s1)
  }
}

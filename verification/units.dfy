/** Herds (farms) and badger setts (reservoirs): the two kinds of unit that hold infected
    animals, with their sizes, herd-test dates and off-movement batch-size distributions. */
module Units {
  import opened Common

  /** An integer histogram: bin -> frequency. A bin that is absent has frequency 0. */
  type Distribution = map<int, nat>

  function Freq(d: Distribution, bin: int): nat
  {
    if bin in d then d[bin] else 0
  }

  /** `setFrequency(bin)`: one more observation of `bin`. */
  function Increment(d: Distribution, bin: int): (r: Distribution)
    ensures Freq(r, bin) == Freq(d, bin) + 1
    ensures forall b :: b != bin ==> Freq(r, b) == Freq(d, b)
    ensures r.Keys == d.Keys + {bin}
  {
    d[bin := Freq(d, bin) + 1]
  }

  /** The batch-size bins not exceeding `size`, each with its original frequency. */
  function KeepAtMost(d: Distribution, size: int): (r: Distribution)
  {
    map b | b in d && b <= size :: d[b]
  }

  /** Filtering keeps exactly the frequencies of bins up to the unit size and drops the rest. */
  lemma KeepAtMostFreq(d: Distribution, size: int, bin: int)
    ensures Freq(KeepAtMost(d, size), bin) == if bin <= size then Freq(d, bin) else 0
    ensures KeepAtMost(d, size).Keys <= d.Keys
  {
  }

  /** `unset` marker of both herd-test dates. */
  const UNSET: int := -1

  datatype Farm = Farm(
    id: string,
    herdSize: int,
    lastClearTestDate: int,
    lastPositiveTestDate: int,
    offMovement: Distribution)

  datatype Reservoir = Reservoir(
    id: string,
    reservoirSize: int,
    connectedFarms: seq<string>,
    offMovement: Distribution)

  /** `new Farm(id)`. */
  function NewFarm(id: string): (f: Farm)
    ensures f.id == id && f.herdSize == -1
    ensures f.lastClearTestDate == UNSET && f.lastPositiveTestDate == UNSET
    ensures forall b :: Freq(f.offMovement, b) == 0
  {
    Farm(id, -1, UNSET, UNSET, map[])
  }

  /** `new Reservoir(id)`. */
  function NewReservoir(id: string): (r: Reservoir)
    ensures r.id == id && r.reservoirSize == -1
    ensures |r.connectedFarms| == 0
    ensures forall b :: Freq(r.offMovement, b) == 0
  {
    Reservoir(id, -1, [], map[])
  }

  /** `Farm.changeSize`: the herd size moves by `change`, and nothing else. */
  function ChangeFarmSize(f: Farm, change: int): (r: Farm)
    ensures r.herdSize - f.herdSize == change
    ensures r.(herdSize := f.herdSize) == f
  {
    f.(herdSize := f.herdSize + change)
  }

  /** `Reservoir.changeSize`: the sett size moves by `change`, and nothing else. */
  function ChangeReservoirSize(r: Reservoir, change: int): (s: Reservoir)
    ensures s.reservoirSize - r.reservoirSize == change
    ensures s.(reservoirSize := r.reservoirSize) == r
  {
    r.(reservoirSize := r.reservoirSize + change)
  }

  /** Growing and then shrinking a farm by the same amount gives back the same farm. */
  lemma FarmSizeInverse(f: Farm, d: int)
    ensures ChangeFarmSize(ChangeFarmSize(f, d), -d) == f
  {
  }

  /** Growing and then shrinking a sett by the same amount gives back the same sett. */
  lemma ReservoirSizeInverse(r: Reservoir, d: int)
    ensures ChangeReservoirSize(ChangeReservoirSize(r, d), -d) == r
  {
  }

  /** `Reservoir.toString`: the sett is printed as its id. */
  function ReservoirToString(r: Reservoir): (s: string)
    ensures s == r.id
  {
    r.id
  }

  /** Initial herd size drawn from the herd-size distribution (`initialiseHerdSizes`); with a
      fixed herd size the off-movement distribution keeps only batches the herd can supply. */
  function InitialiseFarmSize(f: Farm, unitSize: int, flex: bool): (r: Farm)
    ensures r.herdSize == unitSize
    ensures r.(herdSize := f.herdSize, offMovement := f.offMovement) == f
    ensures flex ==> r.offMovement == f.offMovement
    ensures !flex ==> forall b :: Freq(r.offMovement, b) == if b <= unitSize then Freq(f.offMovement, b) else 0
  {
    var kept := if flex then f.offMovement else KeepAtMost(f.offMovement, unitSize);
    forall b ensures !flex ==> Freq(kept, b) == if b <= unitSize then Freq(f.offMovement, b) else 0 {
      KeepAtMostFreq(f.offMovement, unitSize, b);
    }
    f.(herdSize := unitSize, offMovement := kept)
  }

  /** The reservoir counterpart (`initialiseReservoirSizes`). */
  function InitialiseReservoirSize(r: Reservoir, unitSize: int, flex: bool): (s: Reservoir)
    ensures s.reservoirSize == unitSize
    ensures s.(reservoirSize := r.reservoirSize, offMovement := r.offMovement) == r
    ensures flex ==> s.offMovement == r.offMovement
    ensures !flex ==> forall b :: Freq(s.offMovement, b) == if b <= unitSize then Freq(r.offMovement, b) else 0
  {
    var kept := if flex then r.offMovement else KeepAtMost(r.offMovement, unitSize);
    forall b ensures !flex ==> Freq(kept, b) == if b <= unitSize then Freq(r.offMovement, b) else 0 {
      KeepAtMostFreq(r.offMovement, unitSize, b);
    }
    r.(reservoirSize := unitSize, offMovement := kept)
  }
}

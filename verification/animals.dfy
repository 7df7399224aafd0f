/** Infected cattle and badgers: construction, id-based identity, the printable state name
    and the CSV record written for every animal at the end of a scenario. */
module Animals {
  import opened Common

  /** Disease compartments of a cow. */
  datatype CowState = Susceptible | Exposed | TestSensitive | Infectious

  /** The enum constant's name, as Java prints it. */
  function StateName(s: CowState): string
  {
    match s
    case Susceptible => "SUSCEPTIBLE"
    case Exposed => "EXPOSED"
    case TestSensitive => "TESTSENSITIVE"
    case Infectious => "INFECTIOUS"
  }

  /** Only these compartments can give a positive skin test. */
  predicate Detectable(s: CowState)
  {
    s == TestSensitive || s == Infectious
  }

  datatype Cow = Cow(
    id: string,
    farmId: string,
    snps: set<int>,
    lastSnpGeneration: int,
    dateSampleTaken: int,
    status: CowState,
    allFarmIds: seq<string>)

  datatype Badger = Badger(
    id: string,
    reservoirId: string,
    snps: set<int>,
    lastSnpGeneration: int,
    dateSampleTaken: int,
    allReservoirIds: seq<string>)

  /** `new InfectedCow(id, farmId, snps, day, status)`: not yet sampled, mutations counted from
      `day`, and the farm history starts with the current farm. The SNP set is a value, so
      the cow holds its own copy. */
  function NewCow(id: string, farmId: string, snps: set<int>, day: int, status: CowState): (c: Cow)
    ensures c.id == id && c.farmId == farmId && c.snps == snps && c.status == status
    ensures c.lastSnpGeneration == day && c.dateSampleTaken == -1
    ensures c.allFarmIds == [farmId]
  {
    Cow(id, farmId, snps, day, -1, status, [farmId])
  }

  /** `new InfectedBadger(id, reservoirId, snps, day)`. */
  function NewBadger(id: string, reservoirId: string, snps: set<int>, day: int): (b: Badger)
    ensures b.id == id && b.reservoirId == reservoirId && b.snps == snps
    ensures b.lastSnpGeneration == day && b.dateSampleTaken == -1
    ensures b.allReservoirIds == [reservoirId]
  {
    Badger(id, reservoirId, snps, day, -1, [reservoirId])
  }

  // ---------------------------------------------------------------------------
  // Identity: equals and hashCode look at the id alone
  // ---------------------------------------------------------------------------

  predicate CowEquals(a: Cow, b: Cow) { a.id == b.id }

  predicate BadgerEquals(a: Badger, b: Badger) { a.id == b.id }

  function CowHash(c: Cow): int { JavaHash(c.id) }

  function BadgerHash(b: Badger): int { JavaHash(b.id) }

  /** Equality is an equivalence, consistent with the hash, and blind to every field except
      the id: the same animal stays "equal" to itself through moves, status changes and
      mutations. */
  lemma CowIdentity(a: Cow, b: Cow, c: Cow, farm: string, snps: set<int>, status: CowState)
    ensures CowEquals(a, a)
    ensures CowEquals(a, b) ==> CowEquals(b, a) && CowHash(a) == CowHash(b)
    ensures CowEquals(a, b) && CowEquals(b, c) ==> CowEquals(a, c)
    ensures CowEquals(a, a.(farmId := farm, snps := snps, status := status))
    ensures CowEquals(a, b) <==> a.id == b.id
  {
  }

  lemma BadgerIdentity(a: Badger, b: Badger, c: Badger, reservoir: string, snps: set<int>)
    ensures BadgerEquals(a, a)
    ensures BadgerEquals(a, b) ==> BadgerEquals(b, a) && BadgerHash(a) == BadgerHash(b)
    ensures BadgerEquals(a, b) && BadgerEquals(b, c) ==> BadgerEquals(a, c)
    ensures BadgerEquals(a, a.(reservoirId := reservoir, snps := snps))
    ensures BadgerEquals(a, b) <==> a.id == b.id
  {
  }

  // ---------------------------------------------------------------------------
  // Ids issued to new infections
  // ---------------------------------------------------------------------------

  /** String.format("Cow_%05d", n). */
  function CowId(n: nat): string
  {
    "Cow_" + ZeroPad(NatToString(n), 5)
  }

  /** String.format("Badger_%05d", n). */
  function BadgerId(n: nat): string
  {
    "Badger_" + ZeroPad(NatToString(n), 5)
  }

  /** The number behind an id is recoverable from it, so distinct counter values give
      distinct ids (also past 99999, where the padding stops). */
  lemma IdsDecode(n: nat)
    ensures AllDigits(CowId(n)[4..]) && DigitsValue(CowId(n)[4..]) == n
    ensures AllDigits(BadgerId(n)[7..]) && DigitsValue(BadgerId(n)[7..]) == n
    ensures |CowId(n)| >= 9 && |BadgerId(n)| >= 12
  {
    ZeroPadValue(NatToString(n), 5);
    assert CowId(n)[4..] == ZeroPad(NatToString(n), 5);
    assert BadgerId(n)[7..] == ZeroPad(NatToString(n), 5);
  }

  lemma IdsInjective(n: nat, m: nat)
    ensures CowId(n) == CowId(m) <==> n == m
    ensures BadgerId(n) == BadgerId(m) <==> n == m
    ensures CowId(n) != BadgerId(m)
  {
    IdsDecode(n);
    IdsDecode(m);
    assert CowId(n)[0] == 'C' && BadgerId(m)[0] == 'B';
  }

  // ---------------------------------------------------------------------------
  // Printing
  // ---------------------------------------------------------------------------

  /** `InfectedCow.toString`: "COW" for the anonymous recipient of a kernel event, otherwise
      id[farm]:STATE. */
  function CowToString(c: Cow): (s: string)
    ensures s == "COW" <==> c.id == ""
    ensures c.id != "" ==> |s| > |c.id| && s[..|c.id|] == c.id && s[|c.id|] == '['
  {
    if c.id == "" then "COW" else c.id + "[" + c.farmId + "]" + ":" + StateName(c.status)
  }

  /** `InfectedBadger.toString`: badgers are always printed as INFECTIOUS. */
  function BadgerToString(b: Badger): (s: string)
    ensures s == "BADGER" <==> b.id == ""
    ensures b.id != "" ==> |s| > |b.id| && s[..|b.id|] == b.id && s[|b.id|] == '['
  {
    if b.id == "" then "BADGER" else b.id + "[" + b.reservoirId + "]" + ":" + StateName(Infectious)
  }

  /** No compartment name holds a bracket, and each names one compartment. */
  lemma StateNamePlain(st: CowState, other: CowState)
    ensures '[' !in StateName(st) && ']' !in StateName(st)
    ensures StateName(st) == StateName(other) <==> st == other
  {
    match st
    case Susceptible => assert StateName(st) == "SUSCEPTIBLE";
    case Exposed => assert StateName(st) == "EXPOSED";
    case TestSensitive => assert StateName(st) == "TESTSENSITIVE";
    case Infectious => assert StateName(st) == "INFECTIOUS";
  }

  /** A printed cow reads back when its ids hold no brackets: the text before '[' is the id,
      the text between '[' and ']' is the farm, and the rest is ':' followed by the name of
      the cow's compartment and of no other. */
  lemma CowToStringFields(c: Cow, other: CowState)
    requires c.id != "" && '[' !in c.id && '[' !in c.farmId && ']' !in c.farmId
    ensures var f := SplitAll(CowToString(c), '[');
      && |f| == 2 && f[0] == c.id
      && var g := SplitAll(f[1], ']');
      && |g| == 2 && g[0] == c.farmId && g[1] == ":" + StateName(c.status)
      && (g[1] == ":" + StateName(other) <==> other == c.status)
  {
    var state := ":" + StateName(c.status);
    var tail := c.farmId + [']'] + state;
    StateNamePlain(c.status, other);
    assert CowToString(c) == c.id + ['['] + tail;
    assert '[' !in tail;
    SplitAllField(c.id, '[', tail);
    SplitAllPlain(tail, '[');
    SplitAllField(c.farmId, ']', state);
    SplitAllPlain(state, ']');
    assert state == ":" + StateName(other) <==> StateName(c.status) == StateName(other) by {
      if state == ":" + StateName(other) {
        assert StateName(c.status) == state[1..] == StateName(other);
      }
    }
  }

  /** A printed badger reads back when its ids hold no brackets: the id before '[', the sett
      between '[' and ']', and ":INFECTIOUS" after it. */
  lemma BadgerToStringFields(b: Badger)
    requires b.id != "" && '[' !in b.id && '[' !in b.reservoirId && ']' !in b.reservoirId
    ensures var f := SplitAll(BadgerToString(b), '[');
      && |f| == 2 && f[0] == b.id
      && var g := SplitAll(f[1], ']');
      && |g| == 2 && g[0] == b.reservoirId && g[1] == ":INFECTIOUS"
  {
    var state := ":" + StateName(Infectious);
    var tail := b.reservoirId + [']'] + state;
    StateNamePlain(Infectious, Infectious);
    assert BadgerToString(b) == b.id + ['['] + tail;
    assert '[' !in tail;
    SplitAllField(b.id, '[', tail);
    SplitAllPlain(tail, '[');
    SplitAllField(b.reservoirId, ']', state);
    SplitAllPlain(state, ']');
  }

  /** Column names of the animal CSV files (both species share them). */
  const AnimalColumns: seq<string> :=
    ["animal_ID", "unit_ID", "InfectionStatus", "DateSampleTaken", "LastSnpGeneration", "SNPs"]

  /** `InfectedCow.Header` and `InfectedBadger.Header`: the columns above, comma-separated,
      ending in a newline. */
  const AnimalHeader: string := Join(AnimalColumns, ',') + "\n"

  /** One row of the animal file. `order` is the iteration order of the SNP hash set. */
  function AnimalRecord(id: string, units: seq<string>, status: string, sampled: int,
                        lastSnp: int, order: seq<int>): string
  {
    Join([id, Join(units, ';'), status, IntToString(sampled), IntToString(lastSnp),
          Join(IntTexts(order), ';')], ',')
  }

  /** `InfectedCow.record`. */
  function CowRecord(c: Cow, order: seq<int>): string
    requires Enumerates(order, c.snps)
  {
    AnimalRecord(c.id, c.allFarmIds, StateName(c.status), c.dateSampleTaken, c.lastSnpGeneration, order)
  }

  /** `InfectedBadger.record`: the status column is always INFECTIOUS. */
  function BadgerRecord(b: Badger, order: seq<int>): string
    requires Enumerates(order, b.snps)
  {
    AnimalRecord(b.id, b.allReservoirIds, "INFECTIOUS", b.dateSampleTaken, b.lastSnpGeneration, order)
  }

  predicate CommaFree(s: string) { ',' !in s }

  /** A record splits back, at the commas, into one field per header column, and each field
      gives back what was written: the id, the unit history, the status, the two dates and
      the SNP list. */
  lemma AnimalRecordFields(id: string, units: seq<string>, status: string, sampled: int,
                           lastSnp: int, order: seq<int>)
    requires CommaFree(id) && CommaFree(status)
    requires forall i :: 0 <= i < |units| ==> CommaFree(units[i])
    requires INT_MIN <= sampled <= INT_MAX && INT_MIN <= lastSnp <= INT_MAX
    ensures var f := SplitAll(AnimalRecord(id, units, status, sampled, lastSnp, order), ',');
      && |f| == |AnimalColumns|
      && f[0] == id && f[1] == Join(units, ';') && f[2] == status
      && ParseInt(f[3]) == Some(sampled) && ParseInt(f[4]) == Some(lastSnp)
      && f[5] == Join(IntTexts(order), ';')
  {
    var texts := IntTexts(order);
    forall i | 0 <= i < |texts| ensures ',' !in texts[i] {
      IntToStringAvoids(order[i], ',');
    }
    JoinAvoids(units, ';', ',');
    JoinAvoids(texts, ';', ',');
    IntToStringAvoids(sampled, ',');
    IntToStringAvoids(lastSnp, ',');
    var parts := [id, Join(units, ';'), status, IntToString(sampled), IntToString(lastSnp), Join(texts, ';')];
    SplitJoin(parts, ',');
    IntToStringRoundTrip(sampled);
    IntToStringRoundTrip(lastSnp);
  }

  /** The SNP column splits back at ';' into one field per SNP of the animal, each parsing
      back to the SNP id printed there. */
  lemma SnpColumnFields(order: seq<int>, snps: set<int>)
    requires Enumerates(order, snps) && |order| >= 1
    requires forall x :: x in snps ==> INT_MIN <= x <= INT_MAX
    ensures var f := SplitAll(Join(IntTexts(order), ';'), ';');
      |f| == |order| == |snps| && forall i :: 0 <= i < |f| ==> ParseInt(f[i]) == Some(order[i])
  {
    var texts := IntTexts(order);
    forall i | 0 <= i < |texts| ensures ';' !in texts[i] {
      IntToStringAvoids(order[i], ';');
    }
    SplitJoin(texts, ';');
    forall i | 0 <= i < |texts| ensures ParseInt(texts[i]) == Some(order[i]) {
      assert order[i] in snps;
      IntToStringRoundTrip(order[i]);
    }
    DistinctCardinality(order, snps);
  }

  /** The cow row has the header's six columns, with the status spelled as the enum. */
  lemma CowRecordFields(c: Cow, order: seq<int>)
    requires Enumerates(order, c.snps)
    requires CommaFree(c.id) && forall i :: 0 <= i < |c.allFarmIds| ==> CommaFree(c.allFarmIds[i])
    requires INT_MIN <= c.dateSampleTaken <= INT_MAX && INT_MIN <= c.lastSnpGeneration <= INT_MAX
    ensures var f := SplitAll(CowRecord(c, order), ',');
      |f| == |AnimalColumns| && f[0] == c.id && f[2] == StateName(c.status)
      && ParseInt(f[3]) == Some(c.dateSampleTaken) && ParseInt(f[4]) == Some(c.lastSnpGeneration)
  {
    AnimalRecordFields(c.id, c.allFarmIds, StateName(c.status), c.dateSampleTaken, c.lastSnpGeneration, order);
  }

  /** The badger row has the header's six columns and always reports INFECTIOUS. */
  lemma BadgerRecordFields(b: Badger, order: seq<int>)
    requires Enumerates(order, b.snps)
    requires CommaFree(b.id) && forall i :: 0 <= i < |b.allReservoirIds| ==> CommaFree(b.allReservoirIds[i])
    requires INT_MIN <= b.dateSampleTaken <= INT_MAX && INT_MIN <= b.lastSnpGeneration <= INT_MAX
    ensures var f := SplitAll(BadgerRecord(b, order), ',');
      |f| == |AnimalColumns| && f[0] == b.id && f[2] == "INFECTIOUS"
      && ParseInt(f[3]) == Some(b.dateSampleTaken) && ParseInt(f[4]) == Some(b.lastSnpGeneration)
  {
    AnimalRecordFields(b.id, b.allReservoirIds, "INFECTIOUS", b.dateSampleTaken, b.lastSnpGeneration, order);
  }
}

/** The rows the simulator writes out: cattle test results, badger test results, animal
    movements and whole-herd tests. Dates are day numbers from the zero date; their
    "yyyy-MM-dd" rendering is supplied by the caller as `dateText`. */
module Records {
  import opened Common
  import opened Animals

  /** Badger disease compartments. */
  datatype BadgerState = BadgerSusceptible | BadgerInfectious

  function BadgerStateName(s: BadgerState): string
  {
    match s
    case BadgerSusceptible => "SUSCEPTIBLE"
    case BadgerInfectious => "INFECTIOUS"
  }

  /** Test outcomes print in upper case. */
  function Flag(b: bool): string { if b then "TRUE" else "FALSE" }

  /** DateTime.compareTo on two day numbers. */
  function CompareDates(a: int, b: int): int
  {
    if a < b then -1 else if a > b then 1 else 0
  }

  // ---------------------------------------------------------------------------
  // CattleTest
  // ---------------------------------------------------------------------------

  datatype CattleTest = CattleTest(
    date: int,
    unitId: string,
    animalId: string,
    positive: bool,
    infectionState: CowState,
    event: string)

  const CattleTestColumns: seq<string> :=
    ["date", "unit_ID", "animal_ID", "testResult", "infectionState", "reasonOfTesting"]

  /** `CattleTest.Header`. */
  const CattleTestHeader: string := Join(CattleTestColumns, ',') + "\n"

  /** `CattleTest.toString`. */
  function CattleTestRow(t: CattleTest, dateText: string): string
  {
    Join([dateText, t.unitId, t.animalId, Flag(t.positive), StateName(t.infectionState), t.event], ',')
  }

  /** A test row has the header's six columns; the result column reads TRUE exactly for a
      positive test. */
  lemma CattleTestRowFields(t: CattleTest, dateText: string)
    requires CommaFree(dateText) && CommaFree(t.unitId) && CommaFree(t.animalId) && CommaFree(t.event)
    ensures var f := SplitAll(CattleTestRow(t, dateText), ',');
      && |f| == |CattleTestColumns| == 6
      && f[0] == dateText && f[1] == t.unitId && f[2] == t.animalId
      && (f[3] == "TRUE" <==> t.positive)
      && f[4] == StateName(t.infectionState) && f[5] == t.event
  {
    SplitJoin([dateText, t.unitId, t.animalId, Flag(t.positive), StateName(t.infectionState), t.event], ',');
  }

  /** `CattleTest.compareTo`: negative results first, then by animal id, then by date. */
  function CompareCattleTests(a: CattleTest, b: CattleTest): int
  {
    if !a.positive && b.positive then -1
    else if a.positive && !b.positive then 1
    else if JavaCompare(a.animalId, b.animalId) != 0 then JavaCompare(a.animalId, b.animalId)
    else CompareDates(a.date, b.date)
  }

  /** The ordering puts every negative before every positive, is reflexive, antisymmetric,
      and calls two records equal exactly when they agree on result, animal and date. */
  lemma CattleTestOrdering(a: CattleTest, b: CattleTest)
    ensures !a.positive && b.positive ==> CompareCattleTests(a, b) < 0
    ensures a.positive && !b.positive ==> CompareCattleTests(a, b) > 0
    ensures CompareCattleTests(a, a) == 0
    ensures (CompareCattleTests(a, b) < 0 <==> CompareCattleTests(b, a) > 0)
    ensures (CompareCattleTests(a, b) == 0 <==> a.positive == b.positive && a.animalId == b.animalId && a.date == b.date)
    ensures a.positive == b.positive && a.animalId != b.animalId ==>
      CompareCattleTests(a, b) == JavaCompare(a.animalId, b.animalId)
  {
    JavaCompareAntisymmetric(a.animalId, b.animalId);
    JavaCompareZero(a.animalId, b.animalId);
    JavaCompareZero(a.animalId, a.animalId);
  }

  // ---------------------------------------------------------------------------
  // RecordBadger
  // ---------------------------------------------------------------------------

  datatype RecordBadger = RecordBadger(
    date: int,
    animalId: string,
    departureUnitId: string,
    destinationUnitId: string,
    capture: bool,
    positive: bool,
    infectionState: BadgerState,
    event: string)

  /** `new RecordBadger(...)`: every argument is kept verbatim, unit ids included. */
  function NewRecordBadger(date: int, animalId: string, departure: string, destination: string,
                           capture: bool, positive: bool, state: BadgerState, event: string): (r: RecordBadger)
    ensures r.date == date && r.animalId == animalId
    ensures r.departureUnitId == departure && r.destinationUnitId == destination
    ensures r.capture == capture && r.positive == positive && r.infectionState == state && r.event == event
  {
    RecordBadger(date, animalId, departure, destination, capture, positive, state, event)
  }

  const RecordBadgerColumns: seq<string> :=
    ["date", "animal_ID", "unit_ID_from", "unit_ID_to", "capture", "testResult", "infectionState", "reasonOfTesting"]

  /** `RecordBadger.Header`. */
  const RecordBadgerHeader: string := Join(RecordBadgerColumns, ',') + "\n"

  /** `RecordBadger.toString`. */
  function RecordBadgerRow(r: RecordBadger, dateText: string): string
  {
    Join([dateText, r.animalId, r.departureUnitId, r.destinationUnitId, Flag(r.capture), Flag(r.positive),
          BadgerStateName(r.infectionState), r.event], ',')
  }

  /** A badger row has the header's eight columns, with capture and result as TRUE/FALSE. */
  lemma RecordBadgerRowFields(r: RecordBadger, dateText: string)
    requires CommaFree(dateText) && CommaFree(r.animalId) && CommaFree(r.event)
    requires CommaFree(r.departureUnitId) && CommaFree(r.destinationUnitId)
    ensures var f := SplitAll(RecordBadgerRow(r, dateText), ',');
      && |f| == |RecordBadgerColumns| == 8
      && f[0] == dateText && f[1] == r.animalId
      && f[2] == r.departureUnitId && f[3] == r.destinationUnitId
      && (f[4] == "TRUE" <==> r.capture) && (f[5] == "TRUE" <==> r.positive)
      && f[6] == BadgerStateName(r.infectionState) && f[7] == r.event
  {
    SplitJoin([dateText, r.animalId, r.departureUnitId, r.destinationUnitId, Flag(r.capture), Flag(r.positive),
               BadgerStateName(r.infectionState), r.event], ',');
  }

  /** `RecordBadger.compareTo`: the same order as for cattle tests. */
  function CompareBadgerRecords(a: RecordBadger, b: RecordBadger): int
  {
    if !a.positive && b.positive then -1
    else if a.positive && !b.positive then 1
    else if JavaCompare(a.animalId, b.animalId) != 0 then JavaCompare(a.animalId, b.animalId)
    else CompareDates(a.date, b.date)
  }

  lemma BadgerRecordOrdering(a: RecordBadger, b: RecordBadger)
    ensures !a.positive && b.positive ==> CompareBadgerRecords(a, b) < 0
    ensures a.positive && !b.positive ==> CompareBadgerRecords(a, b) > 0
    ensures CompareBadgerRecords(a, a) == 0
    ensures (CompareBadgerRecords(a, b) < 0 <==> CompareBadgerRecords(b, a) > 0)
    ensures (CompareBadgerRecords(a, b) == 0 <==> a.positive == b.positive && a.animalId == b.animalId && a.date == b.date)
    ensures a.positive == b.positive && a.animalId == b.animalId ==>
      CompareBadgerRecords(a, b) == CompareDates(a.date, b.date)
  {
    JavaCompareAntisymmetric(a.animalId, b.animalId);
    JavaCompareZero(a.animalId, b.animalId);
    JavaCompareZero(a.animalId, a.animalId);
  }

  // ---------------------------------------------------------------------------
  // RecordMovement
  // ---------------------------------------------------------------------------

  datatype RecordMovement = RecordMovement(
    date: int,
    species: string,
    unitFrom: string,
    unitTo: string,
    unitSize: string,
    animMove: string,
    infAnim: string,
    infMove: string,
    rndChoice: string,
    rndNum: string)

  /** A count column: empty when the value is negative (the "not applicable" convention),
      otherwise its decimal form. */
  function CountField(x: int): string
  {
    if x < 0 then "" else IntToString(x)
  }

  lemma CountFieldRoundTrip(x: int)
    requires x <= INT_MAX
    ensures CountField(x) == "" <==> x < 0
    ensures x >= 0 ==> ParseInt(CountField(x)) == Some(x)
    ensures ',' !in CountField(x)
  {
    if x >= 0 {
      IntToStringRoundTrip(x);
      IntToStringAvoids(x, ',');
    }
  }

  /** `new RecordMovement(...)`. The last column is a double: `rndNumText` is its
      Double.toString rendering, used only when `rndNum` is not negative. */
  function NewRecordMovement(date: int, species: string, from: string, to: string, unitSize: int,
                             animMove: int, infAnim: int, infMove: int, rndChoice: int,
                             rndNum: real, rndNumText: string): (r: RecordMovement)
    ensures r.date == date && r.species == species && r.unitFrom == from && r.unitTo == to
    ensures (r.rndNum == "" <==> rndNum < 0.0 || rndNumText == "")
    ensures rndNum >= 0.0 ==> r.rndNum == rndNumText
  {
    RecordMovement(date, species, from, to, CountField(unitSize), CountField(animMove),
                   CountField(infAnim), CountField(infMove), CountField(rndChoice),
                   if rndNum < 0.0 then "" else rndNumText)
  }

  /** Every integer argument is written back as itself, or as an empty column when it is
      negative. */
  lemma NewRecordMovementFields(date: int, species: string, from: string, to: string, unitSize: int,
                                animMove: int, infAnim: int, infMove: int, rndChoice: int,
                                rndNum: real, rndNumText: string)
    requires unitSize <= INT_MAX && animMove <= INT_MAX && infAnim <= INT_MAX
    requires infMove <= INT_MAX && rndChoice <= INT_MAX
    ensures var r := NewRecordMovement(date, species, from, to, unitSize, animMove, infAnim, infMove,
                                       rndChoice, rndNum, rndNumText);
      && (r.unitSize == "" <==> unitSize < 0) && (unitSize >= 0 ==> ParseInt(r.unitSize) == Some(unitSize))
      && (r.animMove == "" <==> animMove < 0) && (animMove >= 0 ==> ParseInt(r.animMove) == Some(animMove))
      && (r.infAnim == "" <==> infAnim < 0) && (infAnim >= 0 ==> ParseInt(r.infAnim) == Some(infAnim))
      && (r.infMove == "" <==> infMove < 0) && (infMove >= 0 ==> ParseInt(r.infMove) == Some(infMove))
      && (r.rndChoice == "" <==> rndChoice < 0) && (rndChoice >= 0 ==> ParseInt(r.rndChoice) == Some(rndChoice))
  {
    CountFieldRoundTrip(unitSize);
    CountFieldRoundTrip(animMove);
    CountFieldRoundTrip(infAnim);
    CountFieldRoundTrip(infMove);
    CountFieldRoundTrip(rndChoice);
  }

  const RecordMovementColumns: seq<string> :=
    ["date", "species", "unitID_from", "unitID_to", "unit_size", "anim_move", "inf_anim", "inf_move",
     "rnd_choice", "rnd_num"]

  /** `RecordMovement.Header`. */
  const RecordMovementHeader: string := Join(RecordMovementColumns, ',') + "\n"

  function RecordMovementParts(r: RecordMovement, dateText: string): seq<string>
  {
    [dateText, r.species, r.unitFrom, r.unitTo, r.unitSize, r.animMove, r.infAnim, r.infMove,
     r.rndChoice, r.rndNum]
  }

  /** `RecordMovement.toString`. */
  function RecordMovementRow(r: RecordMovement, dateText: string): string
  {
    Join(RecordMovementParts(r, dateText), ',')
  }

  /** A movement row splits back into its ten fields in header order. */
  lemma RecordMovementRowFields(r: RecordMovement, dateText: string)
    requires forall i :: 0 <= i < 10 ==> CommaFree(RecordMovementParts(r, dateText)[i])
    ensures SplitAll(RecordMovementRow(r, dateText), ',') == RecordMovementParts(r, dateText)
    ensures |RecordMovementParts(r, dateText)| == |RecordMovementColumns| == 10
  {
    SplitJoin(RecordMovementParts(r, dateText), ',');
  }

  // ---------------------------------------------------------------------------
  // HerdTest
  // ---------------------------------------------------------------------------

  /** A whole-herd test: how many of the herd's infected animals reacted. */
  datatype HerdTest = HerdTest(date: int, unitId: string, infected: int, reactors: int, event: string)
}

/** How the model's inputs are interpreted once their files have been read into lines: the
    start/end date checks, the farm list, the movement-frequency lines, the slaughter schedule,
    the sampling rates per year, the sett-to-farm network, and the acceptance rule between two
    successive calibration steps. Reading the files and parsing doubles are left to parameters. */
module Input {
  import opened Common
  import opened Units
  import Results

  // ---------------------------------------------------------------------------
  // Date validation
  // ---------------------------------------------------------------------------

  /** The date checks of `init`: the simulation window, then the movement window, must not
      start after they end. */
  function ValidateDates(start: int, end: int, startMovements: int, endMovements: int): (r: Result<()>)
    ensures r.Ok? <==> start <= end && startMovements <= endMovements
    ensures start > end ==> r == Err("Simulation start date after end date")
    ensures start <= end && startMovements > endMovements ==> r == Err("Movements: start date after end date")
  {
    if start > end then Err("Simulation start date after end date")
    else if startMovements > endMovements then Err("Movements: start date after end date")
    else Ok(())
  }

  // ---------------------------------------------------------------------------
  // The acceptor
  // ---------------------------------------------------------------------------

  /** The acceptor of the calibration chain. A finite next expected value replaces an infinite
      previous one outright; otherwise a finite next value is accepted when the log of the uniform
      draw falls below the scaled log-likelihood difference (`drawBelow`; with a NaN previous value
      the difference is NaN and the comparison fails); a value that is not finite is never
      accepted. */
  function Accept(previous: Results.Double, next: Results.Double, drawBelow: bool): (a: bool)
  {
    if previous.IsInfinite() && next.IsFinite() then true
    else if next.IsFinite() then previous.Num? && drawBelow
    else false
  }

  /** The acceptance rule case by case: only finite values are ever accepted, always after an
      infinite one, and between two finite values exactly when the draw says so. */
  lemma AcceptCases(previous: Results.Double, next: Results.Double, drawBelow: bool)
    ensures Accept(previous, next, drawBelow) ==> next.IsFinite()
    ensures previous.IsInfinite() && next.IsFinite() ==> Accept(previous, next, drawBelow)
    ensures previous.IsFinite() && next.IsFinite() ==> (Accept(previous, next, drawBelow) <==> drawBelow)
    ensures previous == Results.NaN ==> !Accept(previous, next, drawBelow)
  {
  }

  /** A step whose scenarios were all rejected is left behind by the first step that joined a
      scored scenario, whatever the draw; and a step with no scored scenario is never taken. */
  lemma AcceptAfterRejections(previous: Results.Results, next: Results.Results, drawBelow: bool)
    ensures |previous.expectedValue| == 0 && |next.expectedValue| > 0 ==>
              Accept(Results.ExpectedValue(previous), Results.ExpectedValue(next), drawBelow)
    ensures |next.expectedValue| == 0 ==> !Accept(Results.ExpectedValue(previous), Results.ExpectedValue(next), drawBelow)
  {
  }

  // ---------------------------------------------------------------------------
  // Keyed tables: one entry per line, a later line replacing an earlier one
  // ---------------------------------------------------------------------------

  /** What one line of a keyed file yields: nothing (a skipped line), a (key, value) entry, or
      the error that aborts the reading. */
  type Entry<V> = Result<Option<(int, V)>>

  predicate Keyed<V>(e: Entry<V>, k: int)
  {
    e.Ok? && e.value.Some? && e.value.value.0 == k
  }

  /** `map.put` for each entry in line order; the first failing line aborts. */
  function Collect<V>(entries: seq<Entry<V>>): (r: Result<map<int, V>>)
    decreases |entries|
  {
    if |entries| == 0 then Ok(map[])
    else
      var m :- Collect(entries[..|entries| - 1]);
      var e :- entries[|entries| - 1];
      Ok(if e.Some? then m[e.value.0 := e.value.1] else m)
  }

  /** Reading fails exactly when some line fails. */
  lemma {:induction false} CollectFails<V>(entries: seq<Entry<V>>)
    ensures Collect(entries).Err? <==> exists i :: 0 <= i < |entries| && entries[i].Err?
  {
    if |entries| > 0 {
      var init := entries[..|entries| - 1];
      CollectFails(init);
      if exists i :: 0 <= i < |init| && init[i].Err? {
        var i :| 0 <= i < |init| && init[i].Err?;
        assert entries[i].Err?;
      }
      if exists i :: 0 <= i < |entries| && entries[i].Err? {
        var i :| 0 <= i < |entries| && entries[i].Err?;
        if i < |init| {
          assert init[i].Err?;
        }
      }
    }
  }

  /** A key is in the table exactly when some line gave it, and its value is the one given by
      the last such line. */
  lemma {:induction false} CollectLastWins<V>(entries: seq<Entry<V>>, k: int)
    requires Collect(entries).Ok?
    ensures k in Collect(entries).value <==> exists i :: 0 <= i < |entries| && Keyed(entries[i], k)
    ensures forall i :: 0 <= i < |entries| && Keyed(entries[i], k) &&
                        (forall j :: i < j < |entries| ==> !Keyed(entries[j], k)) ==>
                        Collect(entries).value[k] == entries[i].value.value.1
  {
    if |entries| > 0 {
      var n := |entries| - 1;
      var init := entries[..n];
      CollectLastWins(init, k);
      forall i | 0 <= i < n ensures init[i] == entries[i] {}
      if k in Collect(entries).value && !Keyed(entries[n], k) {
        var i :| 0 <= i < |init| && Keyed(init[i], k);
        assert Keyed(entries[i], k);
      }
      if exists i :: 0 <= i < |entries| && Keyed(entries[i], k) {
        var i :| 0 <= i < |entries| && Keyed(entries[i], k);
        if i < n {
          assert Keyed(init[i], k);
        }
      }
    }
  }

  // ---------------------------------------------------------------------------
  // The slaughter schedule
  // ---------------------------------------------------------------------------

  /** One line `date:farm,farm,...` of the slaughter-date file: comments (lines starting with
      '#') and dates outside [start, end] yield nothing; a date that is not an integer, or a line
      without the date or without the farm list, aborts. */
  function ScheduleEntry(line: string, start: int, end: int): (r: Entry<seq<string>>)
    ensures StartsWithChar(line, '#') ==> r == Ok(None)
    ensures r.Ok? && r.value.Some? ==> start <= r.value.value.0 <= end
  {
    if StartsWithChar(line, '#') then Ok(None)
    else
      var tokens := JavaSplit(line, ':');
      if |tokens| == 0 then Err("array index out of bounds")
      else
        match ParseInt(Trim(tokens[0]))
        case None => Err("number format")
        case Some(date) =>
          if start <= date && date <= end then
            if |tokens| < 2 then Err("array index out of bounds")
            else Ok(Some((date, JavaSplit(Trim(tokens[1]), ','))))
          else Ok(None)
  }

  function ScheduleEntries(lines: seq<string>, start: int, end: int): (r: seq<Entry<seq<string>>>)
    ensures |r| == |lines| && forall i :: 0 <= i < |lines| ==> r[i] == ScheduleEntry(lines[i], start, end)
  {
    if |lines| == 0 then [] else [ScheduleEntry(lines[0], start, end)] + ScheduleEntries(lines[1..], start, end)
  }

  /** `readBirthDeathDistributions`: date -> the farms that send animals to slaughter that
      day. */
  function ReadSlaughterSchedule(lines: seq<string>, start: int, end: int): Result<map<int, seq<string>>>
  {
    Collect(ScheduleEntries(lines, start, end))
  }

  /** Every scheduled date lies in the simulation window and comes from a line of the file. */
  lemma ScheduleDates(lines: seq<string>, start: int, end: int, d: int)
    requires ReadSlaughterSchedule(lines, start, end).Ok?
    ensures d in ReadSlaughterSchedule(lines, start, end).value ==>
      && start <= d <= end
      && exists i :: 0 <= i < |lines| && Keyed(ScheduleEntry(lines[i], start, end), d)
  {
    var entries := ScheduleEntries(lines, start, end);
    CollectLastWins(entries, d);
    if d in ReadSlaughterSchedule(lines, start, end).value {
      var i :| 0 <= i < |entries| && Keyed(entries[i], d);
      assert Keyed(ScheduleEntry(lines[i], start, end), d);
    }
  }

  /** A date's farm list is that of the last line with that date. */
  lemma ScheduleLastWins(lines: seq<string>, start: int, end: int, d: int, i: int)
    requires ReadSlaughterSchedule(lines, start, end).Ok?
    requires 0 <= i < |lines| && Keyed(ScheduleEntry(lines[i], start, end), d)
    requires forall j :: i < j < |lines| ==> !Keyed(ScheduleEntry(lines[j], start, end), d)
    ensures d in ReadSlaughterSchedule(lines, start, end).value
    ensures ReadSlaughterSchedule(lines, start, end).value[d] == ScheduleEntry(lines[i], start, end).value.value.1
  {
    var entries := ScheduleEntries(lines, start, end);
    CollectLastWins(entries, d);
    assert Keyed(entries[i], d);
  }

  /** A well-formed line reads back as what it says: `date:f1,f2,...` with the date in the
      window gives that date and that farm list. */
  lemma ScheduleEntryRoundTrip(date: int, farms: seq<string>, start: int, end: int)
    requires INT_MIN <= date <= INT_MAX && start <= date <= end
    requires WellFormedList(farms)
    ensures ScheduleEntry(IntToString(date) + ":" + Join(farms, ','), start, end) == Ok(Some((date, farms)))
  {
    var head := IntToString(date);
    var rest := Join(farms, ',');
    var line := head + ":" + rest;
    IntToStringAvoids(date, '#');
    assert line[0] == head[0];
    SplitAtColon(date, farms);
    NoBlankIntText(date);
    IntToStringRoundTrip(date);
    ListRoundTrip(farms);
    ScheduleEntryParts(line, head, rest, date, start, end);
  }

  /** A line that is no comment and splits at its colon into a date in the window and a farm
      list gives that date and the list split at its commas. */
  lemma ScheduleEntryParts(line: string, head: string, rest: string, date: int, start: int, end: int)
    requires !StartsWithChar(line, '#') && JavaSplit(line, ':') == [head, rest]
    requires ParseInt(Trim(head)) == Some(date) && start <= date <= end
    ensures ScheduleEntry(line, start, end) == Ok(Some((date, JavaSplit(Trim(rest), ','))))
  {
  }

  /** A farm list as the file writes it: at least one farm, none containing a separator, the
      last not empty, and no blank at either end of the list. */
  predicate WellFormedList(farms: seq<string>)
  {
    && |farms| >= 1 && farms[|farms| - 1] != ""
    && SeparatorFree(farms, ',') && SeparatorFree(farms, ':')
    && (|farms[0]| > 0 ==> !IsBlank(farms[0][0]))
    && !IsBlank(farms[|farms| - 1][|farms[|farms| - 1]| - 1])
  }

  /** The line splits at its one colon into the date text and the farm list. */
  lemma SplitAtColon(date: int, farms: seq<string>)
    requires WellFormedList(farms)
    ensures JavaSplit(IntToString(date) + ":" + Join(farms, ','), ':') == [IntToString(date), Join(farms, ',')]
  {
    var head := IntToString(date);
    var rest := Join(farms, ',');
    var line := head + ":" + rest;
    IntToStringAvoids(date, ':');
    JoinAvoids(farms, ',', ':');
    SplitAllField(head, ':', rest);
    SplitAllPlain(rest, ':');
    assert line == head + [':'] + rest;
    JoinShape(farms, ',');
    assert line[|head|] == ':';
  }

  /** The farm list trims to itself and splits back into its farms. */
  lemma ListRoundTrip(farms: seq<string>)
    requires WellFormedList(farms)
    ensures Trim(Join(farms, ',')) == Join(farms, ',')
    ensures JavaSplit(Join(farms, ','), ',') == farms
  {
    var rest := Join(farms, ',');
    JoinShape(farms, ',');
    assert TrimStart(rest) == rest;
    assert TrimEnd(rest) == rest;
    SplitJoinBack(farms, ',');
  }

  /** String.split undoes a join whose parts are free of the separator and whose last part is
      not empty (an empty last part would be dropped as a trailing empty field). */
  lemma SplitJoinBack(parts: seq<string>, sep: char)
    requires |parts| >= 1 && parts[|parts| - 1] != "" && SeparatorFree(parts, sep)
    ensures JavaSplit(Join(parts, sep), sep) == parts
  {
    var s := Join(parts, sep);
    SplitJoin(parts, sep);
    if |parts| == 1 {
      SplitAllPlain(s, sep);
    } else {
      JoinSeparatorCount(parts, sep);
      assert sep in s by { assert multiset(s)[sep] > 0; }
    }
  }

  /** A join starts with the first part and ends with the last. */
  lemma {:induction false} JoinShape(parts: seq<string>, sep: char)
    requires |parts| >= 1
    ensures |Join(parts, sep)| >= |parts[|parts| - 1]|
    ensures Join(parts, sep)[..|parts[0]|] == parts[0] && |parts[0]| <= |Join(parts, sep)|
    ensures Join(parts, sep)[|Join(parts, sep)| - |parts[|parts| - 1]|..] == parts[|parts| - 1]
  {
    if |parts| > 1 {
      JoinShape(parts[1..], sep);
    }
  }

  /** The decimal text of an integer has no blank at either end, so trimming keeps it. */
  lemma NoBlankIntText(i: int)
    ensures Trim(IntToString(i)) == IntToString(i)
  {
    var s := IntToString(i);
    assert |s| > 0 && !IsBlank(s[0]) && !IsBlank(s[|s| - 1]);
    assert TrimStart(s) == s;
    assert TrimEnd(s) == s;
  }

  // ---------------------------------------------------------------------------
  // Sampling rates per year
  // ---------------------------------------------------------------------------

  /** StringUtils.split with a separator character: the fields between separators, empty ones
      dropped. */
  function SplitTokens(s: string, sep: char): (r: seq<string>)
    ensures forall i :: 0 <= i < |r| ==> r[i] != ""
  {
    NonEmpty(SplitAll(s, sep))
  }

  /** The non-empty parts, in order. */
  function NonEmpty(parts: seq<string>): (r: seq<string>)
    ensures forall i :: 0 <= i < |r| ==> r[i] != "" && r[i] in parts
  {
    if |parts| == 0 then []
    else if parts[0] == "" then NonEmpty(parts[1..])
    else [parts[0]] + NonEmpty(parts[1..])
  }

  /** One line `year,rate` of a sampling-rate file: comments and empty lines yield nothing; a
      year that is not an integer, a rate that does not parse, or a missing field aborts.
      `parseDouble` stands for Double.parseDouble. */
  function RateEntry(line: string, parseDouble: string -> Option<real>): (r: Entry<real>)
    ensures StartsWithChar(line, '#') || |line| == 0 ==> r == Ok(None)
  {
    if StartsWithChar(line, '#') || |line| == 0 then Ok(None)
    else
      var tokens := SplitTokens(line, ',');
      if |tokens| == 0 then Err("array index out of bounds")
      else
        match ParseInt(tokens[0])
        case None => Err("number format")
        case Some(year) =>
          if |tokens| < 2 then Err("array index out of bounds")
          else
            match parseDouble(tokens[1])
            case None => Err("number format")
            case Some(rate) => Ok(Some((year, rate)))
  }

  function RateEntries(lines: seq<string>, parseDouble: string -> Option<real>): (r: seq<Entry<real>>)
    ensures |r| == |lines| && forall i :: 0 <= i < |lines| ==> r[i] == RateEntry(lines[i], parseDouble)
  {
    if |lines| == 0 then [] else [RateEntry(lines[0], parseDouble)] + RateEntries(lines[1..], parseDouble)
  }

  /** `readSamplingRatesPerYear`: year -> sampling rate. */
  function ReadSamplingRates(lines: seq<string>, parseDouble: string -> Option<real>): Result<map<int, real>>
  {
    Collect(RateEntries(lines, parseDouble))
  }

  /** Comment and empty lines never contribute and never fail: dropping them changes nothing. */
  lemma {:induction false} RatesIgnoreComments(lines: seq<string>, line: string, parseDouble: string -> Option<real>)
    requires StartsWithChar(line, '#') || |line| == 0
    ensures ReadSamplingRates(lines + [line], parseDouble) == ReadSamplingRates(lines, parseDouble)
  {
    var entries := RateEntries(lines + [line], parseDouble);
    var prefix := RateEntries(lines, parseDouble);
    assert entries[..|entries| - 1] == prefix;
    assert entries[|entries| - 1] == Ok(None);
    CollectSkips(entries);
  }

  /** A trailing line without an entry leaves the table as the other lines make it. */
  lemma CollectSkips<V>(entries: seq<Entry<V>>)
    requires |entries| > 0 && entries[|entries| - 1] == Ok(None)
    ensures Collect(entries) == Collect(entries[..|entries| - 1])
  {
  }

  /** A year is in the table exactly when a line gave it. */
  lemma RatesYears(lines: seq<string>, parseDouble: string -> Option<real>, year: int)
    requires ReadSamplingRates(lines, parseDouble).Ok?
    ensures year in ReadSamplingRates(lines, parseDouble).value <==>
              exists i :: 0 <= i < |lines| && Keyed(RateEntry(lines[i], parseDouble), year)
  {
    var entries := RateEntries(lines, parseDouble);
    CollectLastWins(entries, year);
    if exists i :: 0 <= i < |lines| && Keyed(RateEntry(lines[i], parseDouble), year) {
      var i :| 0 <= i < |lines| && Keyed(RateEntry(lines[i], parseDouble), year);
      assert Keyed(entries[i], year);
    }
  }

  /** A year's rate is that of the last line giving the year. */
  lemma RatesLastWins(lines: seq<string>, parseDouble: string -> Option<real>, year: int, i: int)
    requires ReadSamplingRates(lines, parseDouble).Ok?
    requires 0 <= i < |lines| && Keyed(RateEntry(lines[i], parseDouble), year)
    requires forall j :: i < j < |lines| ==> !Keyed(RateEntry(lines[j], parseDouble), year)
    ensures year in ReadSamplingRates(lines, parseDouble).value
    ensures ReadSamplingRates(lines, parseDouble).value[year] == RateEntry(lines[i], parseDouble).value.value.1
  {
    var entries := RateEntries(lines, parseDouble);
    CollectLastWins(entries, year);
    assert Keyed(entries[i], year);
  }

  // ---------------------------------------------------------------------------
  // The farm list
  // ---------------------------------------------------------------------------

  /** The farm id of one line of the farm file: its first comma-separated field, trimmed. A
      line made of commas only has no field at all and aborts the reading. */
  function FarmId(line: string): (r: Result<string>)
    ensures r.Ok? && |r.value| > 0 ==> !IsBlank(r.value[0]) && !IsBlank(r.value[|r.value| - 1])
    ensures ',' !in line ==> r == Ok(Trim(line))
  {
    var tokens := JavaSplit(line, ',');
    if |tokens| == 0 then Err("array index out of bounds") else Ok(Trim(tokens[0]))
  }

  /** The three tables `readFarmData` fills: the farms, and each farm's infected-cow list and
      connected-reservoir list. */
  datatype FarmTables = FarmTables(
    farms: map<string, Farm>,
    farmInfections: map<string, seq<string>>,
    connectedReservoirs: map<string, seq<string>>)

  /** `readFarmData`: the farm table starts empty; each line puts a new farm under its id and
      an empty infection list and connection list under the same id, over whatever the latter
      two tables held. */
  function ReadFarmData(lines: seq<string>, farmInfections: map<string, seq<string>>,
                        connectedReservoirs: map<string, seq<string>>): Result<FarmTables>
  {
    PutFarms(FarmIds(lines), farmInfections, connectedReservoirs)
  }

  function FarmIds(lines: seq<string>): (r: seq<Result<string>>)
    ensures |r| == |lines| && forall i :: 0 <= i < |lines| ==> r[i] == FarmId(lines[i])
  {
    seq(|lines|, i requires 0 <= i < |lines| => FarmId(lines[i]))
  }

  /** The puts of `readFarmData` for each line's id in turn; the first line without an id
      aborts. */
  function PutFarms(ids: seq<Result<string>>, farmInfections: map<string, seq<string>>,
                    connectedReservoirs: map<string, seq<string>>): Result<FarmTables>
    decreases |ids|
  {
    if |ids| == 0 then Ok(FarmTables(map[], farmInfections, connectedReservoirs))
    else
      var t :- PutFarms(ids[..|ids| - 1], farmInfections, connectedReservoirs);
      var id :- ids[|ids| - 1];
      Ok(FarmTables(t.farms[id := NewFarm(id)], t.farmInfections[id := []], t.connectedReservoirs[id := []]))
  }

  /** The farm file is read in full unless some line has no field. */
  lemma {:induction false} PutFarmsFails(ids: seq<Result<string>>, farmInfections: map<string, seq<string>>,
                                         connectedReservoirs: map<string, seq<string>>)
    ensures PutFarms(ids, farmInfections, connectedReservoirs).Err? <==> exists i :: 0 <= i < |ids| && ids[i].Err?
    decreases |ids|
  {
    if |ids| > 0 {
      var init := ids[..|ids| - 1];
      PutFarmsFails(init, farmInfections, connectedReservoirs);
      if exists i :: 0 <= i < |init| && init[i].Err? {
        var i :| 0 <= i < |init| && init[i].Err?;
        assert ids[i] == init[i];
      }
      if exists i :: 0 <= i < |ids| && ids[i].Err? {
        var i :| 0 <= i < |ids| && ids[i].Err?;
        if i < |init| {
          assert init[i].Err?;
        }
      }
    }
  }

  /** The farms are exactly the ids of the lines, each a new farm. */
  lemma {:induction false} PutFarmsFarms(ids: seq<Result<string>>, farmInfections: map<string, seq<string>>,
                                         connectedReservoirs: map<string, seq<string>>)
    requires PutFarms(ids, farmInfections, connectedReservoirs).Ok?
    ensures var farms := PutFarms(ids, farmInfections, connectedReservoirs).value.farms;
      && (forall id :: id in farms <==> Ok(id) in ids)
      && (forall id :: id in farms ==> farms[id] == NewFarm(id))
    decreases |ids|
  {
    if |ids| > 0 {
      PutFarmsFarms(ids[..|ids| - 1], farmInfections, connectedReservoirs);
      assert ids == ids[..|ids| - 1] + [ids[|ids| - 1]];
    }
  }

  /** Every farm read has an empty infection list and an empty connection list; the other
      entries of those two tables are kept. */
  lemma {:induction false} PutFarmsLists(ids: seq<Result<string>>, farmInfections: map<string, seq<string>>,
                                         connectedReservoirs: map<string, seq<string>>)
    requires PutFarms(ids, farmInfections, connectedReservoirs).Ok?
    ensures var t := PutFarms(ids, farmInfections, connectedReservoirs).value;
      && t.farmInfections.Keys == farmInfections.Keys + t.farms.Keys
      && t.connectedReservoirs.Keys == connectedReservoirs.Keys + t.farms.Keys
      && (forall id :: id in t.farmInfections ==>
            t.farmInfections[id] == if id in t.farms then [] else farmInfections[id])
      && (forall id :: id in t.connectedReservoirs ==>
            t.connectedReservoirs[id] == if id in t.farms then [] else connectedReservoirs[id])
    decreases |ids|
  {
    if |ids| > 0 {
      PutFarmsLists(ids[..|ids| - 1], farmInfections, connectedReservoirs);
    }
  }

  /** The whole reading in terms of the lines: it fails exactly when a line has no field, and
      otherwise the farms are the ids of the lines (their values and lists are as
      `PutFarmsFarms` and `PutFarmsLists` state). */
  lemma FarmDataIds(lines: seq<string>, farmInfections: map<string, seq<string>>,
                    connectedReservoirs: map<string, seq<string>>)
    ensures ReadFarmData(lines, farmInfections, connectedReservoirs).Err? <==>
              exists i :: 0 <= i < |lines| && FarmId(lines[i]).Err?
    ensures ReadFarmData(lines, farmInfections, connectedReservoirs).Ok? ==>
              forall id :: id in ReadFarmData(lines, farmInfections, connectedReservoirs).value.farms <==>
                             exists i :: 0 <= i < |lines| && FarmId(lines[i]) == Ok(id)
  {
    var ids := FarmIds(lines);
    PutFarmsFails(ids, farmInfections, connectedReservoirs);
    if PutFarms(ids, farmInfections, connectedReservoirs).Ok? {
      PutFarmsFarms(ids, farmInfections, connectedReservoirs);
      forall id | Ok(id) in ids ensures exists i :: 0 <= i < |lines| && FarmId(lines[i]) == Ok(id) {
        var i :| 0 <= i < |ids| && ids[i] == Ok(id);
      }
    }
  }

  // ---------------------------------------------------------------------------
  // Movement frequencies
  // ---------------------------------------------------------------------------

  /** One line `departure-destination n1,n2,...` of a movement-distribution file: the two unit
      ids and the batch sizes of the movements between them. */
  datatype MoveLine = MoveLine(departure: string, destination: string, sizes: seq<int>)

  /** Splitting one line: at the first blank into the unit pair and the batch sizes, the pair
      at '-'. A line lacking either half or the second unit id aborts; converting the sizes
      text (`toIntegerArray`) is a parameter whose failure aborts too. */
  function ParseMoveLine(line: string, toIntegerArray: string -> Option<seq<int>>): (r: Result<MoveLine>)
    ensures r.Ok? ==> '-' !in r.value.departure && '-' !in r.value.destination
  {
    var split := JavaSplit(line, ' ');
    if |split| < 2 then Err("array index out of bounds")
    else
      var unitIds := JavaSplit(split[0], '-');
      if |unitIds| < 2 then Err("array index out of bounds")
      else
        match toIntegerArray(split[1])
        case None => Err("number format")
        case Some(sizes) =>
          SeparatorFreeParts(split[0], '-', unitIds);
          Ok(MoveLine(unitIds[0], unitIds[1], sizes))
  }

  /** A line written as `departure-destination sizes` reads back as those three parts,
      provided neither id contains '-' or a blank, the destination and the sizes text are not
      empty, and the sizes text has no blank. */
  lemma MoveLineRoundTrip(departure: string, destination: string, text: string,
                          toIntegerArray: string -> Option<seq<int>>)
    requires '-' !in departure && '-' !in destination && ' ' !in departure && ' ' !in destination
    requires ' ' !in text && text != "" && destination != "" && toIntegerArray(text).Some?
    ensures ParseMoveLine(departure + "-" + destination + " " + text, toIntegerArray) ==
              Ok(MoveLine(departure, destination, toIntegerArray(text).value))
  {
    var pair := departure + "-" + destination;
    assert ' ' !in pair by {
      assert forall i :: 0 <= i < |pair| ==> pair[i] == (if i < |departure| then departure[i] else if i == |departure| then '-' else destination[i - |departure| - 1]);
    }
    SplitPair(pair, text, ' ');
    SplitPair(departure, destination, '-');
  }

  /** A string with one separator between two separator-free fields, the second not empty,
      splits into those two fields. */
  lemma SplitPair(a: string, b: string, sep: char)
    requires sep !in a && sep !in b && b != ""
    ensures JavaSplit(a + [sep] + b, sep) == [a, b]
  {
    var s := a + [sep] + b;
    SplitAllField(a, sep, b);
    SplitAllPlain(b, sep);
    assert s[|a|] == sep;
  }

  /** The fields of a split never contain the separator. */
  lemma SeparatorFreeParts(s: string, sep: char, parts: seq<string>)
    requires parts == JavaSplit(s, sep)
    ensures forall i :: 0 <= i < |parts| ==> sep !in parts[i]
  {
    SplitAllSeparatorFree(s, sep);
  }

  lemma {:induction false} SplitAllSeparatorFree(s: string, sep: char)
    ensures forall i :: 0 <= i < |SplitAll(s, sep)| ==> sep !in SplitAll(s, sep)[i]
    decreases |s|
  {
    if |s| > 0 {
      SplitAllSeparatorFree(s[1..], sep);
    }
  }

  /** The file's species: cattle lines fill the farms and the cattle pairs, badger lines the
      reservoirs and the badger pairs, and any other name fills nothing. */
  const CATTLE := "Cattle"
  const BADGER := "Badger"

  /** What `readMovementFrequencies` changes: the units' off-movement distributions, the
      (departure, destination) pair lists of the project settings, and the number of animals
      moved, which it returns. */
  datatype Movements = Movements(
    farms: map<string, Farm>,
    reservoirs: map<string, Reservoir>,
    cattlePairs: seq<(string, string)>,
    badgerPairs: seq<(string, string)>,
    numMoves: int)

  /** One `setFrequency` per batch size, in order. */
  function AddSizes(d: Distribution, sizes: seq<int>): Distribution
    decreases |sizes|
  {
    if |sizes| == 0 then d else AddSizes(Increment(d, sizes[0]), sizes[1..])
  }

  /** Each batch size is one more observation of that size. */
  lemma {:induction false} AddSizesCounts(d: Distribution, sizes: seq<int>, b: int)
    ensures Freq(AddSizes(d, sizes), b) == Freq(d, b) + multiset(sizes)[b]
    decreases |sizes|
  {
    if |sizes| > 0 {
      AddSizesCounts(Increment(d, sizes[0]), sizes[1..], b);
      assert sizes == [sizes[0]] + sizes[1..];
    }
  }

  /** One line: a move to self is skipped; otherwise the pair is appended to the species'
      list and each batch size is recorded against the departure unit and added to the
      total. The unit is looked up once per batch size, so a departure unit that is not in
      the table aborts only when the line has at least one size. */
  function MoveStep(m: Movements, species: string, line: MoveLine): (r: Result<Movements>)
  {
    if line.departure == line.destination then Ok(m)
    else if species == CATTLE then
      if |line.sizes| == 0 then
        Ok(m.(cattlePairs := m.cattlePairs + [(line.departure, line.destination)]))
      else if line.departure !in m.farms then Err("null pointer: unknown farm")
      else
        var f := m.farms[line.departure];
        Ok(m.(farms := m.farms[line.departure := f.(offMovement := AddSizes(f.offMovement, line.sizes))],
              cattlePairs := m.cattlePairs + [(line.departure, line.destination)],
              numMoves := m.numMoves + Sum(line.sizes)))
    else if species == BADGER then
      if |line.sizes| == 0 then
        Ok(m.(badgerPairs := m.badgerPairs + [(line.departure, line.destination)]))
      else if line.departure !in m.reservoirs then Err("null pointer: unknown reservoir")
      else
        var u := m.reservoirs[line.departure];
        Ok(m.(reservoirs := m.reservoirs[line.departure := u.(offMovement := AddSizes(u.offMovement, line.sizes))],
              badgerPairs := m.badgerPairs + [(line.departure, line.destination)],
              numMoves := m.numMoves + Sum(line.sizes)))
    else Ok(m)
  }

  /** The lines in file order; the first failing line aborts. */
  function ReadMoves(m: Movements, species: string, lines: seq<MoveLine>): (r: Result<Movements>)
    decreases |lines|
  {
    if |lines| == 0 then Ok(m)
    else
      var prefix :- ReadMoves(m, species, lines[..|lines| - 1]);
      MoveStep(prefix, species, lines[|lines| - 1])
  }

  /** `readMovementFrequencies`: the total starts at zero. */
  function ReadMovementFrequencies(species: string, lines: seq<MoveLine>, farms: map<string, Farm>,
                                   reservoirs: map<string, Reservoir>, cattlePairs: seq<(string, string)>,
                                   badgerPairs: seq<(string, string)>): Result<Movements>
  {
    ReadMoves(Movements(farms, reservoirs, cattlePairs, badgerPairs, 0), species, lines)
  }

  // Reference definitions over the lines that are not moves to self.

  /** The (departure, destination) pairs of the lines that are not moves to self, in order. */
  function NonSelfPairs(lines: seq<MoveLine>): seq<(string, string)>
    decreases |lines|
  {
    if |lines| == 0 then []
    else
      var l := lines[|lines| - 1];
      NonSelfPairs(lines[..|lines| - 1]) + (if l.departure == l.destination then [] else [(l.departure, l.destination)])
  }

  /** The animals moved by the lines that are not moves to self. */
  function MovedAnimals(lines: seq<MoveLine>): int
    decreases |lines|
  {
    if |lines| == 0 then 0
    else
      var l := lines[|lines| - 1];
      MovedAnimals(lines[..|lines| - 1]) + (if l.departure == l.destination then 0 else Sum(l.sizes))
  }

  /** How many batches of size `b` leave unit `u` on lines that are not moves to self. */
  function Departures(lines: seq<MoveLine>, u: string, b: int): nat
    decreases |lines|
  {
    if |lines| == 0 then 0
    else
      var l := lines[|lines| - 1];
      Departures(lines[..|lines| - 1], u, b) +
        (if l.departure == l.destination || l.departure != u then 0 else multiset(l.sizes)[b])
  }

  /** The unit table a species' lines change. */
  predicate Known(m: Movements, species: string, u: string)
  {
    if species == CATTLE then u in m.farms else if species == BADGER then u in m.reservoirs else true
  }

  /** Reading fails exactly when a line that is not a move to self, and that lists at least
      one batch size, departs from a unit the species' table does not hold. */
  lemma {:induction false} MovesFail(m: Movements, species: string, lines: seq<MoveLine>)
    ensures ReadMoves(m, species, lines).Err? <==>
              exists i :: 0 <= i < |lines| && lines[i].departure != lines[i].destination &&
                          |lines[i].sizes| > 0 && !Known(m, species, lines[i].departure)
    ensures ReadMoves(m, species, lines).Ok? ==>
              ReadMoves(m, species, lines).value.farms.Keys == m.farms.Keys &&
              ReadMoves(m, species, lines).value.reservoirs.Keys == m.reservoirs.Keys
    decreases |lines|
  {
    if |lines| > 0 {
      var init := lines[..|lines| - 1];
      MovesFail(m, species, init);
      if exists i :: 0 <= i < |init| && init[i].departure != init[i].destination && |init[i].sizes| > 0 && !Known(m, species, init[i].departure) {
        var i :| 0 <= i < |init| && init[i].departure != init[i].destination && |init[i].sizes| > 0 && !Known(m, species, init[i].departure);
        assert lines[i] == init[i];
      }
      if exists i :: 0 <= i < |lines| && lines[i].departure != lines[i].destination && |lines[i].sizes| > 0 && !Known(m, species, lines[i].departure) {
        var i :| 0 <= i < |lines| && lines[i].departure != lines[i].destination && |lines[i].sizes| > 0 && !Known(m, species, lines[i].departure);
        if i < |init| {
          assert init[i] == lines[i];
        }
      }
    }
  }

  /** Each line that is not a move to self appends exactly its pair to its species' list, in
      file order, and the other species' list and units are untouched; a file of another
      species changes nothing. */
  lemma {:induction false} MovesPairs(m: Movements, species: string, lines: seq<MoveLine>)
    requires ReadMoves(m, species, lines).Ok?
    ensures var r := ReadMoves(m, species, lines).value;
      && (species == CATTLE ==>
            r.cattlePairs == m.cattlePairs + NonSelfPairs(lines) && r.badgerPairs == m.badgerPairs &&
            r.reservoirs == m.reservoirs)
      && (species == BADGER ==>
            r.badgerPairs == m.badgerPairs + NonSelfPairs(lines) && r.cattlePairs == m.cattlePairs &&
            r.farms == m.farms)
      && (species != CATTLE && species != BADGER ==> r == m)
    decreases |lines|
  {
    if |lines| > 0 {
      MovesPairs(m, species, lines[..|lines| - 1]);
    }
  }

  /** The total is the number of animals on the lines that are not moves to self, or zero for
      a file of another species. */
  lemma {:induction false} MovesTotal(m: Movements, species: string, lines: seq<MoveLine>)
    requires ReadMoves(m, species, lines).Ok?
    ensures ReadMoves(m, species, lines).value.numMoves ==
              m.numMoves + if species == CATTLE || species == BADGER then MovedAnimals(lines) else 0
    decreases |lines|
  {
    if |lines| > 0 {
      MovesTotal(m, species, lines[..|lines| - 1]);
    }
  }

  /** Each batch size of a line that is not a move to self is one more observation of that
      size in the departure farm's off-movement distribution; nothing else about a farm
      changes. */
  lemma {:induction false} MovesFarmFrequencies(m: Movements, lines: seq<MoveLine>, u: string, b: int)
    requires ReadMoves(m, CATTLE, lines).Ok? && u in m.farms
    ensures var r := ReadMoves(m, CATTLE, lines).value;
      && u in r.farms
      && Freq(r.farms[u].offMovement, b) == Freq(m.farms[u].offMovement, b) + Departures(lines, u, b)
      && r.farms[u] == m.farms[u].(offMovement := r.farms[u].offMovement)
    decreases |lines|
  {
    if |lines| > 0 {
      var init := lines[..|lines| - 1];
      MovesFarmFrequencies(m, init, u, b);
      MovesFail(m, CATTLE, init);
      var l := lines[|lines| - 1];
      var p := ReadMoves(m, CATTLE, init).value;
      if l.departure != l.destination && l.departure == u {
        AddSizesCounts(p.farms[u].offMovement, l.sizes, b);
      }
    }
  }

  /** The same for the reservoirs of a badger file. */
  lemma {:induction false} MovesReservoirFrequencies(m: Movements, lines: seq<MoveLine>, u: string, b: int)
    requires ReadMoves(m, BADGER, lines).Ok? && u in m.reservoirs
    ensures var r := ReadMoves(m, BADGER, lines).value;
      && u in r.reservoirs
      && Freq(r.reservoirs[u].offMovement, b) == Freq(m.reservoirs[u].offMovement, b) + Departures(lines, u, b)
      && r.reservoirs[u] == m.reservoirs[u].(offMovement := r.reservoirs[u].offMovement)
    decreases |lines|
  {
    if |lines| > 0 {
      var init := lines[..|lines| - 1];
      MovesReservoirFrequencies(m, init, u, b);
      MovesFail(m, BADGER, init);
      var l := lines[|lines| - 1];
      var p := ReadMoves(m, BADGER, init).value;
      if l.departure != l.destination && l.departure == u {
        AddSizesCounts(p.reservoirs[u].offMovement, l.sizes, b);
      }
    }
  }

  // ---------------------------------------------------------------------------
  // The sett-to-farm network
  // ---------------------------------------------------------------------------

  /** The reservoir id named by the first field `PREFIX_nnn` of a definition line: the integer
      after the first '_', rendered back as a decimal without padding. A field without '_', or
      with no integer after it, aborts. */
  function ReservoirId(field: string): (r: Result<string>)
    ensures r.Ok? ==> exists n :: INT_MIN <= n <= INT_MAX && r.value == IntToString(n)
  {
    var parts := JavaSplit(field, '_');
    if |parts| < 2 then Err("array index out of bounds")
    else
      match ParseInt(parts[1])
      case None => Err("number format")
      case Some(n) => Ok(IntToString(n))
  }

  /** A zero-padded reservoir name gives back the number without its padding, whatever the
      prefix before the '_'. */
  lemma ReservoirIdRoundTrip(prefix: string, n: nat, width: nat)
    requires '_' !in prefix && n <= INT_MAX
    ensures ReservoirId(prefix + "_" + ZeroPad(NatToString(n), width)) == Ok(IntToString(n))
  {
    var digits := NatToString(n);
    var padded := ZeroPad(digits, width);
    ZeroPadValue(digits, width);
    assert '_' !in padded by {
      forall i | 0 <= i < |padded| ensures padded[i] != '_' {
        assert IsDigit(padded[i]);
      }
    }
    SplitPair(prefix, padded, '_');
    assert IsDigit(padded[0]);
  }

  /** A parsed definition line: the reservoir id, the farm ids as listed, and the same ids
      trimmed, under which the farms' lists are looked up. */
  datatype Definition = Definition(rid: string, farms: seq<string>, keys: seq<string>)

  /** One definition line `PREFIX_nnn:farm,farm,...`. A line without a colon-separated farm
      list aborts. */
  function DefinitionLine(line: string): (r: Result<Definition>)
    ensures r.Ok? ==> r.value.keys == TrimAll(r.value.farms)
  {
    var split := JavaSplit(line, ':');
    if |split| == 0 then Err("array index out of bounds")
    else
      var rid :- ReservoirId(split[0]);
      if |split| < 2 then Err("array index out of bounds")
      else
        var farms := JavaSplit(split[1], ',');
        Ok(Definition(rid, farms, TrimAll(farms)))
  }

  /** A definition line as the network file writes it, `PREFIX_007:f1,f2`, reads back as
      reservoir `7` with those farms, untrimmed, and their trimmed ids. */
  lemma DefinitionRoundTrip(prefix: string, n: nat, width: nat, farms: seq<string>)
    requires '_' !in prefix && ':' !in prefix && n <= INT_MAX
    requires |farms| >= 1 && farms[|farms| - 1] != "" && SeparatorFree(farms, ',') && SeparatorFree(farms, ':')
    ensures DefinitionLine(prefix + "_" + ZeroPad(NatToString(n), width) + ":" + Join(farms, ',')) ==
              Ok(Definition(IntToString(n), farms, TrimAll(farms)))
  {
    var padded := ZeroPad(NatToString(n), width);
    var field := prefix + "_" + padded;
    var rest := Join(farms, ',');
    ZeroPadValue(NatToString(n), width);
    assert ':' !in field by {
      forall i | 0 <= i < |field| ensures field[i] != ':' {
        if i > |prefix| {
          assert field[i] == padded[i - |prefix| - 1] && IsDigit(padded[i - |prefix| - 1]);
        }
      }
    }
    JoinAvoids(farms, ',', ':');
    JoinShape(farms, ',');
    assert prefix + "_" + padded + ":" + rest == field + [':'] + rest;
    SplitPair(field, rest, ':');
    ReservoirIdRoundTrip(prefix, n, width);
    SplitJoinBack(farms, ',');
  }

  function Definitions(lines: seq<string>): (r: seq<Result<Definition>>)
    ensures |r| == |lines| && forall i :: 0 <= i < |lines| ==> r[i] == DefinitionLine(lines[i])
  {
    seq(|lines|, i requires 0 <= i < |lines| => DefinitionLine(lines[i]))
  }

  function TrimAll(farms: seq<string>): (r: seq<string>)
    ensures |r| == |farms| && forall i :: 0 <= i < |farms| ==> r[i] == Trim(farms[i])
  {
    seq(|farms|, i requires 0 <= i < |farms| => Trim(farms[i]))
  }

  /** What `readReservoirDefinitions` changes: the reservoirs' connected-farm lists and each
      farm's connected-reservoir list. */
  datatype Network = Network(reservoirs: map<string, Reservoir>, connectedReservoirs: map<string, seq<string>>)

  /** The reservoir is added to the list of each farm in turn; a farm without a list
      aborts. */
  function Connect(connected: map<string, seq<string>>, keys: seq<string>, rid: string): Result<map<string, seq<string>>>
    decreases |keys|
  {
    if |keys| == 0 then Ok(connected)
    else
      var c :- Connect(connected, keys[..|keys| - 1], rid);
      var f := keys[|keys| - 1];
      if f !in c then Err("null pointer: unknown farm") else Ok(c[f := c[f] + [rid]])
  }

  function Repeat<T>(x: T, n: nat): (r: seq<T>)
    ensures |r| == n && forall i :: 0 <= i < n ==> r[i] == x
  {
    seq(n, _ => x)
  }

  /** Connecting fails exactly when a listed farm has no list; otherwise every farm's list
      gains the reservoir once per listing of that farm. */
  lemma {:induction false} ConnectLists(connected: map<string, seq<string>>, keys: seq<string>, rid: string)
    ensures Connect(connected, keys, rid).Ok? <==> forall f :: f in keys ==> f in connected
    ensures Connect(connected, keys, rid).Ok? ==>
              && Connect(connected, keys, rid).value.Keys == connected.Keys
              && forall k :: k in connected ==>
                   Connect(connected, keys, rid).value[k] == connected[k] + Repeat(rid, multiset(keys)[k])
    decreases |keys|
  {
    if |keys| > 0 {
      var init := keys[..|keys| - 1];
      var f := keys[|keys| - 1];
      ConnectLists(connected, init, rid);
      assert keys == init + [f];
      if Connect(connected, keys, rid).Ok? {
        forall k | k in connected
          ensures Connect(connected, keys, rid).value[k] == connected[k] + Repeat(rid, multiset(keys)[k])
        {
          if f == k {
            assert Repeat(rid, multiset(keys)[k]) == Repeat(rid, multiset(init)[k]) + [rid];
          }
        }
      }
    }
  }

  /** One definition: the reservoir's connected farms gain the listed farms untrimmed, and
      each listed farm, trimmed, gains the reservoir. An unknown reservoir aborts. */
  function Define(t: Network, d: Definition): (r: Result<Network>)
    ensures r.Ok? ==>
      && d.rid in t.reservoirs
      && r.value.reservoirs == t.reservoirs[d.rid := t.reservoirs[d.rid].(connectedFarms := t.reservoirs[d.rid].connectedFarms + d.farms)]
  {
    if d.rid !in t.reservoirs then Err("null pointer: unknown reservoir")
    else
      var u := t.reservoirs[d.rid];
      var reservoirs := t.reservoirs[d.rid := u.(connectedFarms := u.connectedFarms + d.farms)];
      var connected :- Connect(t.connectedReservoirs, d.keys, d.rid);
      Ok(Network(reservoirs, connected))
  }

  /** The definitions in file order; the first failing one aborts. */
  function DefineAll(t: Network, defs: seq<Result<Definition>>): Result<Network>
    decreases |defs|
  {
    if |defs| == 0 then Ok(t)
    else
      var prefix :- DefineAll(t, defs[..|defs| - 1]);
      var d :- defs[|defs| - 1];
      Define(prefix, d)
  }

  /** `readReservoirDefinitions`. */
  function ReadReservoirDefinitions(lines: seq<string>, reservoirs: map<string, Reservoir>,
                                    connectedReservoirs: map<string, seq<string>>): Result<Network>
  {
    DefineAll(Network(reservoirs, connectedReservoirs), Definitions(lines))
  }

  // Reference definitions over the parsed definitions.

  /** The farms listed for reservoir `r`, untrimmed, in file order. */
  function FarmsOf(defs: seq<Result<Definition>>, r: string): seq<string>
    decreases |defs|
  {
    if |defs| == 0 then []
    else
      var d := defs[|defs| - 1];
      FarmsOf(defs[..|defs| - 1], r) + if d.Ok? && d.value.rid == r then d.value.farms else []
  }

  /** The reservoirs farm `k` is listed under, once per listing, in file order. */
  function ReservoirsOf(defs: seq<Result<Definition>>, k: string): seq<string>
    decreases |defs|
  {
    if |defs| == 0 then []
    else
      var d := defs[|defs| - 1];
      ReservoirsOf(defs[..|defs| - 1], k) + if d.Ok? then Repeat(d.value.rid, multiset(d.value.keys)[k]) else []
  }

  /** A definition that goes through against the given tables. */
  predicate Applies(d: Result<Definition>, reservoirs: set<string>, farms: set<string>)
  {
    d.Ok? && d.value.rid in reservoirs && forall f :: f in d.value.keys ==> f in farms
  }

  /** The keys of both tables never change. */
  lemma {:induction false} DefineAllKeys(t: Network, defs: seq<Result<Definition>>)
    requires DefineAll(t, defs).Ok?
    ensures DefineAll(t, defs).value.reservoirs.Keys == t.reservoirs.Keys
    ensures DefineAll(t, defs).value.connectedReservoirs.Keys == t.connectedReservoirs.Keys
    decreases |defs|
  {
    if |defs| > 0 {
      DefineAllKeys(t, defs[..|defs| - 1]);
      var p := DefineAll(t, defs[..|defs| - 1]).value;
      var d := defs[|defs| - 1].value;
      ConnectLists(p.connectedReservoirs, d.keys, d.rid);
    }
  }

  /** The network is read in full exactly when every line parses, names a known reservoir
      and lists only farms with a list. */
  lemma {:induction false} DefineAllFails(t: Network, defs: seq<Result<Definition>>)
    ensures DefineAll(t, defs).Ok? <==>
              forall i :: 0 <= i < |defs| ==> Applies(defs[i], t.reservoirs.Keys, t.connectedReservoirs.Keys)
    decreases |defs|
  {
    if |defs| > 0 {
      var init := defs[..|defs| - 1];
      DefineAllFails(t, init);
      assert forall i :: 0 <= i < |init| ==> init[i] == defs[i];
      var p := DefineAll(t, init);
      var d := defs[|defs| - 1];
      if p.Ok? && d.Ok? {
        DefineAllKeys(t, init);
        ConnectLists(p.value.connectedReservoirs, d.value.keys, d.value.rid);
      }
    }
  }

  /** Each reservoir's connected farms gain every farm listed for it, untrimmed and in file
      order; nothing else about a reservoir changes. */
  lemma {:induction false} DefineAllFarms(t: Network, defs: seq<Result<Definition>>, r: string)
    requires DefineAll(t, defs).Ok? && r in t.reservoirs
    ensures var rs := DefineAll(t, defs).value.reservoirs;
      r in rs && rs[r] == t.reservoirs[r].(connectedFarms := t.reservoirs[r].connectedFarms + FarmsOf(defs, r))
    decreases |defs|
  {
    if |defs| > 0 {
      DefineAllFarms(t, defs[..|defs| - 1], r);
    }
  }

  /** Each farm's connected reservoirs gain the reservoir of every line listing it, once per
      listing, in file order. */
  lemma {:induction false} DefineAllConnections(t: Network, defs: seq<Result<Definition>>, k: string)
    requires DefineAll(t, defs).Ok? && k in t.connectedReservoirs
    ensures var c := DefineAll(t, defs).value.connectedReservoirs;
      k in c && c[k] == t.connectedReservoirs[k] + ReservoirsOf(defs, k)
    decreases |defs|
  {
    if |defs| > 0 {
      var init := defs[..|defs| - 1];
      DefineAllConnections(t, init, k);
      var p := DefineAll(t, init).value;
      var d := defs[|defs| - 1].value;
      ConnectLists(p.connectedReservoirs, d.keys, d.rid);
    }
  }
}

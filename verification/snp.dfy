/** Project-wide settings that carry behaviour: the process-wide mutation counter that
    issues fresh SNP ids, and the step-size-dependent rates that may only be set after the
    step size. */
module Settings {
  import opened Common

  /** The ids issued by one call, and the counter after it. */
  datatype SnpBatch = SnpBatch(snps: set<int>, counter: nat)

  /** The integers in (lo, hi]. */
  function Range(lo: int, hi: int): (r: set<int>)
    ensures forall x :: x in r <==> lo < x <= hi
    ensures lo <= hi ==> |r| == hi - lo
    decreases hi - lo
  {
    if hi <= lo then {} else Range(lo, hi - 1) + {hi}
  }

  /** Number of SNPs a call produces. A negative rate is the seeding mode: at least one SNP,
      `day` of them when day is positive, whatever the last generation date. Otherwise the
      Poisson draw over the days elapsed since the last generation, none on the same day,
      and an error if the last generation lies in the future. */
  function SnpCount(rate: real, day: int, last: int, poisson: nat): (r: Result<nat>)
    ensures rate < 0.0 ==> r == Ok(if day > 1 then day else 1)
    ensures rate >= 0.0 && day < last ==> r.Err?
    ensures rate >= 0.0 && day == last ==> r == Ok(0)
    ensures rate >= 0.0 && day > last ==> r == Ok(poisson)
  {
    if rate < 0.0 then Ok(if day > 1 then day else 1)
    else if day - last < 0 then Result<nat>.Err("Day of the simulation should never be less than the last SNP generation.")
    else if day - last == 0 then Ok(0)
    else Ok(poisson)
  }

  /** The batch one `generateSnp` call hands out: the next SnpCount values after `counter`. */
  function NextSnps(rate: real, day: int, last: int, counter: nat, poisson: nat): (r: Result<SnpBatch>)
    ensures r.Err? <==> SnpCount(rate, day, last, poisson).Err?
    ensures r.Ok? ==> var n := SnpCount(rate, day, last, poisson).value;
      && r.value.counter == counter + n
      && (forall x :: x in r.value.snps <==> counter < x <= counter + n)
      && |r.value.snps| == n
  {
    var n :- SnpCount(rate, day, last, poisson);
    Ok(SnpBatch(Range(counter, counter + n), counter + n))
  }

  /** `generateSnp`: the next SNP-count values of the counter, issued by pre-incrementing it
      one at a time. `poisson` is the Poisson(rate * days) draw; it is only used when
      days > 0. The loop hands out exactly the batch `NextSnps` describes. */
  method GenerateSnp(rate: real, day: int, last: int, counter: nat, poisson: nat) returns (r: Result<SnpBatch>)
    ensures r == NextSnps(rate, day, last, counter, poisson)
  {
    var count := SnpCount(rate, day, last, poisson);
    if count.Err? {
      return Err(count.message);
    }
    var n := count.value;
    var snps: set<int> := {};
    var c := counter;
    var i := 0;
    while i < n
      invariant 0 <= i <= n
      invariant c == counter + i
      invariant snps == Range(counter, c)
    {
      c := c + 1;
      snps := snps + {c};
      i := i + 1;
    }
    return Ok(SnpBatch(snps, c));
  }

  /** Every id handed out exceeds the counter it was issued from and does not exceed the new
      counter, so the batches of successive calls are disjoint and each later id is larger
      than every earlier one. */
  lemma SuccessiveBatchesDisjoint(first: SnpBatch, second: SnpBatch, counter: nat)
    requires first.snps == Range(counter, first.counter) && counter <= first.counter
    requires second.snps == Range(first.counter, second.counter)
    ensures first.snps * second.snps == {}
    ensures forall x, y :: x in first.snps && y in second.snps ==> x < y
  {
  }

  // ---------------------------------------------------------------------------
  // Step-size-dependent parameters
  // ---------------------------------------------------------------------------

  datatype ProjectSettings = ProjectSettings(
    stepSize: int,
    initStepSize: bool,
    sigma: real,
    badgerDeathRate: real)

  /** Settings before any setter has run. */
  const Initial: ProjectSettings := ProjectSettings(0, false, 0.0, 0.0)

  /** `setStepSize`: records the step and that it has been set. */
  function SetStepSize(s: ProjectSettings, size: int): (r: ProjectSettings)
    ensures r.stepSize == size && r.initStepSize
    ensures r.sigma == s.sigma && r.badgerDeathRate == s.badgerDeathRate
  {
    s.(stepSize := size, initStepSize := true)
  }

  /** `setSigma`: the per-day progression rate scaled to one step; refused before the step
      size is known. */
  function SetSigma(s: ProjectSettings, sigma: real): (r: Result<ProjectSettings>)
    ensures r.Err? <==> !s.initStepSize
    ensures r.Ok? ==> r.value == s.(sigma := sigma * s.stepSize as real)
  {
    if !s.initStepSize then Err("Step size needs to be set before badger death rate.")
    else Ok(s.(sigma := sigma * s.stepSize as real))
  }

  /** `setBadgerDeathRate`: a yearly rate scaled to one step; refused before the step size is
      known. */
  function SetBadgerDeathRate(s: ProjectSettings, rate: real): (r: Result<ProjectSettings>)
    ensures r.Err? <==> !s.initStepSize
    ensures r.Ok? ==> r.value == s.(badgerDeathRate := rate * s.stepSize as real / 365.0)
  {
    if !s.initStepSize then Err("Step size needs to be set before badger death rate.")
    else Ok(s.(badgerDeathRate := rate * s.stepSize as real / 365.0))
  }

  /** Setting the step size first makes both scaled setters succeed, with values scaled by
      that step; in fresh settings they both fail. */
  lemma SetterOrdering(s: ProjectSettings, size: int, sigma: real, rate: real)
    ensures SetSigma(Initial, sigma).Err? && SetBadgerDeathRate(Initial, rate).Err?
    ensures SetSigma(SetStepSize(s, size), sigma).Ok?
    ensures SetSigma(SetStepSize(s, size), sigma).value.sigma == sigma * size as real
    ensures SetBadgerDeathRate(SetStepSize(s, size), rate).Ok?
    ensures SetBadgerDeathRate(SetStepSize(s, size), rate).value.badgerDeathRate == rate * size as real / 365.0
  {
  }
}

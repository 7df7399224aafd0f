/** What a scenario hands back and how a batch of scenarios is accumulated: the observed SNP
    distance distribution turned into multinomial probabilities, the structural part of the
    log-likelihood score (bin alignment, the rejected case, the sample-count check), the
    expected value over joined scores, and the counters and merged transmission trees that
    `join` keeps. Floating-point arithmetic of the likelihood itself is a parameter. */
module Results {
  import opened Common
  import opened Units
  import opened Transmission

  /** A Java double as far as the model needs to tell values apart: a finite value, either
      infinity, or NaN. */
  datatype Double = Num(x: real) | PosInf | NegInf | NaN
  {
    predicate IsFinite() { Num? }

    predicate IsInfinite() { PosInf? || NegInf? }
  }

  /** The score of a rejected scenario. */
  const MIN_VALUE: Double := NegInf

  // ---------------------------------------------------------------------------
  // The observed distribution
  // ---------------------------------------------------------------------------

  /** The observed pairwise SNP distance distribution: its bins in the distribution's own
      iteration order, and the frequency of each. */
  datatype Observed = Observed(bins: seq<int>, freq: Distribution)

  /** The summed frequency of the listed bins; over an enumeration of all bins this is
      `getSumCounts`. */
  function Total(bins: seq<int>, d: Distribution): nat
  {
    if |bins| == 0 then 0 else Freq(d, bins[0]) + Total(bins[1..], d)
  }

  function SumReals(xs: seq<real>): real
  {
    if |xs| == 0 then 0.0 else xs[0] + SumReals(xs[1..])
  }

  /** `(1.0 * x) / total` in double arithmetic: NaN for 0/0, exact otherwise (frequencies are
      never negative, so a zero total means every frequency is zero). */
  function Ratio(x: nat, total: nat): Double
  {
    if total == 0 then (if x == 0 then NaN else PosInf) else Num(x as real / total as real)
  }

  /** The constructor's multinomial probabilities: bin by bin, the bin's frequency over the
      total count. */
  function Probabilities(o: Observed): (p: seq<Double>)
    ensures |p| == |o.bins|
  {
    var total := Total(o.bins, o.freq);
    seq(|o.bins|, i requires 0 <= i < |o.bins| => Ratio(Freq(o.freq, o.bins[i]), total))
  }

  /** The real values of a list of finite doubles. */
  function Values(p: seq<Double>): (v: seq<real>)
    requires forall i :: 0 <= i < |p| ==> p[i].Num?
    ensures |v| == |p| && forall i :: 0 <= i < |p| ==> v[i] == p[i].x
  {
    if |p| == 0 then [] else [p[0].x] + Values(p[1..])
  }

  /** Each listed bin's share of `total`. */
  function Shares(bins: seq<int>, d: Distribution, total: nat): (r: seq<real>)
    requires total > 0
    ensures |r| == |bins| && forall i :: 0 <= i < |bins| ==> r[i] == Freq(d, bins[i]) as real / total as real
  {
    if |bins| == 0 then [] else [Freq(d, bins[0]) as real / total as real] + Shares(bins[1..], d, total)
  }

  /** The shares add up to the listed bins' total over `total`. */
  lemma {:induction false} SumOfShares(bins: seq<int>, d: Distribution, total: nat)
    requires total > 0
    ensures SumReals(Shares(bins, d, total)) == Total(bins, d) as real / total as real
  {
    if |bins| > 0 {
      SumOfShares(bins[1..], d, total);
      DivAdd(Freq(d, bins[0]) as real, Total(bins[1..], d) as real, total as real);
    }
  }

  lemma DivAdd(a: real, b: real, t: real)
    requires t > 0.0
    ensures a / t + b / t == (a + b) / t
  {
  }

  /** With no observation at all, every probability is NaN. */
  lemma ProbabilitiesEmptyNaN(o: Observed)
    requires Total(o.bins, o.freq) == 0
    ensures forall i :: 0 <= i < |o.bins| ==> Probabilities(o)[i] == NaN
  {
    var p := Probabilities(o);
    forall i | 0 <= i < |o.bins| ensures p[i] == NaN {
      TotalCoversBin(o.bins, o.freq, i);
    }
  }

  /** With at least one observation, the probabilities are finite and sum to one. */
  lemma ProbabilitiesSumToOne(o: Observed)
    requires Total(o.bins, o.freq) > 0
    ensures forall i :: 0 <= i < |o.bins| ==> Probabilities(o)[i].Num?
    ensures SumReals(Values(Probabilities(o))) == 1.0
  {
    var total := Total(o.bins, o.freq);
    var p := Probabilities(o);
    assert Values(p) == Shares(o.bins, o.freq, total);
    SumOfShares(o.bins, o.freq, total);
  }

  /** Every listed bin's frequency is part of the total. */
  lemma {:induction false} TotalCoversBin(bins: seq<int>, d: Distribution, i: int)
    requires 0 <= i < |bins|
    ensures Freq(d, bins[i]) <= Total(bins, d)
  {
    if i > 0 {
      TotalCoversBin(bins[1..], d, i - 1);
    }
  }

  /** The total is zero exactly when every listed bin is empty. */
  lemma {:induction false} TotalZero(bins: seq<int>, d: Distribution)
    ensures Total(bins, d) == 0 <==> forall i :: 0 <= i < |bins| ==> Freq(d, bins[i]) == 0
  {
    if |bins| > 0 {
      TotalZero(bins[1..], d);
      forall i | 1 <= i < |bins| ensures bins[i] == bins[1..][i - 1] {}
    }
  }

  // ---------------------------------------------------------------------------
  // The score
  // ---------------------------------------------------------------------------

  /** The simulated histogram restricted to the observed bins, an absent bin counting 0. */
  function Restricted(bins: seq<int>, simulated: Distribution): (h: Distribution)
  {
    map b | b in Elems(bins) :: Freq(simulated, b)
  }

  /** The restriction keeps exactly the observed bins and the simulated frequency of each; the
      rest of the simulated histogram plays no part. */
  lemma RestrictedBins(bins: seq<int>, simulated: Distribution, b: int)
    ensures Restricted(bins, simulated).Keys == Elems(bins)
    ensures Freq(Restricted(bins, simulated), b) == if b in bins then Freq(simulated, b) else 0
  {
  }

  /** Summed over the observed bins, the restriction counts what the simulation put in those
      bins. */
  lemma {:induction false} RestrictedTotal(bins: seq<int>, prefix: seq<int>, simulated: Distribution)
    requires forall i :: 0 <= i < |prefix| ==> prefix[i] in bins
    ensures Total(prefix, Restricted(bins, simulated)) == Total(prefix, simulated)
  {
    if |prefix| > 0 {
      assert prefix[0] in Elems(bins);
      RestrictedTotal(bins, prefix[1..], simulated);
    }
  }

  /** What the floating-point part of the score produces: `normaliseBins(expectedCount)` as an
      array, and the log-likelihood computed from it. */
  datatype ScoreDraw = ScoreDraw(normalised: seq<int>, logLikelihood: real)

  /** `getScore`: −∞ when the simulation put nothing in any observed bin; an error when the
      normalised bins do not add up to the multinomial's sample count (or are too few to
      index); otherwise the finite log-likelihood. */
  function Score(o: Observed, simulated: Distribution, d: ScoreDraw): (r: Result<Double>)
    ensures r.Ok? ==> r.value.Num? || r.value == MIN_VALUE
  {
    var k := |o.bins|;
    var generated := Restricted(o.bins, simulated);
    if Total(o.bins, generated) == 0 then Ok(MIN_VALUE)
    else if |d.normalised| < k then Err("array index out of bounds")
    else if Sum(d.normalised[..k]) != Total(o.bins, o.freq) then Err("Multinomial distribution error")
    else Ok(Num(d.logLikelihood))
  }

  /** The score is −∞ exactly when no observed bin received a simulated pair, and it fails
      exactly when some did but the normalised counts disagree with the observed total. */
  lemma ScoreCases(o: Observed, simulated: Distribution, d: ScoreDraw)
    ensures Score(o, simulated, d) == Ok(MIN_VALUE) <==>
              forall i :: 0 <= i < |o.bins| ==> Freq(simulated, o.bins[i]) == 0
    ensures Score(o, simulated, d).Err? <==>
              && (exists i :: 0 <= i < |o.bins| && Freq(simulated, o.bins[i]) > 0)
              && (|d.normalised| < |o.bins| || Sum(d.normalised[..|o.bins|]) != Total(o.bins, o.freq))
  {
    RestrictedTotal(o.bins, o.bins, simulated);
    TotalZero(o.bins, simulated);
  }

  // ---------------------------------------------------------------------------
  // Accumulated results
  // ---------------------------------------------------------------------------

  /** A merged transmission tree: one node per id, and for each (source, destination) edge the
      number of joined scenarios that had it. */
  datatype MergedTree = MergedTree(nodes: map<string, Node>, weights: map<(string, string), nat>)

  /** The accumulator of `join`. */
  datatype Results = Results(
    expectedValue: seq<real>,
    sampledLikelihoods: seq<real>,
    rejectedScenarioCount: int,
    scenarioCount: int,
    outbreakContainedCount: int,
    tree: MergedTree,
    observedTree: MergedTree)

  /** What one finished scenario contributes: its outbreak-contained count, its pairwise SNP
      distance histogram, and its full and observed transmission trees. */
  datatype Outcome = Outcome(
    outbreakContainedCount: int,
    pairwise: Distribution,
    tree: Tree,
    observedTree: Tree)

  /** `reset`: nothing joined yet. */
  function Reset(): (r: Results)
    ensures |r.expectedValue| == 0 && |r.sampledLikelihoods| == 0
    ensures r.rejectedScenarioCount == 0 && r.scenarioCount == 0 && r.outbreakContainedCount == 0
    ensures r.tree.nodes == map[] && r.tree.weights == map[]
    ensures r.observedTree.nodes == map[] && r.observedTree.weights == map[]
  {
    Results([], [], 0, 0, 0, MergedTree(map[], map[]), MergedTree(map[], map[]))
  }

  /** The mean of a non-empty list of samples. */
  function Mean(xs: seq<real>): real
    requires |xs| > 0
  {
    SumReals(xs) / |xs| as real
  }

  /** `getExpectedValue`: the mean joined score, or −∞ before any score was joined. */
  function ExpectedValue(r: Results): (v: Double)
    ensures v == MIN_VALUE <==> |r.expectedValue| == 0
    ensures v.IsFinite() <==> |r.expectedValue| > 0
  {
    if |r.expectedValue| == 0 then MIN_VALUE else Num(Mean(r.expectedValue))
  }

  /** `addRejectedScenarioCount`: one more rejection only when asked, and the count after the
      update is returned. */
  function AddRejected(r: Results, rejected: bool): (out: (Results, int))
    ensures out.1 == out.0.rejectedScenarioCount
    ensures out.0.rejectedScenarioCount == r.rejectedScenarioCount + (if rejected then 1 else 0)
    ensures out.0.(rejectedScenarioCount := r.rejectedScenarioCount) == r
  {
    var s := if rejected then r.(rejectedScenarioCount := r.rejectedScenarioCount + 1) else r;
    (s, s.rejectedScenarioCount)
  }

  /** `incrementOutbreakContainedCount`. */
  function IncrementOutbreakContained(r: Results): (s: Results)
    ensures s.outbreakContainedCount == r.outbreakContainedCount + 1
    ensures s.(outbreakContainedCount := r.outbreakContainedCount) == r
  {
    r.(outbreakContainedCount := r.outbreakContainedCount + 1)
  }

  /** The weight of an edge, 0 when it was never seen. */
  function Weight(w: map<(string, string), nat>, e: (string, string)): nat
  {
    if e in w then w[e] else 0
  }

  /** The vertex loop of `join`: a node whose id is already present is kept as it was; the
      others are added. */
  function MergeNodes(mine: map<string, Node>, theirs: map<string, Node>): (m: map<string, Node>)
  {
    map k | k in mine.Keys + theirs.Keys :: if k in mine then mine[k] else theirs[k]
  }

  /** The edge loop of `join`: an edge already present gains one unit of weight; a new one is
      added with weight one. */
  function MergeEdges(w: map<(string, string), nat>, edges: set<(string, string)>): (m: map<(string, string), nat>)
  {
    map e | e in w.Keys + edges :: Weight(w, e) + (if e in edges then 1 else 0)
  }

  function MergeTree(m: MergedTree, t: Tree): MergedTree
  {
    MergedTree(MergeNodes(m.nodes, t.nodes), MergeEdges(m.weights, t.edges))
  }

  /** `join`: score the scenario; a −∞ score counts as a rejection, any other is added to both
      sample lists; then the outbreak-contained counts add up, both trees are merged and the
      scenario is counted. A failing score aborts the join. */
  function Join(r: Results, o: Observed, s: Outcome, d: ScoreDraw): (j: Result<Results>)
    ensures j.Err? <==> Score(o, s.pairwise, d).Err?
  {
    var likelihood :- Score(o, s.pairwise, d);
    var scored :=
      if likelihood != MIN_VALUE then
        r.(expectedValue := r.expectedValue + [likelihood.x],
           sampledLikelihoods := r.sampledLikelihoods + [likelihood.x])
      else AddRejected(r, true).0;
    Ok(scored.(outbreakContainedCount := scored.outbreakContainedCount + s.outbreakContainedCount,
               tree := MergeTree(scored.tree, s.tree),
               observedTree := MergeTree(scored.observedTree, s.observedTree),
               scenarioCount := scored.scenarioCount + 1))
  }

  /** Every joined scenario is counted once, either as a sample or as a rejection, and the two
      sample lists stay identical. */
  predicate Tallied(r: Results)
  {
    r.sampledLikelihoods == r.expectedValue && |r.expectedValue| + r.rejectedScenarioCount == r.scenarioCount
  }

  /** A fresh accumulator is tallied, and `join` keeps it so. */
  lemma JoinTallied(r: Results, o: Observed, s: Outcome, d: ScoreDraw)
    ensures Tallied(Reset())
    ensures Tallied(r) && Join(r, o, s, d).Ok? ==> Tallied(Join(r, o, s, d).value)
  {
  }

  /** What one join adds: one scenario; a rejection exactly when the score is −∞, and
      otherwise the score as the last sample; the other result's outbreak-contained count. */
  lemma JoinCounts(r: Results, o: Observed, s: Outcome, d: ScoreDraw)
    requires Join(r, o, s, d).Ok?
    ensures var j := Join(r, o, s, d).value;
      var score := Score(o, s.pairwise, d).value;
      && j.scenarioCount == r.scenarioCount + 1
      && j.outbreakContainedCount == r.outbreakContainedCount + s.outbreakContainedCount
      && (score == MIN_VALUE ==>
            j.rejectedScenarioCount == r.rejectedScenarioCount + 1 && j.expectedValue == r.expectedValue)
      && (score != MIN_VALUE ==>
            j.rejectedScenarioCount == r.rejectedScenarioCount && j.expectedValue == r.expectedValue + [score.x])
  {
  }

  /** After a scenario with a finite score has been joined, the expected value is finite; it is
      −∞ only while every joined scenario was rejected. */
  lemma JoinFinite(r: Results, o: Observed, s: Outcome, d: ScoreDraw)
    requires Join(r, o, s, d).Ok? && Score(o, s.pairwise, d).value.Num?
    ensures ExpectedValue(Join(r, o, s, d).value).IsFinite()
  {
  }

  /** The number of trees in `trees` that have edge `e`. */
  function Occurrences(trees: seq<Tree>, e: (string, string)): nat
  {
    if |trees| == 0 then 0 else (if e in trees[|trees| - 1].edges then 1 else 0) + Occurrences(trees[..|trees| - 1], e)
  }

  /** Merging the scenario trees one after another into an empty tree. */
  function MergeAll(trees: seq<Tree>): MergedTree
  {
    if |trees| == 0 then MergedTree(map[], map[]) else MergeTree(MergeAll(trees[..|trees| - 1]), trees[|trees| - 1])
  }

  /** After any number of joins, an edge's weight is the number of joined trees that contain
      it, and the merged tree has a node for every id seen, taken from the first tree that had
      it. */
  lemma {:induction false} MergeAllCounts(trees: seq<Tree>, e: (string, string))
    ensures Weight(MergeAll(trees).weights, e) == Occurrences(trees, e)
    ensures e in MergeAll(trees).weights <==> Occurrences(trees, e) > 0
  {
    if |trees| > 0 {
      MergeAllCounts(trees[..|trees| - 1], e);
    }
  }

  /** A node id in the merged tree comes from the first tree that had it. */
  lemma {:induction false} MergeAllFirstNode(trees: seq<Tree>, k: string, i: nat)
    requires i < |trees| && k in trees[i].nodes
    requires forall j :: 0 <= j < i ==> k !in trees[j].nodes
    ensures k in MergeAll(trees).nodes && MergeAll(trees).nodes[k] == trees[i].nodes[k]
  {
    var init := trees[..|trees| - 1];
    if i < |trees| - 1 {
      MergeAllFirstNode(init, k, i);
    } else {
      MergeAllAbsent(init, k);
    }
  }

  /** An id none of the trees had is not in the merged tree. */
  lemma {:induction false} MergeAllAbsent(trees: seq<Tree>, k: string)
    requires forall j :: 0 <= j < |trees| ==> k !in trees[j].nodes
    ensures k !in MergeAll(trees).nodes
  {
    if |trees| > 0 {
      MergeAllAbsent(trees[..|trees| - 1], k);
    }
  }
}

/** From the full transmission tree to the observed phylogeny: sampling of detected animals
    by year and species, pruning of unsampled vertices, and the histogram of pairwise SNP
    distances that the likelihood is computed from. */
module Phylogeny {
  import opened Common
  import opened Units
  import opened Transmission

  /** Calendar year of a detection date counted in days from the zero date. For a positive
      divisor Dafny's `/` rounds down, as Math.floor(date / 365.0) does. */
  function DetectionYear(date: int, zeroYear: int): (y: int)
    ensures 365 * (y - zeroYear) <= date < 365 * (y - zeroYear + 1)
  {
    date / 365 + zeroYear
  }

  /** Sampling probability of a year; a year absent from the table counts as 0.0. */
  function RateOf(rates: map<int, real>, year: int): real
  {
    if year in rates then rates[year] else 0.0
  }

  /** `includeNodeInPhylogeneticTree`: an undetected animal is never sampled; a detected one
      is sampled when the uniform draw does not exceed its species' rate for the detection
      year. */
  function IncludeNode(n: Node, cattleRates: map<int, real>, badgerRates: map<int, real>,
                       zeroYear: int, draw: real): (r: bool)
    ensures n.detectionDate.None? ==> !r
    ensures n.detectionDate.Some? ==>
      var year := DetectionYear(n.detectionDate.value, zeroYear);
      (r <==> draw <= RateOf(if n.cow then cattleRates else badgerRates, year))
  {
    match n.detectionDate
    case None => false
    case Some(date) =>
      var year := DetectionYear(date, zeroYear);
      draw <= RateOf(if n.cow then cattleRates else badgerRates, year)
  }

  /** A year with no sampling rate yields no sample for any positive draw. A draw of exactly
      zero would meet the zero rate and is not covered. */
  lemma MissingYearNeverSampled(n: Node, cattleRates: map<int, real>, badgerRates: map<int, real>,
                                zeroYear: int, draw: real)
    requires n.detectionDate.Some? && draw > 0.0
    requires DetectionYear(n.detectionDate.value, zeroYear) !in (if n.cow then cattleRates else badgerRates)
    ensures !IncludeNode(n, cattleRates, badgerRates, zeroYear, draw)
  {
  }

  /** The per-vertex decision of the pruning loop: ROOT is kept without consulting the random
      draw; every other vertex is kept if it is sampled. */
  predicate Keep(n: Node, cattleRates: map<int, real>, badgerRates: map<int, real>,
                 zeroYear: int, draw: string -> real)
  {
    n.id == ROOT_ID || IncludeNode(n, cattleRates, badgerRates, zeroYear, draw(n.id))
  }

  /** The pruning loop of the scenario run: visit the vertices of the full tree in `order`
      and remove from the observed copy each vertex that is not kept. `draw(id)` is the
      uniform value drawn when vertex `id` is visited. */
  function Prune(t: Tree, order: seq<string>, cattleRates: map<int, real>,
                 badgerRates: map<int, real>, zeroYear: int, draw: string -> real): (r: Tree)
    requires WellFormed(t) && Distinct(order)
    requires forall i :: 0 <= i < |order| ==> order[i] in t.nodes
    ensures WellFormed(r)
    ensures forall id :: id in r.nodes ==> id in t.nodes && r.nodes[id] == t.nodes[id]
    ensures forall id :: id in t.nodes ==>
      (id in r.nodes <==> id !in order || Keep(t.nodes[id], cattleRates, badgerRates, zeroYear, draw))
    decreases |order|
  {
    if |order| == 0 then t
    else
      var id := order[0];
      var next := if Keep(t.nodes[id], cattleRates, badgerRates, zeroYear, draw) then t else RemoveNode(t, id);
      RemoveNodeWellFormed(t, id);
      assert forall i :: 1 <= i < |order| ==> order[i] != id;
      Prune(next, order[1..], cattleRates, badgerRates, zeroYear, draw)
  }

  /** ROOT survives pruning. */
  lemma PruneKeepsRoot(t: Tree, order: seq<string>, cattleRates: map<int, real>,
                       badgerRates: map<int, real>, zeroYear: int, draw: string -> real)
    requires WellFormed(t) && Distinct(order)
    requires forall i :: 0 <= i < |order| ==> order[i] in t.nodes
    requires ROOT_ID in t.nodes
    ensures ROOT_ID in Prune(t, order, cattleRates, badgerRates, zeroYear, draw).nodes
  {
  }

  /** Visiting every vertex of the full tree once, in any order, leaves exactly the vertices
      that are kept. */
  lemma PruneEvery(t: Tree, order: seq<string>, cattleRates: map<int, real>,
                   badgerRates: map<int, real>, zeroYear: int, draw: string -> real)
    requires WellFormed(t) && Enumerates(order, t.nodes.Keys)
    ensures Distinct(order) && forall i :: 0 <= i < |order| ==> order[i] in t.nodes
    ensures forall id :: id in Prune(t, order, cattleRates, badgerRates, zeroYear, draw).nodes <==>
      id in t.nodes && Keep(t.nodes[id], cattleRates, badgerRates, zeroYear, draw)
  {
    forall i | 0 <= i < |order| ensures order[i] in t.nodes {
      assert order[i] in Elems(order);
    }
    forall id | id in t.nodes ensures id in order {
      assert id in Elems(order);
    }
  }

  /** Between surviving vertices, the observed tree has a path exactly when the full tree
      had one: each sampled animal hangs below its nearest sampled ancestor. */
  lemma {:induction false} PrunePreservesReach(t: Tree, order: seq<string>, cattleRates: map<int, real>,
                                             badgerRates: map<int, real>, zeroYear: int,
                                             draw: string -> real, a: string, b: string)
    requires WellFormed(t) && Distinct(order)
    requires forall i :: 0 <= i < |order| ==> order[i] in t.nodes
    requires a in Prune(t, order, cattleRates, badgerRates, zeroYear, draw).nodes
    requires b in Prune(t, order, cattleRates, badgerRates, zeroYear, draw).nodes
    ensures Reaches(Prune(t, order, cattleRates, badgerRates, zeroYear, draw), a, b) <==> Reaches(t, a, b)
    decreases |order|
  {
    if |order| > 0 {
      var id := order[0];
      var keep := Keep(t.nodes[id], cattleRates, badgerRates, zeroYear, draw);
      var next := if keep then t else RemoveNode(t, id);
      RemoveNodeWellFormed(t, id);
      assert forall i :: 1 <= i < |order| ==> order[i] != id;
      var r := Prune(next, order[1..], cattleRates, badgerRates, zeroYear, draw);
      assert Prune(t, order, cattleRates, badgerRates, zeroYear, draw) == r;
      PrunePreservesReach(next, order[1..], cattleRates, badgerRates, zeroYear, draw, a, b);
      if !keep {
        assert a in next.nodes && b in next.nodes;
        RemoveNodePreservesReach(t, id, a, b);
      }
    }
  }

  // ---------------------------------------------------------------------------
  // Pairwise SNP distances
  // ---------------------------------------------------------------------------

  /** Number of SNPs carried by exactly one of the two samples. */
  function SnpDistance(a: set<int>, b: set<int>): nat
  {
    |a - b| + |b - a|
  }

  /** The distance is symmetric, zero only between identical SNP sets, and equals the size
      of the symmetric difference. */
  lemma SnpDistanceProperties(a: set<int>, b: set<int>)
    ensures SnpDistance(a, b) == SnpDistance(b, a)
    ensures SnpDistance(a, b) == 0 <==> a == b
    ensures SnpDistance(a, b) == |(a - b) + (b - a)|
  {
    assert (a - b) * (b - a) == {};
    if SnpDistance(a, b) == 0 {
      assert a - b == {} && b - a == {};
      assert a == b;
    }
  }

  /** The two counting loops of `calculatePairwiseDistances`: walk A's SNPs counting those
      not in B, then B's SNPs counting those not in A. */
  method CountSnpDifference(a: set<int>, aOrder: seq<int>, b: set<int>, bOrder: seq<int>) returns (diff: nat)
    requires Enumerates(aOrder, a) && Enumerates(bOrder, b)
    ensures diff == SnpDistance(a, b)
  {
    var onlyA := CountMissing(aOrder, b);
    var onlyB := CountMissing(bOrder, a);
    diff := onlyA + onlyB;
  }

  /** One counting loop: how many of the listed SNPs the other sample lacks. */
  method CountMissing(order: seq<int>, other: set<int>) returns (n: nat)
    requires Distinct(order)
    ensures n == |Elems(order) - other|
  {
    n := 0;
    var i := 0;
    while i < |order|
      invariant 0 <= i <= |order|
      invariant n == |Elems(order[..i]) - other|
    {
      CountStep(order, i, other);
      if order[i] !in other {
        n := n + 1;
      }
      i := i + 1;
    }
    assert order[..i] == order;
  }

  /** One step of a counting loop: the next SNP adds one exactly when the other set lacks it. */
  lemma CountStep(order: seq<int>, i: nat, other: set<int>)
    requires Distinct(order) && i < |order|
    ensures |Elems(order[..i + 1]) - other| == |Elems(order[..i]) - other| + (if order[i] in other then 0 else 1)
  {
    var before := Elems(order[..i]);
    var after := Elems(order[..i + 1]);
    assert order[..i + 1] == order[..i] + [order[i]];
    assert after == before + {order[i]};
    assert order[i] !in before;
    if order[i] in other {
      assert after - other == before - other;
    } else {
      assert after - other == (before - other) + {order[i]};
    }
  }

  /** Distances from `a` to every vertex of `vs` with a different id, in the inner loop's order. */
  function Row(a: Node, vs: seq<Node>): (r: seq<nat>)
    ensures |r| <= |vs|
  {
    if |vs| == 0 then []
    else (if a.id != vs[0].id then [SnpDistance(a.snp, vs[0].snp)] else []) + Row(a, vs[1..])
  }

  /** All recorded distances: for every `a` of `outer`, its row against `all`. */
  function Ordered(outer: seq<Node>, all: seq<Node>): seq<nat>
  {
    if |outer| == 0 then [] else Row(outer[0], all) + Ordered(outer[1..], all)
  }

  /** Each unordered pair of positions once: the distance of vs[i] to every later vertex. */
  function Unordered(vs: seq<Node>): seq<nat>
  {
    if |vs| == 0 then [] else Row(vs[0], vs[1..]) + Unordered(vs[1..])
  }

  /** Histogram of a sequence of distances. */
  function Tally(s: seq<nat>): (d: Distribution)
    ensures forall x :: Freq(d, x) == multiset(s)[x]
  {
    if |s| == 0 then map[]
    else
      var rest := Tally(s[1..]);
      assert s == [s[0]] + s[1..];
      Increment(rest, s[0])
  }

  /** `calculatePairwiseDistances` over the vertices in iteration order. */
  function PairwiseDistances(vs: seq<Node>): (d: Distribution)
    ensures |vs| <= 1 ==> d == map[]
    ensures |vs| > 1 ==> forall x :: Freq(d, x) == multiset(Ordered(vs, vs))[x]
  {
    if |vs| > 1 then Tally(Ordered(vs, vs)) else map[]
  }

  predicate DistinctIds(vs: seq<Node>)
  {
    forall i, j :: 0 <= i < j < |vs| ==> vs[i].id != vs[j].id
  }

  lemma {:induction false} RowSplit(a: Node, v: Node, ys: seq<Node>)
    ensures Row(a, [v] + ys) == (if a.id != v.id then [SnpDistance(a.snp, v.snp)] else []) + Row(a, ys)
  {
    assert ([v] + ys)[1..] == ys;
  }

  /** The column of distances to `v`, taken over `xs`, is the row of `v` against `xs`. */
  lemma {:induction false} ColumnIsRow(xs: seq<Node>, v: Node, ys: seq<Node>)
    ensures multiset(Ordered(xs, [v] + ys)) == multiset(Row(v, xs)) + multiset(Ordered(xs, ys))
  {
    if |xs| > 0 {
      ColumnIsRow(xs[1..], v, ys);
      RowSplit(xs[0], v, ys);
      SnpDistanceProperties(xs[0].snp, v.snp);
    }
  }

  lemma {:induction false} RowSkipsSelf(v: Node, ys: seq<Node>)
    ensures Row(v, [v] + ys) == Row(v, ys)
  {
    RowSplit(v, v, ys);
  }

  /** Every unordered pair of distinct vertices is recorded twice: the multiset of recorded
      distances is two copies of the multiset over unordered pairs. */
  lemma {:induction false} OrderedIsTwiceUnordered(vs: seq<Node>)
    ensures multiset(Ordered(vs, vs)) == multiset(Unordered(vs)) + multiset(Unordered(vs))
  {
    if |vs| > 0 {
      var v := vs[0];
      var rest := vs[1..];
      assert vs == [v] + rest;
      RowSkipsSelf(v, rest);
      ColumnIsRow(rest, v, rest);
      OrderedIsTwiceUnordered(rest);
    }
  }

  /** Number of unordered pairs of distinct vertices, doubled. */
  lemma {:induction false} UnorderedCount(vs: seq<Node>)
    requires DistinctIds(vs)
    ensures 2 * |Unordered(vs)| == |vs| * (|vs| - 1)
  {
    if |vs| > 0 {
      var n := |vs|;
      RowAllOthers(vs[0], vs[1..]);
      UnorderedCount(vs[1..]);
      assert 2 * |Unordered(vs)| == 2 * (n - 1) + (n - 1) * (n - 2);
      assert 2 * (n - 1) + (n - 1) * (n - 2) == n * (n - 1);
    }
  }

  lemma {:induction false} RowAllOthers(a: Node, vs: seq<Node>)
    requires forall i :: 0 <= i < |vs| ==> vs[i].id != a.id
    ensures |Row(a, vs)| == |vs|
  {
    if |vs| > 0 {
      RowAllOthers(a, vs[1..]);
    }
  }

  /** The histogram counts each distance of an unordered pair of vertices exactly twice, and
      holds |V|·(|V|−1) observations in all. */
  lemma PairwiseHistogram(vs: seq<Node>, x: int)
    requires |vs| > 1 && DistinctIds(vs)
    ensures Freq(PairwiseDistances(vs), x) == 2 * multiset(Unordered(vs))[x]
    ensures |Ordered(vs, vs)| == |vs| * (|vs| - 1)
  {
    var m := multiset(Unordered(vs));
    OrderedIsTwiceUnordered(vs);
    assert multiset(Ordered(vs, vs))[x] == 2 * m[x];
    UnorderedCount(vs);
    assert |Ordered(vs, vs)| == |multiset(Ordered(vs, vs))| == |m + m| == 2 * |Unordered(vs)|;
  }
}

/** The two draws the observer takes from library distributions when animals leave a unit: how
    many infected animals a batch contains (a hypergeometric count) and which of the unit's
    infected animals they are (a selection without replacement). The random part of each is a
    draw; what the model keeps is the range the result must lie in. */
module Sampling {
  import opened Common

  function Max(a: int, b: int): int { if a >= b then a else b }

  function Min(a: int, b: int): int { if a <= b then a else b }

  /** The parameters a hypergeometric distribution accepts: a non-empty population, and a
      sample and a number of successes that are each at most the population. */
  predicate HyperValid(population: int, sample: int, successes: int)
  {
    population > 0 && 0 <= sample <= population && 0 <= successes <= population
  }

  /** The number of successes in a sample of `sample` drawn without replacement from
      `population` individuals of which `successes` are successes. The draw `u` picks the
      value within the distribution's support; parameters the distribution refuses are an
      error. */
  function Hyper(population: int, sample: int, successes: int, u: nat): (r: Result<nat>)
    ensures r.Err? <==> !HyperValid(population, sample, successes)
    ensures r.Ok? ==> r.value <= sample && r.value <= successes
    ensures r.Ok? ==> sample - r.value <= population - successes
  {
    if !HyperValid(population, sample, successes) then Err("invalid hypergeometric parameters")
    else
      var lo := Max(0, sample + successes - population);
      var hi := Min(sample, successes);
      Ok(lo + u % (hi - lo + 1))
  }

  /** Every value of the support is the outcome of some draw: the model leaves out no possible
      count. */
  lemma HyperCovers(population: int, sample: int, successes: int, v: nat)
    requires HyperValid(population, sample, successes)
    requires v <= sample && v <= successes && sample - v <= population - successes
    ensures exists u: nat :: Hyper(population, sample, successes, u) == Ok(v)
  {
    var lo := Max(0, sample + successes - population);
    var hi := Min(sample, successes);
    var u: nat := v - lo;
    assert u < hi - lo + 1;
    assert u % (hi - lo + 1) == u;
    assert Hyper(population, sample, successes, u) == Ok(v);
  }

  /** `selectManyOf(xs, k)`: `k` entries of `xs`, the j-th chosen by the draw `pick(j)` among
      the entries not chosen yet. */
  function SelectMany<T(==)>(xs: seq<T>, k: nat, pick: nat -> nat, j: nat): (r: seq<T>)
    requires k <= |xs|
    ensures |r| == k
    ensures multiset(r) <= multiset(xs)
    decreases k
  {
    if k == 0 then []
    else
      var x := xs[pick(j) % |xs|];
      var rest := SelectMany(RemoveFirst(xs, x), k - 1, pick, j + 1);
      assert multiset([x] + rest) == multiset{x} + multiset(rest);
      [x] + rest
  }

  /** Drawn from a list without repeats, the selection has no repeats either, and every entry
      comes from the list. */
  lemma SelectManyDistinct<T>(xs: seq<T>, k: nat, pick: nat -> nat, j: nat)
    requires k <= |xs| && Distinct(xs)
    ensures var r := SelectMany(xs, k, pick, j);
      && Distinct(r)
      && forall i :: 0 <= i < |r| ==> r[i] in xs
  {
    var r := SelectMany(xs, k, pick, j);
    forall i | 0 <= i < |r| ensures r[i] in xs {
      assert r[i] in multiset(r);
    }
    forall i, i' | 0 <= i < i' < |r| ensures r[i] != r[i'] {
      if r[i] == r[i'] {
        CountTwo(r, i, i');
        DistinctCount(xs, r[i]);
      }
    }
  }

  /** An element at two positions occurs at least twice. */
  lemma {:induction false} CountTwo<T>(r: seq<T>, i: int, i': int)
    requires 0 <= i < i' < |r| && r[i] == r[i']
    ensures multiset(r)[r[i]] >= 2
  {
    assert r == r[..i] + [r[i]] + r[i + 1..i'] + [r[i']] + r[i' + 1..];
  }

  /** In a list without repeats every element occurs at most once. */
  lemma {:induction false} DistinctCount<T>(xs: seq<T>, x: T)
    requires Distinct(xs)
    ensures multiset(xs)[x] <= 1
  {
    if |xs| > 0 {
      var tail := xs[1..];
      assert xs == [xs[0]] + tail;
      assert Distinct(tail) by {
        forall a, b | 0 <= a < b < |tail| ensures tail[a] != tail[b] {
          assert tail[a] == xs[a + 1] && tail[b] == xs[b + 1];
        }
      }
      DistinctCount(tail, x);
      if xs[0] == x {
        assert x !in tail by {
          forall a | 0 <= a < |tail| ensures tail[a] != x { assert tail[a] == xs[a + 1]; }
        }
      }
    }
  }
}

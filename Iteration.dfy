/**
 `get_sum` and `iterate_pagerank` (pagerank.py:125-171): the PageRank
 recurrence of section 2.1.1 of Brin and Page, "The Anatomy of a Large-Scale
 Hypertextual Web Search Engine", applied round after round from the uniform
 distribution until no page's rank moves by `Threshold` or more.

 Pages without links donate nothing: their rank is not spread over the
 corpus, so with such pages the ranks can total less than 1.
 */
module Iteration {
  import opened Sums
  import opened Graph

  /** The stopping threshold of pagerank.py:140. */
  const Threshold: real := 0.001

  /** What `donor` passes to `target`: its rank split evenly over its links, if it links to `target`. */
  function Share(corpus: Corpus, dist: Distribution, target: string, donor: string): real
  {
    if donor in corpus && target in corpus[donor] then At(dist, donor) / (|corpus[donor]| as real) else 0.0
  }

  /** The shares `target` receives, as a function of the donor. */
  function SharesTo(corpus: Corpus, dist: Distribution, target: string): string -> real
  {
    donor => Share(corpus, dist, target, donor)
  }

  /** The shares `donor` passes on, as a function of the target. */
  function SharesFrom(corpus: Corpus, dist: Distribution, donor: string): string -> real
  {
    target => Share(corpus, dist, target, donor)
  }

  /**
   What `get_sum` computes: the sum, over the pages `donors` that link to
   `target`, of their rank divided by their number of links.
   */
  function Inflow(corpus: Corpus, donors: seq<string>, dist: Distribution, target: string): real
  {
    Sum(donors, SharesTo(corpus, dist, target))
  }

  function InflowFn(corpus: Corpus, donors: seq<string>, dist: Distribution): string -> real
  {
    target => Inflow(corpus, donors, dist, target)
  }

  /** What `donor` passes on to the pages `targets` altogether. */
  function Outflow(corpus: Corpus, targets: seq<string>, dist: Distribution, donor: string): real
  {
    Sum(targets, SharesFrom(corpus, dist, donor))
  }

  function OutflowFn(corpus: Corpus, targets: seq<string>, dist: Distribution): string -> real
  {
    donor => Outflow(corpus, targets, dist, donor)
  }

  /** The rank of `page` if it has at least one link, and 0 otherwise. */
  function LinkedMass(corpus: Corpus, dist: Distribution, page: string): real
  {
    if HasLinks(corpus, page) then At(dist, page) else 0.0
  }

  function LinkedMassFn(corpus: Corpus, dist: Distribution): string -> real
  {
    page => LinkedMass(corpus, dist, page)
  }

  /** What all the pages `keys` receive from each other through `get_sum`, in total. */
  function InflowTotal(corpus: Corpus, keys: seq<string>, dist: Distribution): real
  {
    Sum(keys, InflowFn(corpus, keys, dist))
  }

  /** The rank held, in total, by the pages `keys` that have at least one link. */
  function LinkedTotal(corpus: Corpus, keys: seq<string>, dist: Distribution): real
  {
    Sum(keys, LinkedMassFn(corpus, dist))
  }

  /** The loop of `get_sum` (pagerank.py:166-171). */
  method GetSum(corpus: Corpus, keys: seq<string>, dist: Distribution, page: string) returns (result: real)
    requires KeyOrder(corpus, keys)
    requires forall p :: p in corpus && page in corpus[p] ==> p in dist
    ensures result == Inflow(corpus, keys, dist, page)
  {
    result := 0.0;
    for i := 0 to |keys|
      invariant result == Sum(keys[..i], SharesTo(corpus, dist, page))
    {
      var p := keys[i];
      assert p in corpus;
      SumPrefix(keys, i, SharesTo(corpus, dist, page));
      if page in corpus[p] {
        result := result + dist[p] / (|corpus[p]| as real);
      }
    }
    assert keys[..|keys|] == keys;
  }

  /** Adding up what every target receives is adding up what every donor passes on. */
  lemma {:induction false} InflowSwap(corpus: Corpus, dist: Distribution, donors: seq<string>, targets: seq<string>)
    ensures Sum(targets, InflowFn(corpus, donors, dist)) == Sum(donors, OutflowFn(corpus, targets, dist))
  {
    if |targets| == 0 {
      SumCong(donors, OutflowFn(corpus, targets, dist), ConstFn(0.0));
      SumConst(donors, 0.0);
    } else {
      var n := |targets| - 1;
      var ts, t := targets[..n], targets[n];
      InflowSwap(corpus, dist, donors, ts);
      forall i | 0 <= i < |donors|
        ensures OutflowFn(corpus, targets, dist)(donors[i])
                == 1.0 * OutflowFn(corpus, ts, dist)(donors[i]) + 1.0 * SharesTo(corpus, dist, t)(donors[i])
      {
      }
      SumLinear(donors, OutflowFn(corpus, ts, dist), SharesTo(corpus, dist, t), OutflowFn(corpus, targets, dist), 1.0, 1.0);
    }
  }

  /** A page whose links are all pages of the corpus passes on its whole rank, or nothing if it has no links. */
  lemma {:induction false} OutflowIsLinkedMass(corpus: Corpus, keys: seq<string>, dist: Distribution, p: string)
    requires KeyOrder(corpus, keys) && LinksIn(corpus, p)
    ensures Outflow(corpus, keys, dist, p) == LinkedMass(corpus, dist, p)
  {
    var links := corpus[p];
    var c := if |links| == 0 then 0.0 else At(dist, p) / (|links| as real);
    SumCong(keys, SharesFrom(corpus, dist, p), Indicator(links, c));
    assert links <= SetOf(keys);
    SumSpreadOver(keys, links, At(dist, p));
  }

  /**
   Summed over all target pages, `get_sum` gives the total rank held by the
   pages that have at least one link.
   */
  lemma {:induction false} TotalInflow(corpus: Corpus, keys: seq<string>, dist: Distribution)
    requires KeyOrder(corpus, keys) && Closed(corpus)
    ensures InflowTotal(corpus, keys, dist) == LinkedTotal(corpus, keys, dist)
  {
    InflowSwap(corpus, dist, keys, keys);
    forall i | 0 <= i < |keys|
      ensures OutflowFn(corpus, keys, dist)(keys[i]) == LinkedMassFn(corpus, dist)(keys[i])
    {
      assert keys[i] in corpus;
      OutflowIsLinkedMass(corpus, keys, dist, keys[i]);
    }
    SumCong(keys, OutflowFn(corpus, keys, dist), LinkedMassFn(corpus, dist));
  }

  /** The rank `page` gets in the next round (pagerank.py:148). */
  function NewRank(corpus: Corpus, keys: seq<string>, d: real, dist: Distribution, page: string): real
    requires |keys| > 0
  {
    (1.0 - d) / (|keys| as real) + d * Inflow(corpus, keys, dist, page)
  }

  /**
   The distribution the `for page in corpus` loop of pagerank.py:145-148 has
   built after its first `i` pages.
   */
  function RanksUpTo(corpus: Corpus, keys: seq<string>, d: real, dist: Distribution, i: nat): Distribution
    requires KeyOrder(corpus, keys) && i <= |keys|
  {
    if i == 0 then map[]
    else RanksUpTo(corpus, keys, d, dist, i - 1)[keys[i - 1] := NewRank(corpus, keys, d, dist, keys[i - 1])]
  }

  /** The distribution one round of `iterate_pagerank` builds from `dist`. */
  function NextRanks(corpus: Corpus, keys: seq<string>, d: real, dist: Distribution): Distribution
    requires KeyOrder(corpus, keys)
  {
    RanksUpTo(corpus, keys, d, dist, |keys|)
  }

  /** After `i` pages, the loop has given each of them its new rank and no other page a rank. */
  lemma {:induction false} RanksUpToAt(corpus: Corpus, keys: seq<string>, d: real, dist: Distribution, i: nat, page: string)
    requires KeyOrder(corpus, keys) && i <= |keys|
    ensures page in RanksUpTo(corpus, keys, d, dist, i) <==> page in keys[..i]
    ensures page in keys[..i] ==> RanksUpTo(corpus, keys, d, dist, i)[page] == NewRank(corpus, keys, d, dist, page)
  {
    if i > 0 {
      RanksUpToAt(corpus, keys, d, dist, i - 1, page);
      assert keys[..i] == keys[..i - 1] + [keys[i - 1]];
    }
  }

  /** A round gives every page of the corpus its new rank, and no other page a rank. */
  lemma {:induction false} NextRanksAt(corpus: Corpus, keys: seq<string>, d: real, dist: Distribution, page: string)
    requires KeyOrder(corpus, keys)
    ensures page in NextRanks(corpus, keys, d, dist) <==> page in corpus
    ensures page in corpus ==> NextRanks(corpus, keys, d, dist)[page] == NewRank(corpus, keys, d, dist, page)
  {
    RanksUpToAt(corpus, keys, d, dist, |keys|, page);
    assert keys[..|keys|] == keys;
  }

  /** The starting distribution of pagerank.py:137: `1 / N` for every page. */
  function Uniform(corpus: Corpus, keys: seq<string>): (dist: Distribution)
    requires KeyOrder(corpus, keys)
    ensures dist.Keys == corpus.Keys
  {
    map p | p in corpus :: assert p in keys; 1.0 / (|keys| as real)
  }

  /** The distribution after `k` rounds. */
  function Iterates(corpus: Corpus, keys: seq<string>, d: real, k: nat): Distribution
    requires KeyOrder(corpus, keys)
  {
    if k == 0 then Uniform(corpus, keys) else NextRanks(corpus, keys, d, Iterates(corpus, keys, d, k - 1))
  }

  function Abs(x: real): real
  {
    if x < 0.0 then -x else x
  }

  function Max(x: real, y: real): real
  {
    if x < y then y else x
  }

  /** How far the rank of `page` moved. */
  function Change(before: Distribution, after: Distribution, page: string): real
  {
    Abs(At(before, page) - At(after, page))
  }

  /** The running maximum of pagerank.py:144-156, folded over `keys` from 0. */
  function MaxChange(keys: seq<string>, before: Distribution, after: Distribution): real
  {
    if |keys| == 0 then 0.0
    else Max(MaxChange(keys[..|keys| - 1], before, after), Change(before, after, keys[|keys| - 1]))
  }

  /** `max_change` in round `j`. */
  function RoundChange(corpus: Corpus, keys: seq<string>, d: real, j: nat): real
    requires KeyOrder(corpus, keys) && j >= 1
  {
    MaxChange(keys, Iterates(corpus, keys, d, j - 1), Iterates(corpus, keys, d, j))
  }

  /** `max_change` is the largest change of any page, and 0 when there are no pages. */
  lemma {:induction false} MaxChangeIsMax(keys: seq<string>, before: Distribution, after: Distribution)
    ensures MaxChange(keys, before, after) >= 0.0
    ensures forall i | 0 <= i < |keys| :: Change(before, after, keys[i]) <= MaxChange(keys, before, after)
    ensures |keys| == 0 ==> MaxChange(keys, before, after) == 0.0
    ensures |keys| > 0 ==> exists i | 0 <= i < |keys| :: MaxChange(keys, before, after) == Change(before, after, keys[i])
  {
    if |keys| > 0 {
      var n := |keys| - 1;
      MaxChangeIsMax(keys[..n], before, after);
      if n > 0 && MaxChange(keys, before, after) != Change(before, after, keys[n]) {
        var i :| 0 <= i < n && MaxChange(keys[..n], before, after) == Change(before, after, keys[..n][i]);
        assert MaxChange(keys, before, after) == Change(before, after, keys[i]);
      }
    }
  }

  /** The loop stops exactly when every page moved by less than `Threshold`. */
  lemma {:induction false} Converged(keys: seq<string>, before: Distribution, after: Distribution)
    ensures MaxChange(keys, before, after) < Threshold
            <==> forall i | 0 <= i < |keys| :: Change(before, after, keys[i]) < Threshold
  {
    MaxChangeIsMax(keys, before, after);
  }

  /** Every round's distribution has exactly the pages of the corpus. */
  lemma {:induction false} IteratesKeys(corpus: Corpus, keys: seq<string>, d: real, k: nat)
    requires KeyOrder(corpus, keys)
    ensures Iterates(corpus, keys, d, k).Keys == corpus.Keys
  {
    if k > 0 {
      forall p ensures p in Iterates(corpus, keys, d, k) <==> p in corpus {
        NextRanksAt(corpus, keys, d, Iterates(corpus, keys, d, k - 1), p);
      }
    }
  }

  /** The body of the `while True` loop (pagerank.py:143-158): the next distribution and its `max_change`. */
  method Round(corpus: Corpus, keys: seq<string>, d: real, dist: Distribution)
    returns (next: Distribution, maxChange: real)
    requires KeyOrder(corpus, keys)
    requires corpus.Keys <= dist.Keys
    ensures next == NextRanks(corpus, keys, d, dist)
    ensures maxChange == MaxChange(keys, dist, next)
  {
    var numPages := |keys|;
    next := map[];
    maxChange := 0.0;
    for i := 0 to |keys|
      invariant next == RanksUpTo(corpus, keys, d, dist, i)
      invariant maxChange == MaxChange(keys[..i], dist, NextRanks(corpus, keys, d, dist))
    {
      var page := keys[i];
      assert page in corpus;
      var sum := GetSum(corpus, keys, dist, page);
      var newRank := (1.0 - d) / (numPages as real) + d * sum;
      assert newRank == NewRank(corpus, keys, d, dist, page);
      next := next[page := newRank];
      NextRanksAt(corpus, keys, d, dist, page);
      var change := Abs(dist[page] - newRank);
      assert keys[..i + 1][..i] == keys[..i];
      maxChange := Max(maxChange, change);
    }
    assert keys[..|keys|] == keys;
  }

  /** None of the first `k` rounds has a `max_change` below `Threshold`. */
  predicate Unconverged(corpus: Corpus, keys: seq<string>, d: real, k: nat)
    requires KeyOrder(corpus, keys)
  {
    k == 0 || (Unconverged(corpus, keys, d, k - 1) && RoundChange(corpus, keys, d, k) >= Threshold)
  }

  /** `Unconverged(k)` says of each of the first `k` rounds that its `max_change` is at least `Threshold`. */
  lemma {:induction false} UnconvergedAll(corpus: Corpus, keys: seq<string>, d: real, k: nat)
    requires KeyOrder(corpus, keys)
    ensures Unconverged(corpus, keys, d, k) <==> forall j | 1 <= j <= k :: RoundChange(corpus, keys, d, j) >= Threshold
  {
    if k > 0 {
      UnconvergedAll(corpus, keys, d, k - 1);
    }
  }

  /**
   `iterate_pagerank` with the `while True` loop given a bound of `maxRounds`
   rounds. The result is the distribution after `rounds` rounds. It has
   converged exactly when the `max_change` of that last round is below
   `Threshold`, and then no earlier round's was; otherwise no round's was and
   the bound was reached.
   */
  method IteratePageRank(corpus: Corpus, keys: seq<string>, d: real, maxRounds: nat)
    returns (dist: Distribution, rounds: nat, converged: bool)
    requires KeyOrder(corpus, keys)
    ensures rounds <= maxRounds
    ensures dist == Iterates(corpus, keys, d, rounds)
    ensures converged <==> rounds >= 1 && RoundChange(corpus, keys, d, rounds) < Threshold
    ensures converged ==> Unconverged(corpus, keys, d, rounds - 1)
    ensures !converged ==> rounds == maxRounds && Unconverged(corpus, keys, d, rounds)
  {
    dist := Uniform(corpus, keys);
    rounds := 0;
    converged := false;
    while rounds < maxRounds
      invariant rounds <= maxRounds
      invariant !converged
      invariant dist == Iterates(corpus, keys, d, rounds)
      invariant Unconverged(corpus, keys, d, rounds)
    {
      IteratesKeys(corpus, keys, d, rounds);
      var next, maxChange := Round(corpus, keys, d, dist);
      rounds := rounds + 1;
      dist := next;
      if maxChange < Threshold {
        converged := true;
        break;
      }
    }
  }

  /** The starting distribution totals 1 on a non-empty corpus. */
  lemma {:induction false} UniformTotal(corpus: Corpus, keys: seq<string>)
    requires KeyOrder(corpus, keys) && |keys| > 0
    ensures Total(keys, Uniform(corpus, keys)) == 1.0
  {
    var u := Uniform(corpus, keys);
    forall i | 0 <= i < |keys|
      ensures AtFn(u)(keys[i]) == ConstFn(1.0 / (|keys| as real))(keys[i])
    {
      assert keys[i] in corpus;
    }
    SumCong(keys, AtFn(u), ConstFn(1.0 / (|keys| as real)));
    SumSpread(keys, 1.0);
  }

  /**
   One round on a closed, non-empty corpus: the new total is the teleport
   mass `1 - d` plus `d` times the rank held by pages with links.
   */
  lemma {:induction false} NextRanksTotal(corpus: Corpus, keys: seq<string>, d: real, dist: Distribution)
    requires KeyOrder(corpus, keys) && Closed(corpus) && |keys| > 0
    ensures Total(keys, NextRanks(corpus, keys, d, dist)) == (1.0 - d) + d * LinkedTotal(corpus, keys, dist)
  {
    NextRanksSplit(corpus, keys, d, dist);
    TotalInflow(corpus, keys, dist);
    MulCong(d, InflowTotal(corpus, keys, dist), LinkedTotal(corpus, keys, dist));
  }

  /** The total of one round: the teleport mass `1 - d` plus `d` times what `get_sum` hands out. */
  lemma {:induction false} NextRanksSplit(corpus: Corpus, keys: seq<string>, d: real, dist: Distribution)
    requires KeyOrder(corpus, keys) && |keys| > 0
    ensures Total(keys, NextRanks(corpus, keys, d, dist)) == (1.0 - d) + d * InflowTotal(corpus, keys, dist)
  {
    var next := NextRanks(corpus, keys, d, dist);
    forall i | 0 <= i < |keys|
      ensures AtFn(next)(keys[i]) == 1.0 * ConstFn((1.0 - d) / (|keys| as real))(keys[i]) + d * InflowFn(corpus, keys, dist)(keys[i])
    {
      assert keys[i] in corpus;
      NextRanksAt(corpus, keys, d, dist, keys[i]);
      RankPoint(corpus, keys, d, dist, next, keys[i]);
    }
    RanksTotal(corpus, keys, d, dist, next);
  }

  /** A distribution made of the teleport part and the damped inflow at every page totals `1 - d` plus `d` times the inflow. */
  lemma {:induction false} RanksTotal(corpus: Corpus, keys: seq<string>, d: real, dist: Distribution, next: Distribution)
    requires |keys| > 0
    requires forall i | 0 <= i < |keys| ::
      AtFn(next)(keys[i]) == 1.0 * ConstFn((1.0 - d) / (|keys| as real))(keys[i]) + d * InflowFn(corpus, keys, dist)(keys[i])
    ensures Total(keys, next) == (1.0 - d) + d * InflowTotal(corpus, keys, dist)
  {
    SumLinear(keys, ConstFn((1.0 - d) / (|keys| as real)), InflowFn(corpus, keys, dist), AtFn(next), 1.0, d);
    SumSpread(keys, 1.0 - d);
  }

  /** A page holding its `NewRank`, with the rank read through the functions `RanksTotal` sums. */
  lemma {:induction false} RankPoint(corpus: Corpus, keys: seq<string>, d: real, dist: Distribution, next: Distribution, page: string)
    requires |keys| > 0
    requires At(next, page) == NewRank(corpus, keys, d, dist, page)
    ensures AtFn(next)(page) == 1.0 * ConstFn((1.0 - d) / (|keys| as real))(page) + d * InflowFn(corpus, keys, dist)(page)
  {
  }

  /** Without dangling pages, the rank held by pages with links is all of it. */
  lemma {:induction false} LinkedMassAll(corpus: Corpus, keys: seq<string>, dist: Distribution)
    requires KeyOrder(corpus, keys) && NoDangling(corpus)
    ensures LinkedTotal(corpus, keys, dist) == Total(keys, dist)
  {
    forall i | 0 <= i < |keys|
      ensures LinkedMassFn(corpus, dist)(keys[i]) == AtFn(dist)(keys[i])
    {
      assert keys[i] in corpus;
    }
    SumCong(keys, LinkedMassFn(corpus, dist), AtFn(dist));
  }

  /** With no dangling pages a round keeps a total of 1. */
  lemma {:induction false} RoundPreservesTotal(corpus: Corpus, keys: seq<string>, d: real, dist: Distribution)
    requires KeyOrder(corpus, keys) && Closed(corpus) && NoDangling(corpus) && |keys| > 0
    requires Total(keys, dist) == 1.0
    ensures Total(keys, NextRanks(corpus, keys, d, dist)) == 1.0
  {
    NextRanksTotal(corpus, keys, d, dist);
    LinkedMassAll(corpus, keys, dist);
  }

  /**
   With dangling pages the total can only shrink: from a non-negative
   distribution totalling at most 1 and `d >= 0`, a round totals at most 1.
   */
  lemma {:induction false} DanglingLeak(corpus: Corpus, keys: seq<string>, d: real, dist: Distribution)
    requires KeyOrder(corpus, keys) && Closed(corpus) && |keys| > 0
    requires Nonneg(corpus, dist) && Total(keys, dist) <= 1.0 && d >= 0.0
    ensures Total(keys, NextRanks(corpus, keys, d, dist)) <= 1.0
  {
    NextRanksTotal(corpus, keys, d, dist);
    forall i | 0 <= i < |keys|
      ensures LinkedMassFn(corpus, dist)(keys[i]) <= AtFn(dist)(keys[i])
    {
      assert keys[i] in corpus;
    }
    SumMono(keys, LinkedMassFn(corpus, dist), AtFn(dist));
    MulMono(d, LinkedTotal(corpus, keys, dist), 1.0);
  }

  /** On a closed corpus with no dangling pages, every round's distribution totals 1. */
  lemma {:induction false} IteratesTotal(corpus: Corpus, keys: seq<string>, d: real, k: nat)
    requires KeyOrder(corpus, keys) && Closed(corpus) && NoDangling(corpus) && |keys| > 0
    ensures Total(keys, Iterates(corpus, keys, d, k)) == 1.0
  {
    if k == 0 {
      UniformTotal(corpus, keys);
    } else {
      IteratesTotal(corpus, keys, d, k - 1);
      RoundPreservesTotal(corpus, keys, d, Iterates(corpus, keys, d, k - 1));
    }
  }

  /**
   On a closed corpus, with dangling pages allowed and `0 <= d <= 1`, every
   round totals at most 1 and, after the first, at least the teleport mass `1 - d`.
   */
  lemma {:induction false} IteratesTotalWithin(corpus: Corpus, keys: seq<string>, d: real, k: nat)
    requires KeyOrder(corpus, keys) && Closed(corpus) && |keys| > 0 && 0.0 <= d <= 1.0
    ensures Total(keys, Iterates(corpus, keys, d, k)) <= 1.0
    ensures k >= 1 ==> 1.0 - d <= Total(keys, Iterates(corpus, keys, d, k))
  {
    if k == 0 {
      UniformTotal(corpus, keys);
    } else {
      var prev := Iterates(corpus, keys, d, k - 1);
      IteratesTotalWithin(corpus, keys, d, k - 1);
      IteratesNonneg(corpus, keys, d, k - 1);
      DanglingLeak(corpus, keys, d, prev);
      TeleportFloor(corpus, keys, d, prev);
    }
  }

  /** From a non-negative distribution and `d >= 0`, a round totals at least the teleport mass `1 - d`. */
  lemma {:induction false} TeleportFloor(corpus: Corpus, keys: seq<string>, d: real, dist: Distribution)
    requires KeyOrder(corpus, keys) && Closed(corpus) && |keys| > 0
    requires Nonneg(corpus, dist) && d >= 0.0
    ensures 1.0 - d <= Total(keys, NextRanks(corpus, keys, d, dist))
  {
    NextRanksTotal(corpus, keys, d, dist);
    forall i | 0 <= i < |keys| ensures LinkedMassFn(corpus, dist)(keys[i]) >= 0.0 {
      assert keys[i] in corpus;
    }
    SumNonneg(keys, LinkedMassFn(corpus, dist));
    MulMono(d, 0.0, LinkedTotal(corpus, keys, dist));
  }

  /** On a closed corpus with `0 <= d <= 1`, every rank of every round lies between 0 and 1. */
  lemma {:induction false} IteratesBounded(corpus: Corpus, keys: seq<string>, d: real, k: nat, page: string)
    requires KeyOrder(corpus, keys) && Closed(corpus) && 0.0 <= d <= 1.0 && page in corpus
    ensures 0.0 <= At(Iterates(corpus, keys, d, k), page) <= 1.0
  {
    assert page in keys;
    IteratesTotalWithin(corpus, keys, d, k);
    IteratesNonneg(corpus, keys, d, k);
    AtMostTotal(corpus, keys, Iterates(corpus, keys, d, k), page);
  }

  /** With `0 <= d <= 1`, a round keeps every rank non-negative. */
  lemma {:induction false} NextRanksNonneg(corpus: Corpus, keys: seq<string>, d: real, dist: Distribution)
    requires KeyOrder(corpus, keys) && Nonneg(corpus, dist) && 0.0 <= d <= 1.0
    ensures Nonneg(corpus, NextRanks(corpus, keys, d, dist))
  {
    forall p | p in corpus
      ensures At(NextRanks(corpus, keys, d, dist), p) >= 0.0
    {
      assert p in keys;
      NextRanksAt(corpus, keys, d, dist, p);
      forall i | 0 <= i < |keys|
        ensures SharesTo(corpus, dist, p)(keys[i]) >= 0.0
      {
        var q := keys[i];
        if q in corpus && p in corpus[q] {
          DivNonneg(At(dist, q), |corpus[q]| as real);
        }
      }
      SumNonneg(keys, SharesTo(corpus, dist, p));
      DivNonneg(1.0 - d, |keys| as real);
      MulMono(d, 0.0, Inflow(corpus, keys, dist, p));
    }
  }

  /** With `0 <= d <= 1`, every round's ranks are non-negative. */
  lemma {:induction false} IteratesNonneg(corpus: Corpus, keys: seq<string>, d: real, k: nat)
    requires KeyOrder(corpus, keys) && 0.0 <= d <= 1.0
    ensures Nonneg(corpus, Iterates(corpus, keys, d, k))
  {
    if k == 0 {
      forall p | p in corpus ensures At(Uniform(corpus, keys), p) >= 0.0 {
        assert p in keys;
        DivNonneg(1.0, |keys| as real);
      }
    } else {
      IteratesNonneg(corpus, keys, d, k - 1);
      NextRanksNonneg(corpus, keys, d, Iterates(corpus, keys, d, k - 1));
    }
  }
}

/**
 `sample_pagerank` (pagerank.py:89-122): a random walk of `n` steps that keeps,
 for every page, the running mean of the transition distributions seen so far.

 The random draws are not modelled: the caller supplies them as `draws`, where
 `draws[0]` is the starting page (`random.choice`, pagerank.py:106) and
 `draws[i + 1]` the page drawn after step `i` (`random.choices`,
 pagerank.py:120). With the draws fixed, the accumulator is deterministic.
 */
module Sampling {
  import opened Sums
  import opened Graph
  import opened Surfer

  /** The transition distributions of the pages visited, in order. */
  function Transitions(corpus: Corpus, keys: seq<string>, d: real, pages: seq<string>): (hist: seq<Distribution>)
    requires KeyOrder(corpus, keys)
    requires forall i | 0 <= i < |pages| :: pages[i] in corpus
    ensures |hist| == |pages|
    ensures forall i | 0 <= i < |pages| :: hist[i] == Transition(corpus, keys, pages[i], d)
  {
    if |pages| == 0 then []
    else Transitions(corpus, keys, d, pages[..|pages| - 1]) + [Transition(corpus, keys, pages[|pages| - 1], d)]
  }

  /** One more visited page adds its transition distribution at the end. */
  lemma {:induction false} TransitionsSnoc(corpus: Corpus, keys: seq<string>, d: real, pages: seq<string>, i: nat)
    requires KeyOrder(corpus, keys)
    requires i < |pages| && forall j | 0 <= j < |pages| :: pages[j] in corpus
    ensures Transitions(corpus, keys, d, pages[..i + 1])
            == Transitions(corpus, keys, d, pages[..i]) + [Transition(corpus, keys, pages[i], d)]
  {
    assert pages[..i + 1][..i] == pages[..i];
  }

  /** The value of `page` in a distribution, as a function of the distribution. */
  function ColumnFn(page: string): Distribution -> real
  {
    dist => At(dist, page)
  }

  /** The arithmetic mean of the value of `page` over the distributions `hist` (0 when there are none). */
  function Mean(hist: seq<Distribution>, page: string): real
  {
    if |hist| == 0 then 0.0 else Sum(hist, ColumnFn(page)) / (|hist| as real)
  }

  /** The estimate after the distributions `hist`: each page of the corpus mapped to its mean. */
  function Estimate(corpus: Corpus, hist: seq<Distribution>): (est: Distribution)
    ensures est.Keys == corpus.Keys
  {
    map p | p in corpus :: Mean(hist, p)
  }

  /** The update at pagerank.py:117: the mean of `i` values, `mean`, with one more value `x` folded in. */
  function IncrementalMean(i: nat, mean: real, x: real): real
  {
    ((i as real) * mean + x) / (i as real + 1.0)
  }

  /** Folding one more distribution into the mean of `hist` gives the mean of them all. */
  lemma {:induction false} MeanStep(hist: seq<Distribution>, h: Distribution, page: string)
    ensures Mean(hist + [h], page) == IncrementalMean(|hist|, Mean(hist, page), At(h, page))
  {
    SumSnoc(hist, h, ColumnFn(page));
    if |hist| > 0 {
      MulDiv(Sum(hist, ColumnFn(page)), |hist| as real);
    }
  }

  /**
   When the total of every distribution seen lies between `lo` and `hi`,
   so does the total of the estimate after one step or more.
   */
  lemma {:induction false} EstimateTotalWithin(corpus: Corpus, keys: seq<string>, hist: seq<Distribution>, lo: real, hi: real)
    requires KeyOrder(corpus, keys) && |hist| > 0
    requires forall i | 0 <= i < |hist| :: lo <= Total(keys, hist[i]) <= hi
    ensures lo <= Total(keys, Estimate(corpus, hist)) <= hi
  {
    var m := |hist| - 1;
    var prev := hist[..m];
    EstimateTotalStep(corpus, keys, hist);
    assert lo <= Total(keys, hist[m]) <= hi;
    if m > 0 {
      forall i | 0 <= i < m ensures lo <= Total(keys, prev[i]) <= hi {
        assert prev[i] == hist[i];
      }
      EstimateTotalWithin(corpus, keys, prev, lo, hi);
    }
    MeanWithin(m, Total(keys, Estimate(corpus, prev)), Total(keys, hist[m]), lo, hi);
  }

  /** The estimate's total follows the same update, `IncrementalMean`, as each page's value. */
  lemma {:induction false} EstimateTotalStep(corpus: Corpus, keys: seq<string>, hist: seq<Distribution>)
    requires KeyOrder(corpus, keys) && |hist| > 0
    ensures Total(keys, Estimate(corpus, hist))
            == IncrementalMean(|hist| - 1, Total(keys, Estimate(corpus, hist[..|hist| - 1])), Total(keys, hist[|hist| - 1]))
  {
    var m := |hist| - 1;
    var prev, h := hist[..m], hist[m];
    assert hist == prev + [h];
    var before, after := Estimate(corpus, prev), Estimate(corpus, hist);
    forall i | 0 <= i < |keys|
      ensures AtFn(after)(keys[i]) == IncrementalMean(m, AtFn(before)(keys[i]), AtFn(h)(keys[i]))
    {
      assert keys[i] in corpus;
      MeanStep(prev, h, keys[i]);
    }
    SumIncrementalMean(keys, AtFn(before), AtFn(h), AtFn(after), m);
  }

  /** Folding in term by term and then summing equals folding the sums in. */
  lemma {:induction false} SumIncrementalMean(s: seq<string>, f: string -> real, g: string -> real, h: string -> real, m: nat)
    requires forall i | 0 <= i < |s| :: h(s[i]) == IncrementalMean(m, f(s[i]), g(s[i]))
    ensures Sum(s, h) == IncrementalMean(m, Sum(s, f), Sum(s, g))
  {
    if |s| > 0 {
      var n := |s| - 1;
      SumIncrementalMean(s[..n], f, g, h, m);
      IncrementalMeanAdd(m, Sum(s[..n], f), Sum(s[..n], g), f(s[n]), g(s[n]));
    } else {
      IncrementalMeanAdd(m, 0.0, 0.0, 0.0, 0.0);
    }
  }

  /** The update is linear in the old mean and the new value together. */
  lemma {:induction false} IncrementalMeanAdd(m: nat, x1: real, y1: real, x2: real, y2: real)
    ensures IncrementalMean(m, x1 + x2, y1 + y2) == IncrementalMean(m, x1, y1) + IncrementalMean(m, x2, y2)
  {
    var k := m as real + 1.0;
    assert (m as real) * (x1 + x2) + (y1 + y2) == ((m as real) * x1 + y1) + ((m as real) * x2 + y2);
    DivAdd((m as real) * x1 + y1, (m as real) * x2 + y2, k);
  }

  lemma {:induction false} DivAdd(u: real, v: real, k: real)
    requires k > 0.0
    ensures (u + v) / k == u / k + v / k
  {
  }

  /**
   Folding a value between `lo` and `hi` into a mean of `m` values between
   them keeps the mean between them; the first value is its own mean.
   */
  lemma {:induction false} MeanWithin(m: nat, mean: real, x: real, lo: real, hi: real)
    requires m > 0 ==> lo <= mean <= hi
    requires lo <= x <= hi
    ensures lo <= IncrementalMean(m, mean, x) <= hi
  {
    var k := m as real;
    if m > 0 {
      MulMono(k, lo, mean);
      MulMono(k, mean, hi);
    }
    DivWithin(lo, k * mean + x, hi, k + 1.0);
  }

  /** If every distribution seen is non-negative, so is the estimate. */
  lemma {:induction false} EstimateNonneg(corpus: Corpus, hist: seq<Distribution>)
    requires forall i | 0 <= i < |hist| :: Nonneg(corpus, hist[i])
    ensures Nonneg(corpus, Estimate(corpus, hist))
  {
    forall p | p in corpus ensures At(Estimate(corpus, hist), p) >= 0.0 {
      SumNonneg(hist, ColumnFn(p));
      if |hist| > 0 {
        DivNonneg(Sum(hist, ColumnFn(p)), |hist| as real);
      }
    }
  }

  /** Every page of `pages` is in the corpus and links only to pages of the corpus. */
  predicate AllLinksIn(corpus: Corpus, pages: seq<string>)
  {
    forall j | 0 <= j < |pages| :: LinksIn(corpus, pages[j])
  }

  /** One more visited page with its links in the corpus extends `AllLinksIn` by one. */
  lemma {:induction false} AllLinksInStep(corpus: Corpus, pages: seq<string>, i: nat)
    requires i < |pages| && AllLinksIn(corpus, pages[..i]) && LinksIn(corpus, pages[i])
    ensures AllLinksIn(corpus, pages[..i + 1])
  {
    var longer := pages[..i + 1];
    forall j | 0 <= j < |longer| ensures LinksIn(corpus, longer[j]) {
      if j < i {
        assert pages[..i][j] == pages[j];
      }
    }
  }

  /** A visited page with a link outside the corpus breaks `AllLinksIn` for every longer prefix. */
  lemma {:induction false} AllLinksInStops(corpus: Corpus, pages: seq<string>, i: nat, n: nat)
    requires i < n <= |pages| && !LinksIn(corpus, pages[i])
    ensures !AllLinksIn(corpus, pages[..n])
  {
    assert pages[..n][i] == pages[i];
  }

  /**
   The loop of `sample_pagerank` with the draws supplied. It fails with the
   KeyError of `transition_model` when a visited page links outside the
   corpus; otherwise the result maps each page to the mean of its values in
   the `n` transition distributions of the visited pages.
   */
  method SamplePageRank(corpus: Corpus, keys: seq<string>, d: real, n: nat, draws: seq<string>)
    returns (r: Result<Distribution>)
    requires KeyOrder(corpus, keys)
    requires |draws| == n + 1
    requires forall i | 0 <= i < |draws| :: draws[i] in corpus
    ensures r.Ok? <==> AllLinksIn(corpus, draws[..n])
    ensures r.Ok? ==> r.value == Estimate(corpus, Transitions(corpus, keys, d, draws[..n]))
    ensures r.Err? ==> exists i | 0 <= i < n ::
      AllLinksIn(corpus, draws[..i]) && r.error.key in corpus[draws[i]] && r.error.key !in corpus
  {
    var pagerank: Distribution := map p | p in corpus :: 0.0;
    ghost var hist: seq<Distribution> := [];
    var page := draws[0];
    for i := 0 to n
      invariant page == draws[i]
      invariant AllLinksIn(corpus, draws[..i])
      invariant hist == Transitions(corpus, keys, d, draws[..i])
      invariant pagerank == Estimate(corpus, hist)
    {
      var currentDist := TransitionModel(corpus, keys, page, d);
      if currentDist.Err? {
        assert currentDist.error.key in corpus[draws[i]] && currentDist.error.key !in corpus;
        AllLinksInStops(corpus, draws, i, n);
        return Err(currentDist.error);
      }
      var cur := currentDist.value;
      AllLinksInStep(corpus, draws, i);
      pagerank := FoldIn(corpus, keys, i, pagerank, cur);
      FoldedEstimate(corpus, keys, hist, cur, pagerank);
      TransitionsSnoc(corpus, keys, d, draws, i);
      hist := hist + [cur];
      page := draws[i + 1];
    }
    assert draws[..n] == draws[..n];
    r := Ok(pagerank);
  }

  /** The loop at pagerank.py:116-117: every page's estimate updated in place by `IncrementalMean`. */
  method FoldIn(corpus: Corpus, keys: seq<string>, i: nat, pagerank: Distribution, cur: Distribution)
    returns (next: Distribution)
    requires KeyOrder(corpus, keys)
    requires pagerank.Keys == corpus.Keys && cur.Keys == corpus.Keys
    ensures next.Keys == corpus.Keys
    ensures forall k | 0 <= k < |keys| :: next[keys[k]] == IncrementalMean(i, pagerank[keys[k]], cur[keys[k]])
  {
    next := pagerank;
    for j := 0 to |keys|
      invariant next.Keys == corpus.Keys
      invariant forall k | 0 <= k < j :: next[keys[k]] == IncrementalMean(i, pagerank[keys[k]], cur[keys[k]])
      invariant forall k | j <= k < |keys| :: next[keys[k]] == pagerank[keys[k]]
    {
      var q := keys[j];
      assert q in corpus;
      next := next[q := IncrementalMean(i, next[q], cur[q])];
    }
  }

  /** A map updated page by page as at pagerank.py:116-117 is the estimate with one more distribution. */
  lemma {:induction false} FoldedEstimate(corpus: Corpus, keys: seq<string>, hist: seq<Distribution>, cur: Distribution, next: Distribution)
    requires KeyOrder(corpus, keys)
    requires next.Keys == corpus.Keys && cur.Keys == corpus.Keys
    requires forall k | 0 <= k < |keys| ::
      next[keys[k]] == IncrementalMean(|hist|, Estimate(corpus, hist)[keys[k]], cur[keys[k]])
    ensures next == Estimate(corpus, hist + [cur])
  {
    forall q | q in corpus
      ensures next[q] == Estimate(corpus, hist + [cur])[q]
    {
      var k :| 0 <= k < |keys| && keys[k] == q;
      MeanStep(hist, cur, q);
    }
  }

  /**
   When every page visited has at least one link (and the corpus is closed),
   every transition distribution totals 1 and so the result of `n >= 1` steps
   totals 1; with `0 <= d <= 1` it is also non-negative.
   */
  lemma {:induction false} SampleIsDistribution(corpus: Corpus, keys: seq<string>, d: real, pages: seq<string>)
    requires KeyOrder(corpus, keys) && Closed(corpus)
    requires |pages| > 0
    requires forall i | 0 <= i < |pages| :: pages[i] in corpus && corpus[pages[i]] != {}
    requires 0.0 <= d <= 1.0
    ensures Total(keys, Estimate(corpus, Transitions(corpus, keys, d, pages))) == 1.0
    ensures Nonneg(corpus, Estimate(corpus, Transitions(corpus, keys, d, pages)))
  {
    var hist := Transitions(corpus, keys, d, pages);
    forall i | 0 <= i < |hist|
      ensures Total(keys, hist[i]) == 1.0 && Nonneg(corpus, hist[i])
    {
      TransitionTotal(corpus, keys, pages[i], d);
      TransitionNonneg(corpus, keys, pages[i], d);
    }
    EstimateTotalWithin(corpus, keys, hist, 1.0, 1.0);
    EstimateNonneg(corpus, hist);
  }

  /**
   Pages without links make their transition distribution total `1 - d`, so
   with `0 <= d <= 1` the result of `n >= 1` steps totals between `1 - d` and 1.
   */
  lemma {:induction false} SampleTotalWithin(corpus: Corpus, keys: seq<string>, d: real, pages: seq<string>)
    requires KeyOrder(corpus, keys) && Closed(corpus)
    requires |pages| > 0
    requires forall i | 0 <= i < |pages| :: pages[i] in corpus
    requires 0.0 <= d <= 1.0
    ensures 1.0 - d <= Total(keys, Estimate(corpus, Transitions(corpus, keys, d, pages))) <= 1.0
  {
    var hist := Transitions(corpus, keys, d, pages);
    forall i | 0 <= i < |hist|
      ensures 1.0 - d <= Total(keys, hist[i]) <= 1.0
    {
      TransitionTotal(corpus, keys, pages[i], d);
    }
    EstimateTotalWithin(corpus, keys, hist, 1.0 - d, 1.0);
  }

  /** On a closed corpus with `0 <= d <= 1`, every page's estimate lies between 0 and 1. */
  lemma {:induction false} SampleBounded(corpus: Corpus, keys: seq<string>, d: real, pages: seq<string>, page: string)
    requires KeyOrder(corpus, keys) && Closed(corpus)
    requires |pages| > 0
    requires forall i | 0 <= i < |pages| :: pages[i] in corpus
    requires 0.0 <= d <= 1.0 && page in corpus
    ensures 0.0 <= At(Estimate(corpus, Transitions(corpus, keys, d, pages)), page) <= 1.0
  {
    var hist := Transitions(corpus, keys, d, pages);
    forall i | 0 <= i < |hist| ensures Nonneg(corpus, hist[i]) {
      TransitionNonneg(corpus, keys, pages[i], d);
    }
    EstimateNonneg(corpus, hist);
    SampleTotalWithin(corpus, keys, d, pages);
    AtMostTotal(corpus, keys, Estimate(corpus, hist), page);
  }
}

/**
 `transition_model` (pagerank.py:51-86): the distribution over the page a
 random surfer visits next, given the current page and the damping factor.
 */
module Surfer {
  import opened Sums
  import opened Graph

  /**
   The distribution `transition_model` returns. Every page gets
   `(1 - d) / N`; when the current page has `k >= 1` links, each linked page
   gets `d / k` on top. When it has no links, nothing is added (the `if` at
   pagerank.py:82 is skipped), so the values then total `1 - d`.
   */
  function Transition(corpus: Corpus, keys: seq<string>, page: string, d: real): (r: Distribution)
    requires KeyOrder(corpus, keys) && page in corpus
    ensures r.Keys == corpus.Keys
  {
    var base := (1.0 - d) / (|keys| as real);
    var links := corpus[page];
    if |links| == 0 then map q | q in corpus :: base
    else map q | q in corpus :: base + (if q in links then d / (|links| as real) else 0.0)
  }

  /**
   The loops of `transition_model`. It fails with a KeyError when `page` is
   not a key of the corpus (pagerank.py:69) or when one of its links is not
   (pagerank.py:84); otherwise it returns `Transition`.
   */
  method TransitionModel(corpus: Corpus, keys: seq<string>, page: string, d: real) returns (r: Result<Distribution>)
    requires KeyOrder(corpus, keys)
    ensures r.Ok? <==> LinksIn(corpus, page)
    ensures r.Ok? ==> r.value == Transition(corpus, keys, page, d)
    ensures r.Err? && page !in corpus ==> r.error == KeyError(page)
    ensures r.Err? && page in corpus ==> r.error.key in corpus[page] && r.error.key !in corpus
  {
    if page !in corpus {
      return Err(KeyError(page));
    }
    var currentPage := corpus[page];
    var numLinks := |currentPage|;
    var numPages := |keys|;
    var allPageProb := (1.0 - d) / (numPages as real);
    var prob: Distribution := map[];
    for i := 0 to |keys|
      invariant forall q :: q in prob <==> q in keys[..i]
      invariant forall q :: q in prob ==> prob[q] == allPageProb
    {
      prob := prob[keys[i] := allPageProb];
    }
    assert keys[..|keys|] == keys;
    if numLinks > 0 {
      var rest := currentPage;
      while rest != {}
        invariant rest <= currentPage
        invariant prob.Keys == corpus.Keys
        invariant currentPage - rest <= corpus.Keys
        invariant forall q :: q in prob ==>
          prob[q] == allPageProb + (if q in currentPage - rest then d / (numLinks as real) else 0.0)
        decreases |rest|
      {
        var l :| l in rest;
        if l !in prob {
          return Err(KeyError(l));
        }
        prob := prob[l := prob[l] + d / (numLinks as real)];
        rest := rest - {l};
      }
    }
    TransitionFrom(corpus, keys, page, d, prob);
    r := Ok(prob);
  }

  /** A map on the pages of the corpus holding the values of `Transition` at each page is `Transition`. */
  lemma {:induction false} TransitionFrom(corpus: Corpus, keys: seq<string>, page: string, d: real, prob: Distribution)
    requires KeyOrder(corpus, keys) && page in corpus
    requires prob.Keys == corpus.Keys
    requires forall q :: q in prob ==>
      prob[q] == (1.0 - d) / (|keys| as real) + (if q in corpus[page] then d / (|corpus[page]| as real) else 0.0)
    ensures prob == Transition(corpus, keys, page, d)
  {
  }

  /**
   The values total 1 when the current page has links, and `1 - d` when it
   has none; with `0 <= d <= 1` every value is non-negative.
   */
  lemma {:induction false} TransitionTotal(corpus: Corpus, keys: seq<string>, page: string, d: real)
    requires KeyOrder(corpus, keys) && LinksIn(corpus, page)
    ensures Total(keys, Transition(corpus, keys, page, d)) == if corpus[page] == {} then 1.0 - d else 1.0
  {
    var r := Transition(corpus, keys, page, d);
    var links := corpus[page];
    assert page in keys;
    var n := |keys| as real;
    var base := (1.0 - d) / n;
    var c := if |links| == 0 then 0.0 else d / (|links| as real);
    forall i | 0 <= i < |keys|
      ensures AtFn(r)(keys[i]) == 1.0 * ConstFn(base)(keys[i]) + 1.0 * Indicator(links, c)(keys[i])
    {
      assert keys[i] in corpus;
    }
    SumLinear(keys, ConstFn(base), Indicator(links, c), AtFn(r), 1.0, 1.0);
    var teleport := Sum(keys, ConstFn(base));
    var follow := Sum(keys, Indicator(links, c));
    assert Total(keys, r) == teleport + follow;
    SumSpread(keys, 1.0 - d);
    assert links <= SetOf(keys);
    SumSpreadOver(keys, links, d);
  }

  /** With a damping factor in [0, 1] every value is non-negative. */
  lemma {:induction false} TransitionNonneg(corpus: Corpus, keys: seq<string>, page: string, d: real)
    requires KeyOrder(corpus, keys) && page in corpus
    requires 0.0 <= d <= 1.0
    ensures Nonneg(corpus, Transition(corpus, keys, page, d))
  {
    assert page in keys;
    var r := Transition(corpus, keys, page, d);
    var links := corpus[page];
    var base := (1.0 - d) / (|keys| as real);
    DivNonneg(1.0 - d, |keys| as real);
    if |links| > 0 {
      DivNonneg(d, |links| as real);
    }
    forall q | q in corpus ensures At(r, q) >= 0.0 {
    }
  }

  /**
   The values page by page: `(1 - d) / N + d / k` for each of the `k >= 1`
   linked pages, `(1 - d) / N` for every other page.
   */
  lemma {:induction false} TransitionAt(corpus: Corpus, keys: seq<string>, page: string, d: real, q: string)
    requires KeyOrder(corpus, keys) && page in corpus && q in corpus
    ensures var r := Transition(corpus, keys, page, d);
      r[q] == (1.0 - d) / (|corpus| as real)
              + (if q in corpus[page] then d / (|corpus[page]| as real) else 0.0)
  {
    KeyCount(corpus, keys);
  }
}

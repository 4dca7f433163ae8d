/**
 The data the rank computations share: the corpus (each page mapped to the set
 of pages it links to), rank distributions, and the key order in which the
 Python dictionaries are walked.
 */
module Graph {
  import opened Sums

  /** Page name to the set of page names it links to. */
  type Corpus = map<string, set<string>>

  /** Page name to a rank or probability. */
  type Distribution = map<string, real>

  /** A failed dictionary lookup, carrying the missing key. */
  datatype Error = KeyError(key: string)

  datatype Result<T> = Ok(value: T) | Err(error: Error)

  /**
   `keys` lists every page of `corpus` exactly once: the order in which a
   loop `for page in corpus` visits them.
   */
  ghost predicate KeyOrder(corpus: Corpus, keys: seq<string>)
  {
    && Distinct(keys)
    && forall x :: x in keys <==> x in corpus
  }

  /** `page` is a page of the corpus and each of its links names a page of the corpus. */
  predicate LinksIn(corpus: Corpus, page: string)
  {
    page in corpus && corpus[page] <= corpus.Keys
  }

  /** Every link target is itself a page of the corpus. */
  predicate Closed(corpus: Corpus)
  {
    forall p :: p in corpus ==> LinksIn(corpus, p)
  }

  /** What the cleaned-up link graph guarantees: no self-links, no links out of the corpus. */
  predicate WellFormed(corpus: Corpus)
  {
    && Closed(corpus)
    && forall p :: p in corpus ==> p !in corpus[p]
  }

  /** `page` is a page of the corpus with at least one out-link. */
  predicate HasLinks(corpus: Corpus, page: string)
  {
    page in corpus && corpus[page] != {}
  }

  /** No page is without out-links. */
  predicate NoDangling(corpus: Corpus)
  {
    forall p {:trigger HasLinks(corpus, p)} :: p in corpus ==> HasLinks(corpus, p)
  }

  /** The value of `page` in `dist`, and 0 where `dist` has no entry. */
  function At(dist: Distribution, page: string): real
  {
    if page in dist then dist[page] else 0.0
  }

  function AtFn(dist: Distribution): string -> real
  {
    page => At(dist, page)
  }

  /** The sum of the values of `dist` over the pages `keys`. */
  function Total(keys: seq<string>, dist: Distribution): real
  {
    Sum(keys, AtFn(dist))
  }

  /** Every value of `dist` on the corpus is non-negative. */
  predicate Nonneg(corpus: Corpus, dist: Distribution)
  {
    forall p :: p in corpus ==> At(dist, p) >= 0.0
  }

  /** The pages of the key order are the pages of the corpus, so `|keys|` is the page count `len(corpus)`. */
  lemma {:induction false} KeyCount(corpus: Corpus, keys: seq<string>)
    requires KeyOrder(corpus, keys)
    ensures |keys| == |corpus|
  {
    DistinctCard(keys);
    assert SetOf(keys) == corpus.Keys;
  }

  /** In a non-negative distribution each page's value lies between 0 and the total. */
  lemma {:induction false} AtMostTotal(corpus: Corpus, keys: seq<string>, dist: Distribution, page: string)
    requires KeyOrder(corpus, keys)
    requires Nonneg(corpus, dist) && page in corpus
    ensures 0.0 <= At(dist, page) <= Total(keys, dist)
  {
    assert page in keys;
    var i :| 0 <= i < |keys| && keys[i] == page;
    forall j | 0 <= j < |keys| ensures AtFn(dist)(keys[j]) >= 0.0 {
      assert keys[j] in corpus;
    }
    SumTerm(keys, AtFn(dist), i);
  }
}

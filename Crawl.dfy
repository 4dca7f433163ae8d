/**
 The link clean-up `crawl` performs once every page's links have been read
 (pagerank.py:39 and pagerank.py:42-46). Reading the directory and matching
 `<a href="...">` are not modelled: the input is the map from each HTML file
 name to the set of link targets found in it.
 */
module Crawl {
  import opened Sums
  import opened Graph

  /**
   The corpus `crawl` returns for the links `found`: a page keeps exactly the
   links that are not to itself and that name a page of the corpus.
   */
  function Cleaned(found: Corpus): (pages: Corpus)
    ensures pages.Keys == found.Keys
  {
    map f | f in found :: set l | l in found[f] - {f} && l in found
  }

  /** The first pass (pagerank.py:39): every page's links without the page itself. */
  function WithoutSelfLinks(found: Corpus): (pages: Corpus)
    ensures pages.Keys == found.Keys
  {
    map f | f in found :: found[f] - {f}
  }

  /** The second pass (pagerank.py:42-46): every page's links restricted to pages of the corpus. */
  function WithinCorpus(pages: Corpus): (next: Corpus)
    ensures next.Keys == pages.Keys
  {
    map f | f in pages :: set l | l in pages[f] && l in pages
  }

  /** `crawl` with its two passes, walking the files in the order `files`. */
  method LinkGraph(found: Corpus, files: seq<string>) returns (pages: Corpus)
    requires KeyOrder(found, files)
    ensures pages == Cleaned(found)
    ensures pages.Keys == found.Keys && WellFormed(pages)
  {
    pages := DropSelfLinks(found, files);
    pages := KeepCorpusLinks(pages, files);
    PassesClean(found);
    CleanedWellFormed(found);
  }

  /** The loop at pagerank.py:33-39, after the links of each file were found. */
  method DropSelfLinks(found: Corpus, files: seq<string>) returns (pages: Corpus)
    requires KeyOrder(found, files)
    ensures pages == WithoutSelfLinks(found)
  {
    pages := map[];
    for i := 0 to |files|
      invariant forall f :: f in pages <==> f in files[..i]
      invariant forall f :: f in pages ==> pages[f] == found[f] - {f}
    {
      var f := files[i];
      pages := pages[f := found[f] - {f}];
    }
    assert files[..|files|] == files;
  }

  /** The loop at pagerank.py:42-46, which replaces each page's links in place. */
  method KeepCorpusLinks(pages: Corpus, files: seq<string>) returns (next: Corpus)
    requires KeyOrder(pages, files)
    ensures next == WithinCorpus(pages)
  {
    next := pages;
    for i := 0 to |files|
      invariant next.Keys == pages.Keys
      invariant forall k | 0 <= k < i :: next[files[k]] == WithinCorpus(pages)[files[k]]
      invariant forall k | i <= k < |files| :: next[files[k]] == pages[files[k]]
    {
      var f := files[i];
      next := next[f := set l | l in next[f] && l in next];
    }
    AgreeOnKeys(next, WithinCorpus(pages), files);
  }

  /** Two maps on the pages listed by `files` that agree at each of them are equal. */
  lemma {:induction false} AgreeOnKeys(a: Corpus, b: Corpus, files: seq<string>)
    requires KeyOrder(a, files) && b.Keys == a.Keys
    requires forall k | 0 <= k < |files| :: a[files[k]] == b[files[k]]
    ensures a == b
  {
    forall f | f in a
      ensures a[f] == b[f]
    {
      var k :| 0 <= k < |files| && files[k] == f;
    }
  }

  /** The two passes together are the clean-up. */
  lemma {:induction false} PassesClean(found: Corpus)
    ensures WithinCorpus(WithoutSelfLinks(found)) == Cleaned(found)
  {
  }

  /** After the clean-up no page links to itself and every link target is a page. */
  lemma {:induction false} CleanedWellFormed(found: Corpus)
    ensures WellFormed(Cleaned(found))
  {
  }

  /** A link survives exactly when it was found, is not a self-link, and names a page. */
  lemma {:induction false} CleanedLinks(found: Corpus, f: string, l: string)
    requires f in found
    ensures l in Cleaned(found)[f] <==> l in found[f] && l != f && l in found
  {
  }

  /** The clean-up changes nothing in a corpus that is already well formed. */
  lemma {:induction false} CleanedIdempotent(found: Corpus)
    ensures Cleaned(Cleaned(found)) == Cleaned(found)
    ensures WellFormed(found) ==> Cleaned(found) == found
  {
    CleanedWellFormed(found);
    WellFormedFixed(Cleaned(found));
    WellFormedFixed(found);
  }

  lemma {:induction false} WellFormedFixed(c: Corpus)
    ensures WellFormed(c) ==> Cleaned(c) == c
  {
    if WellFormed(c) {
      forall f | f in c ensures Cleaned(c)[f] == c[f] {
        assert forall l :: l in c[f] ==> l != f && l in c;
      }
    }
  }

  /**
   The clean-up keeps as much as it can: any well-formed corpus on the same
   pages whose links were all found has only links the clean-up keeps.
   */
  lemma {:induction false} CleanedIsLargest(found: Corpus, g: Corpus)
    requires g.Keys == found.Keys && WellFormed(g)
    requires forall f :: f in g ==> g[f] <= found[f]
    ensures forall f :: f in g ==> g[f] <= Cleaned(found)[f]
  {
  }
}

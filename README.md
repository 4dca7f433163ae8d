# PageRank: a verified model

This project models `pagerank.py`, a small PageRank calculator. It covers three pieces.

- **Link clean-up.** `crawl` reads a directory of HTML pages into a corpus that maps each page to the set of pages it links to. The model covers the clean-up done after the links are read.
- **The random surfer.** `transition_model` gives the distribution of the surfer's next page. `sample_pagerank` keeps a running mean of those distributions along a random walk.
- **The iteration.** `iterate_pagerank` and `get_sum` apply the PageRank recurrence round after round. They start from the uniform distribution and stop once no page's rank moves by 0.001 or more.

All numbers are exact reals. The damping factor `d` is a parameter.

The Python dictionaries are walked in insertion order. The model makes that order explicit: a sequence `keys` that lists every page of the corpus exactly once (`Graph.KeyOrder`). So `len(corpus)` is `|keys|` (`Graph.KeyCount`).

## Modules

- **`Sums`**: finite sums over sequences `Sum(s, f)`, with the algebra the proofs need: linearity, constants, spreading a mass evenly over a set. A loop summing from the front keeps the invariant `acc == Sum(s[..i], f)`.
- **`Graph`**: the shared types and predicates:
  - `Corpus` and `Distribution`;
  - the failure type `Result` / `KeyError`;
  - `Closed`, meaning every link names a page;
  - `WellFormed`, meaning closed and with no self-links;
  - `HasLinks` / `NoDangling`;
  - `At` and `Total`.
- **`Crawl`**: the two clean-up passes as two loops over the files in key order.
  - `Cleaned` is the independent definition they are proved against.
  - The model proves that the result is well formed, idempotent, and the largest well-formed sub-corpus of what was found.
- **`Surfer`**: `transition_model` as a loop method proved against the function `Transition`.
  - It fails with the `KeyError` Python raises. This happens for a page that is not in the corpus and for a link that names no page.
  - The values total 1 when the page has links and `1 - d` when it has none.
- **`Sampling`**: `sample_pagerank` with its random draws given as a sequence `draws`.
  - The accumulator after `i` steps is proved to be the mean of the first `i` transition distributions (`Estimate`).
  - That mean totals 1 when every visited page has links, and lies between `1 - d` and 1 in general.
- **`Iteration`**:
  - `get_sum` is proved against `Inflow`.
  - One round of the `while True` loop is proved against `NextRanks`, together with its `max_change`.
  - The whole iteration is proved against `Iterates(k)`, the distribution after `k` rounds; the loop is given a bound `maxRounds`.
  - The total after a round is `(1 - d) + d * L`, where `L` is the rank held by pages that have links. So without dangling pages every round totals 1. With dangling pages every round totals between `1 - d` and 1.

### What the docstrings promise and what the code does (the model follows the code)

- **A page without links.** The docstrings of `sample_pagerank` and `iterate_pagerank` say all PageRank values sum to 1 (pagerank.py:96-97, 131-132). For a page without links, `transition_model` skips the `if current_page:` branch (pagerank.py:82), so every page gets only `(1 - d)/N` and the distribution totals `1 - d`. `Surfer.TransitionTotal` states this.
- **A single page without links.** Both estimators give that page `1 - d`, not 1: its transition distribution totals `1 - d`, and a round gives `(1 - d)/1 + d * 0`.
- **Rank of pages without links.** `get_sum` (pagerank.py:166-171) only collects rank from pages that link to the page, so the rank held by a page without links is not passed on. `Iteration.NextRanksTotal` gives the total after a round as `(1 - d) + d * L`. `Iteration.IteratesTotalWithin` proves that every round totals between `1 - d` and 1. `Iteration.IteratesBounded` and `Sampling.SampleBounded` prove the docstrings' "a value between 0 and 1" (pagerank.py:95, 131) for every page. The "sum to 1" promise holds only without such pages (`Iteration.IteratesTotal`, `Sampling.SampleIsDistribution`).

## Model

| member | source | states |
|---|---|---|
| `Crawl.LinkGraph` | pagerank.py:33-46 | The result is `Cleaned(found)`. It has the same pages as `found` and is well formed: no self-links, and every link names a page. |
| `Crawl.DropSelfLinks` | pagerank.py:33-39 | Each page maps to the links found in it, minus the page itself. The pages are the same (`WithoutSelfLinks`). |
| `Crawl.KeepCorpusLinks` | pagerank.py:42-46 | Replacing each page's links in place, in key order, keeps exactly the links that name a page of the corpus (`WithinCorpus`). |
| `Crawl.PassesClean` | pagerank.py:39-46 | The first pass followed by the second is the clean-up `Cleaned`. |
| `Crawl.CleanedWellFormed` | pagerank.py:39-46 | After the clean-up no page links to itself and every link target is a page. |
| `Crawl.CleanedLinks` | pagerank.py:39-46 | A link survives if and only if it was found, is not a self-link, and names a page of the corpus. |
| `Crawl.CleanedIdempotent` | pagerank.py:42-46 | Cleaning twice is cleaning once. Cleaning a well-formed corpus changes nothing. |
| `Crawl.WellFormedFixed` | pagerank.py:42-46 | A well-formed corpus is a fixed point of the clean-up. |
| `Crawl.CleanedIsLargest` | pagerank.py:39-46 | Take any well-formed corpus on the same pages whose links were all found. Each of its link sets lies within the cleaned one. |
| `Graph.KeyCount` | pagerank.py:74 | The key order has `len(corpus)` entries. |
| `Surfer.Transition` | pagerank.py:79-84 | The distribution has exactly the pages of the corpus as keys. |
| `Surfer.TransitionModel` | pagerank.py:51-86 | The result is `Ok` exactly when `page` is a page and all its links are pages; the `Ok` value is `Transition`. A missing page gives `KeyError(page)` (line 69). Otherwise the error names a link of `page` that is not a page (line 84). |
| `Surfer.TransitionAt` | pagerank.py:74-84 | Every page gets `(1 - d)/len(corpus)`. A linked page gets `d/k` more, where `k` is the number of links of `page`. |
| `Surfer.TransitionTotal` | pagerank.py:77-84 | The values total 1 when `page` has a link, and `1 - d` when it has none. |
| `Surfer.TransitionNonneg` | pagerank.py:77-84 | With `0 <= d <= 1` every value is non-negative. |
| `Sampling.Transitions` | pagerank.py:109-112 | Step `i` of the walk is the transition distribution of the `i`-th visited page. |
| `Sampling.TransitionsSnoc` | pagerank.py:109-112 | One more step appends that page's transition distribution. |
| `Sampling.MeanStep` | pagerank.py:117 | Folding a new value into the mean of `i` values with `(i * mean + x) / (i + 1)` gives the mean of all `i + 1` values. |
| `Sampling.FoldIn` | pagerank.py:116-117 | Every page's entry becomes `IncrementalMean(i, old entry, current value)`. The pages are the same. |
| `Sampling.FoldedEstimate` | pagerank.py:116-117 | The map that `FoldIn` produces is the estimate with one more distribution. |
| `Sampling.SamplePageRank` | pagerank.py:89-122 | The result is `Ok` exactly when every one of the `n` visited pages has all its links in the corpus. The `Ok` value maps each page to the mean of its values over the `n` transition distributions. Otherwise the `KeyError` names a link outside the corpus of the first visited page that has one: every earlier visited page has all its links in the corpus. |
| `Sampling.EstimateTotalStep` | pagerank.py:116-117 | The estimate's total follows the same incremental-mean update as each entry. |
| `Sampling.SumIncrementalMean` | pagerank.py:116-117 | Updating term by term and then summing equals updating the sums. |
| `Sampling.IncrementalMeanAdd` | pagerank.py:117 | The incremental-mean update is additive. |
| `Sampling.MeanWithin` | pagerank.py:117 | Folding a value between `lo` and `hi` into a mean between them keeps the mean between them. |
| `Sampling.EstimateTotalWithin` | pagerank.py:109-117 | Suppose every distribution seen totals between `lo` and `hi`. Then after one step or more, so does the estimate. |
| `Sampling.EstimateNonneg` | pagerank.py:109-117 | If every distribution seen is non-negative, so is the estimate. |
| `Sampling.SampleIsDistribution` | pagerank.py:89-122 | Take a closed corpus where every visited page has a link, with `0 <= d <= 1`. The result of `n >= 1` steps totals 1 and is non-negative. |
| `Sampling.SampleTotalWithin` | pagerank.py:89-122 | On a closed corpus with `0 <= d <= 1`, the result of `n >= 1` steps totals between `1 - d` and 1. This holds whether or not dangling pages are visited. |
| `Sampling.SampleBounded` | pagerank.py:94-96 | On a closed corpus with `0 <= d <= 1`, every page's estimate after `n >= 1` steps lies between 0 and 1. |
| `Iteration.GetSum` | pagerank.py:166-171 | The result is `Inflow`: the sum, over the pages `p` that link to `page`, of the rank of `p` divided by its number of links. |
| `Iteration.InflowSwap` | pagerank.py:166-171 | Two sums of `get_sum` terms are equal: by receiving page over every target, and by donating page over every donor. |
| `Iteration.OutflowIsLinkedMass` | pagerank.py:169-170 | A page whose links are all pages passes on exactly its rank if it has a link, and nothing otherwise. |
| `Iteration.TotalInflow` | pagerank.py:166-171 | On a closed corpus, `get_sum` summed over all pages is the total rank held by pages that have links. |
| `Iteration.RanksUpToAt` | pagerank.py:146-150 | After the first `i` pages of the loop, exactly those pages have an entry, each holding its new rank. |
| `Iteration.NextRanksAt` | pagerank.py:146-150 | After a round, exactly the pages of the corpus have an entry. Each holds `(1 - d)/N + d * get_sum`. |
| `Iteration.NextRanksSplit` | pagerank.py:148 | A round totals `1 - d` plus `d` times the total of `get_sum` over all pages. |
| `Iteration.NextRanksTotal` | pagerank.py:143-158 | On a closed corpus, a round totals `1 - d` plus `d` times the rank held by pages with links. |
| `Iteration.LinkedMassAll` | pagerank.py:169-170 | Without dangling pages, the rank held by pages with links is the whole total. |
| `Iteration.NextRanksNonneg` | pagerank.py:148 | With `0 <= d <= 1`, a round keeps every rank non-negative. |
| `Iteration.MaxChangeIsMax` | pagerank.py:144-156 | `max_change` is non-negative and at least every page's change. It equals some page's change, or 0 when there are no pages. |
| `Iteration.Converged` | pagerank.py:161-162 | The loop stops exactly when every page moved by less than 0.001. |
| `Iteration.Round` | pagerank.py:143-158 | The new distribution is `NextRanks(dist)` and `max_change` is `MaxChange(dist, NextRanks(dist))`. |
| `Iteration.IteratesKeys` | pagerank.py:137-158 | Every round's distribution has exactly the pages of the corpus. |
| `Iteration.UnconvergedAll` | pagerank.py:142-162 | `Unconverged(k)` holds exactly when each of the first `k` rounds has `max_change >= 0.001`. |
| `Iteration.IteratePageRank` | pagerank.py:125-164 | The result is the distribution after `rounds` rounds. `converged` holds exactly when the last round's `max_change` is below 0.001, and then no earlier round's was, so that round is the first below. Otherwise `maxRounds` rounds ran without convergence. |
| `Iteration.UniformTotal` | pagerank.py:137 | The starting distribution `1/N` totals 1 on a non-empty corpus. |
| `Iteration.RoundPreservesTotal` | pagerank.py:143-158 | On a closed corpus without dangling pages, a round turns a distribution totalling 1 into one totalling 1. |
| `Iteration.IteratesTotal` | pagerank.py:134-164 | On a closed, non-empty corpus without dangling pages, every round's distribution totals 1. |
| `Iteration.DanglingLeak` | pagerank.py:143-158 | Take a closed corpus, with dangling pages allowed, a non-negative distribution totalling at most 1 and `d >= 0`. A round totals at most 1. |
| `Iteration.TeleportFloor` | pagerank.py:143-158 | From a non-negative distribution and `d >= 0`, a round totals at least the teleport mass `1 - d`. |
| `Iteration.IteratesTotalWithin` | pagerank.py:134-164 | On a closed, non-empty corpus with dangling pages allowed and `0 <= d <= 1`, every round totals at most 1, and from the first round on at least `1 - d`. |
| `Iteration.IteratesBounded` | pagerank.py:130-132 | On a closed corpus with `0 <= d <= 1`, every page's rank in every round lies between 0 and 1. |
| `Iteration.IteratesNonneg` | pagerank.py:134-164 | With `0 <= d <= 1`, every round's ranks are non-negative. |

## Left out

- Reading the directory, the `.html` filter, file I/O and the `href` regular expression (pagerank.py:33-38) are not modelled. The model's input is the map from each file name to the set of links found in it.
- `main`, the printing, the command line and the constants `DAMPING` and `SAMPLES` (pagerank.py:6-21, 173-174) are left out. The damping factor and the number of samples are parameters.
- Random draws are not modelled. `random.choice` (pagerank.py:106) and `random.choices` (pagerank.py:120) become the input sequence `draws`. The weights, which are the running estimate, only decide which page is drawn, so a draw is any page of the corpus.
- `random.choices` raises `ValueError` when every weight is zero. That is not represented.
- `Sampling.SamplePageRank` requires its draws to be pages, which excludes an empty corpus. This means the `IndexError` of `random.choice` on an empty corpus is not modelled.
- Floating point is left out: all arithmetic is on exact reals. A float run can differ in the last digits, and so can stop one round earlier or later than the real-number model.
- `Iteration.IteratePageRank` runs at most `maxRounds` rounds instead of `while True`, because termination of the source loop needs a convergence argument for `d < 1` that is not part of this model. When the bound is reached it returns with `converged` false.
- `Iteration.GetSum` requires an entry in `dist` for every page that links to `page`. Python would raise `KeyError` there. `iterate_pagerank` never gets there, because every distribution it builds has every page (`Iteration.IteratesKeys`).
- `Iteration.Round` requires an entry in `dist` for every page, for the same reason (pagerank.py:153).
- Iteration order is one fixed sequence `keys` in the model, while Python walks a dictionary in insertion order. The corpus links of `transition_model` (pagerank.py:83) are visited in an arbitrary order: the model picks any remaining link. So when several links are missing, the model does not fix which one the `KeyError` names.
- Python's integer `0` in `dict.fromkeys(corpus, 0)` and `max_change = 0` is modelled as the real `0.0`.

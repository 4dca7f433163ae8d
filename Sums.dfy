/**
 Finite sums over sequences, with the algebra the rank computations rely on.

 `Sum(s, f)` adds `f(x)` for every element `x` of `s`, in order. It peels off
 the LAST element, so that a loop which walks a sequence from the front keeps
 the invariant `acc == Sum(s[..i], f)`.
 */
module Sums {

  function Sum<T>(s: seq<T>, f: T -> real): real
  {
    if |s| == 0 then 0.0 else Sum(s[..|s| - 1], f) + f(s[|s| - 1])
  }

  /** No element occurs twice. */
  predicate Distinct<T(==)>(s: seq<T>)
  {
    forall i, j | 0 <= i < j < |s| :: s[i] != s[j]
  }

  function SetOf<T(==)>(s: seq<T>): set<T>
  {
    set x | x in s
  }

  /** The function that is `c` everywhere. */
  function ConstFn<T>(c: real): T -> real
  {
    x => c
  }

  /** The function that is `c` on `A` and 0 elsewhere. */
  function Indicator<T(==)>(A: set<T>, c: real): T -> real
  {
    x => if x in A then c else 0.0
  }

  /** One more element at the back adds its term. */
  lemma {:induction false} SumSnoc<T>(s: seq<T>, x: T, f: T -> real)
    ensures Sum(s + [x], f) == Sum(s, f) + f(x)
  {
    assert (s + [x])[..|s|] == s;
  }

  /** The step a front-to-back loop takes. */
  lemma {:induction false} SumPrefix<T>(s: seq<T>, i: nat, f: T -> real)
    requires i < |s|
    ensures Sum(s[..i + 1], f) == Sum(s[..i], f) + f(s[i])
  {
    assert s[..i + 1][..i] == s[..i];
  }

  /** Sums of functions that agree on `s` agree. */
  lemma {:induction false} SumCong<T>(s: seq<T>, f: T -> real, g: T -> real)
    requires forall i | 0 <= i < |s| :: f(s[i]) == g(s[i])
    ensures Sum(s, f) == Sum(s, g)
  {
    if |s| > 0 {
      SumCong(s[..|s| - 1], f, g);
    }
  }

  /** Summation is linear: a pointwise `a * f + b * g` sums to `a * Sum f + b * Sum g`. */
  lemma {:induction false} SumLinear<T>(s: seq<T>, f: T -> real, g: T -> real, h: T -> real, a: real, b: real)
    requires forall i | 0 <= i < |s| :: h(s[i]) == a * f(s[i]) + b * g(s[i])
    ensures Sum(s, h) == a * Sum(s, f) + b * Sum(s, g)
  {
    if |s| > 0 {
      var n := |s| - 1;
      SumLinear(s[..n], f, g, h, a, b);
      assert Sum(s, h) == Sum(s[..n], h) + h(s[n]);
    }
  }

  /** A constant `c` summed over `s` gives `|s| * c`. */
  lemma {:induction false} SumConst<T>(s: seq<T>, c: real)
    ensures Sum(s, ConstFn(c)) == |s| as real * c
  {
    if |s| > 0 {
      SumConst(s[..|s| - 1], c);
    }
  }

  /** Non-negative terms give a non-negative sum. */
  lemma {:induction false} SumNonneg<T>(s: seq<T>, f: T -> real)
    requires forall i | 0 <= i < |s| :: f(s[i]) >= 0.0
    ensures Sum(s, f) >= 0.0
  {
    if |s| > 0 {
      SumNonneg(s[..|s| - 1], f);
    }
  }

  /** With non-negative terms, each term is at most the sum. */
  lemma {:induction false} SumTerm<T>(s: seq<T>, f: T -> real, i: nat)
    requires forall j | 0 <= j < |s| :: f(s[j]) >= 0.0
    requires i < |s|
    ensures f(s[i]) <= Sum(s, f)
  {
    var n := |s| - 1;
    assert forall j | 0 <= j < n :: s[..n][j] == s[j];
    if i == n {
      SumNonneg(s[..n], f);
    } else {
      SumTerm(s[..n], f, i);
    }
  }

  /** Termwise smaller gives a smaller sum. */
  lemma {:induction false} SumMono<T>(s: seq<T>, f: T -> real, g: T -> real)
    requires forall i | 0 <= i < |s| :: f(s[i]) <= g(s[i])
    ensures Sum(s, f) <= Sum(s, g)
  {
    if |s| > 0 {
      SumMono(s[..|s| - 1], f, g);
    }
  }

  /** Over a sequence without repeats, `c` on the members of `A` sums to `c` times the size of `A` within `s`. */
  lemma {:induction false} SumIndicator<T>(s: seq<T>, A: set<T>, c: real)
    requires Distinct(s)
    ensures Sum(s, Indicator(A, c)) == |A * SetOf(s)| as real * c
  {
    if |s| > 0 {
      var n := |s| - 1;
      var x := s[n];
      SumIndicator(s[..n], A, c);
      var before := |A * SetOf(s[..n])|;
      var k := if x in A then 1 else 0;
      CountStep(s, A);
      assert Sum(s, Indicator(A, c)) == Sum(s[..n], Indicator(A, c)) + Indicator(A, c)(x);
      assert Indicator(A, c)(x) == k as real * c;
      assert |A * SetOf(s)| == before + k;
    }
  }

  /** Extending a repeat-free sequence by its last element counts that element once. */
  lemma {:induction false} CountStep<T>(s: seq<T>, A: set<T>)
    requires Distinct(s) && |s| > 0
    ensures |A * SetOf(s)| == |A * SetOf(s[..|s| - 1])| + (if s[|s| - 1] in A then 1 else 0)
  {
    var n := |s| - 1;
    var x := s[n];
    assert SetOf(s) == SetOf(s[..n]) + {x} by {
      assert s == s[..n] + [x];
    }
    assert x !in SetOf(s[..n]) by {
      forall i | 0 <= i < n ensures s[..n][i] != x { assert s[i] != s[n]; }
    }
    if x in A {
      assert A * SetOf(s) == A * SetOf(s[..n]) + {x};
    } else {
      assert A * SetOf(s) == A * SetOf(s[..n]);
    }
  }

  /** A sequence without repeats has as many elements as its set. */
  lemma {:induction false} DistinctCard<T>(s: seq<T>)
    requires Distinct(s)
    ensures |SetOf(s)| == |s|
  {
    if |s| > 0 {
      var n := |s| - 1;
      DistinctCard(s[..n]);
      assert SetOf(s) == SetOf(s[..n]) + {s[n]};
      assert s[n] !in SetOf(s[..n]) by {
        forall i | 0 <= i < n ensures s[..n][i] != s[n] { assert s[i] != s[n]; }
      }
    }
  }

  /** `x / N` on each of the `N` elements adds up to `x`. */
  lemma {:induction false} SumSpread<T>(keys: seq<T>, x: real)
    requires |keys| > 0
    ensures Sum(keys, ConstFn(x / (|keys| as real))) == x
  {
    SumConst(keys, x / (|keys| as real));
    MulDiv(x, |keys| as real);
  }

  /** `x / k` on each of the `k` members of `links` adds up to `x` (and to 0 when `links` is empty). */
  lemma {:induction false} SumSpreadOver<T>(keys: seq<T>, links: set<T>, x: real)
    requires Distinct(keys) && links <= SetOf(keys)
    ensures Sum(keys, Indicator(links, if |links| == 0 then 0.0 else x / (|links| as real)))
            == if |links| == 0 then 0.0 else x
  {
    var c := if |links| == 0 then 0.0 else x / (|links| as real);
    SumIndicator(keys, links, c);
    assert links * SetOf(keys) == links;
    if |links| > 0 {
      MulDiv(x, |links| as real);
    }
  }

  /** Equal factors give equal products. */
  lemma {:induction false} MulCong(c: real, x: real, y: real)
    requires x == y
    ensures c * x == c * y && x * c == y * c
  {
  }

  /** Multiplying by a non-negative number keeps the order. */
  lemma {:induction false} MulMono(d: real, x: real, y: real)
    requires d >= 0.0 && x <= y
    ensures d * x <= d * y
  {
  }

  /** A value between `n * lo` and `n * hi`, divided by `n > 0`, lies between `lo` and `hi`. */
  lemma {:induction false} DivWithin(lo: real, v: real, hi: real, n: real)
    requires n > 0.0 && n * lo <= v <= n * hi
    ensures lo <= v / n <= hi
  {
    MulDiv(v, n);
  }

  /** Dividing by a positive number and multiplying back is the identity. */
  lemma {:induction false} MulDiv(x: real, n: real)
    requires n > 0.0
    ensures n * (x / n) == x
  {
  }

  /** A non-negative number divided by a positive one is non-negative. */
  lemma {:induction false} DivNonneg(x: real, n: real)
    requires x >= 0.0 && n > 0.0
    ensures x / n >= 0.0
  {
  }
}

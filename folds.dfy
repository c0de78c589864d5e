/** Left-to-right sums and products over a sequence, in the order the source
    accumulates them (`value = value * (1.0 + profit)`,
    `value_sum = value_sum + result.value()`), and the facts that make the
    accumulated totals independent of that order. */
module Folds {

  /** f(s[0]) + ... + f(s[|s|-1]), accumulated from the left. */
  function Sum<T>(s: seq<T>, f: T -> real): real
    decreases |s|
  {
    if |s| == 0 then 0.0 else Sum(s[..|s| - 1], f) + f(s[|s| - 1])
  }

  /** f(s[0]) * ... * f(s[|s|-1]), accumulated from the left; 1.0 when empty. */
  function Product<T>(s: seq<T>, f: T -> real): real
    decreases |s|
  {
    if |s| == 0 then 1.0 else Product(s[..|s| - 1], f) * f(s[|s| - 1])
  }

  /** Appending one element adds its term (the source's running update). */
  lemma Snoc<T>(s: seq<T>, x: T, f: T -> real)
    ensures Sum(s + [x], f) == Sum(s, f) + f(x)
    ensures Product(s + [x], f) == Product(s, f) * f(x)
  {
    assert (s + [x])[..|s|] == s;
  }

  /** An occurrence of x in s, with what stands before and after it. */
  lemma Occurrence<T>(s: seq<T>, x: T) returns (pre: seq<T>, post: seq<T>)
    requires x in multiset(s)
    ensures s == pre + ([x] + post)
    ensures multiset(pre + post) == multiset(s) - multiset{x}
  {
    var j :| 0 <= j < |s| && s[j] == x;
    pre, post := s[..j], s[j + 1..];
    assert s == pre + [x] + post;
  }

  /** The last element of a non-empty sequence and what precedes it. */
  lemma Last<T>(s: seq<T>) returns (init: seq<T>, x: T)
    requires |s| > 0
    ensures init == s[..|s| - 1] && x == s[|s| - 1] && s == init + [x]
    ensures x in multiset(s) && multiset(init) == multiset(s) - multiset{x}
  {
    init, x := s[..|s| - 1], s[|s| - 1];
    assert s == init + [x];
  }

  lemma SingletonProduct<T>(x: T, f: T -> real)
    ensures Sum([x], f) == f(x) && Product([x], f) == f(x)
  {
    assert [x][..0] == [];
  }

  // Sums and products are reordered through a fold whose operation is
  // opaque to arithmetic, so that the reordering proof does not have to
  // reason about real products.

  /** A left fold of f over s with the operation op. */
  function Fold<T>(s: seq<T>, f: T -> real, op: (real, real) -> real, unit: real): real
    decreases |s|
  {
    if |s| == 0 then unit else op(Fold(s[..|s| - 1], f, op, unit), f(s[|s| - 1]))
  }

  /** The two last operands of a fold may be swapped. */
  ghost predicate RightCommutative(op: (real, real) -> real) {
    forall a, b, c :: op(op(a, b), c) == op(op(a, c), b)
  }

  lemma Swap(op: (real, real) -> real, r: real, a: real, b: real)
    requires RightCommutative(op)
    ensures op(op(r, a), b) == op(op(r, b), a)
  {
  }

  lemma FoldSnoc<T>(s: seq<T>, x: T, f: T -> real, op: (real, real) -> real, unit: real)
    ensures Fold(s + [x], f, op, unit) == op(Fold(s, f, op, unit), f(x))
  {
    assert (s + [x])[..|s|] == s;
  }

  /** Taking x out of the middle of a sequence takes it out of the fold. */
  lemma {:induction false} FoldWithout<T>(pre: seq<T>, x: T, post: seq<T>, f: T -> real,
                                          op: (real, real) -> real, unit: real)
    requires RightCommutative(op)
    ensures Fold(pre + ([x] + post), f, op, unit) == op(Fold(pre + post, f, op, unit), f(x))
    decreases |post|
  {
    if |post| == 0 {
      assert pre + ([x] + post) == pre + [x] && pre + post == pre;
      FoldSnoc(pre, x, f, op, unit);
    } else {
      var post', y := Last(post);
      assert pre + ([x] + post) == (pre + ([x] + post')) + [y];
      assert pre + post == (pre + post') + [y];
      FoldSnoc(pre + ([x] + post'), y, f, op, unit);
      FoldSnoc(pre + post', y, f, op, unit);
      FoldWithout(pre, x, post', f, op, unit);
      Swap(op, Fold(pre + post', f, op, unit), f(x), f(y));
    }
  }

  /** Reordering the operands of a right-commutative fold does not change it. */
  lemma {:induction false} FoldPermutation<T>(a: seq<T>, b: seq<T>, f: T -> real,
                                              op: (real, real) -> real, unit: real)
    requires RightCommutative(op) && multiset(a) == multiset(b)
    ensures Fold(a, f, op, unit) == Fold(b, f, op, unit)
    decreases |a|
  {
    if |a| == 0 {
      assert |b| == |multiset(b)| == 0;
    } else {
      var init, x := Last(a);
      var pre, post := Occurrence(b, x);
      FoldPermutation(init, pre + post, f, op, unit);
      FoldWithout(pre, x, post, f, op, unit);
      FoldSnoc(init, x, f, op, unit);
    }
  }

  /** The sum is the fold with addition. */
  lemma {:induction false} SumIsFold<T>(s: seq<T>, f: T -> real)
    ensures Sum(s, f) == Fold(s, f, (p: real, q: real) => p + q, 0.0)
    decreases |s|
  {
    if |s| > 0 {
      SumIsFold(s[..|s| - 1], f);
    }
  }

  /** Reordering the terms does not change the sum. */
  lemma SumPermutation<T>(a: seq<T>, b: seq<T>, f: T -> real)
    requires multiset(a) == multiset(b)
    ensures Sum(a, f) == Sum(b, f)
  {
    SumIsFold(a, f);
    SumIsFold(b, f);
    FoldPermutation(a, b, f, (p: real, q: real) => p + q, 0.0);
  }

  /** The product is the fold with multiplication. */
  lemma {:induction false} ProductIsFold<T>(s: seq<T>, f: T -> real)
    ensures Product(s, f) == Fold(s, f, (p: real, q: real) => p * q, 1.0)
    decreases |s|
  {
    if |s| > 0 {
      ProductIsFold(s[..|s| - 1], f);
    }
  }

  lemma MultiplicationRightCommutative()
    ensures RightCommutative((p: real, q: real) => p * q)
  {
    var op := (p: real, q: real) => p * q;
    forall a: real, b: real, c: real
      ensures op(op(a, b), c) == op(op(a, c), b)
    {
      assert (a * b) * c == a * (b * c) == a * (c * b) == (a * c) * b;
    }
  }

  /** Reordering the factors does not change the product. */
  lemma ProductPermutation<T>(a: seq<T>, b: seq<T>, f: T -> real)
    requires multiset(a) == multiset(b)
    ensures Product(a, f) == Product(b, f)
  {
    MultiplicationRightCommutative();
    ProductIsFold(a, f);
    ProductIsFold(b, f);
    FoldPermutation(a, b, f, (p: real, q: real) => p * q, 1.0);
  }

  /** Sums of two sequences agree when their terms agree position by
      position. */
  lemma {:induction false} SumAlong<A, B>(a: seq<A>, b: seq<B>, f: A -> real, g: B -> real)
    requires |a| == |b|
    requires forall i :: 0 <= i < |a| ==> f(a[i]) == g(b[i])
    ensures Sum(a, f) == Sum(b, g)
    decreases |a|
  {
    if |a| > 0 {
      SumAlong(a[..|a| - 1], b[..|b| - 1], f, g);
    }
  }
}

/** One sequence inside another, in order. */
module Sequences {
  /** `a` is an in-order subsequence of `b`. */
  predicate Subsequence<T(==)>(a: seq<T>, b: seq<T>)
    decreases |b|
  {
    a == [] || (b != [] && (
      (a[|a| - 1] == b[|b| - 1] && Subsequence(a[..|a| - 1], b[..|b| - 1]))
      || Subsequence(a, b[..|b| - 1])))
  }

  lemma SubsequenceSnoc<T>(a: seq<T>, b: seq<T>, x: T)
    requires Subsequence(a, b)
    ensures Subsequence(a + [x], b + [x]) && Subsequence(a, b + [x])
  {
    assert (a + [x])[..|a|] == a && (b + [x])[..|b|] == b;
  }

  lemma {:induction false} SubsequenceSelf<T>(a: seq<T>)
    ensures Subsequence(a, a)
    decreases |a|
  {
    if a != [] { SubsequenceSelf(a[..|a| - 1]); }
  }

  lemma {:induction false} SubsequenceConcat<T>(a: seq<T>, b: seq<T>, c: seq<T>, d: seq<T>)
    requires Subsequence(a, b) && Subsequence(c, d)
    ensures Subsequence(a + c, b + d)
    decreases |d|
  {
    if d == [] {
      assert c == [] && a + c == a && b + d == b;
    } else {
      var d', y := d[..|d| - 1], d[|d| - 1];
      assert b + d == (b + d') + [y];
      if c == [] || Subsequence(c, d') {
        SubsequenceConcat(a, b, c, d');
        SubsequenceSnoc(a + c, b + d', y);
      } else {
        var c' := c[..|c| - 1];
        SubsequenceConcat(a, b, c', d');
        SubsequenceSnoc(a + c', b + d', y);
        assert a + c == (a + c') + [y];
      }
    }
  }

  lemma {:induction false} SubsequenceTransitive<T>(a: seq<T>, b: seq<T>, c: seq<T>)
    requires Subsequence(a, b) && Subsequence(b, c)
    ensures Subsequence(a, c)
    decreases |c|
  {
    if a != [] && b != [] && c != [] {
      var b', c' := b[..|b| - 1], c[..|c| - 1];
      if Subsequence(b, c') {
        SubsequenceTransitive(a, b, c');
      } else if Subsequence(a, b') {
        SubsequenceTransitive(a, b', c');
      } else {
        SubsequenceTransitive(a[..|a| - 1], b', c');
      }
    }
  }

  lemma {:induction false} SubsequenceShorter<T>(a: seq<T>, b: seq<T>)
    requires Subsequence(a, b)
    ensures |a| <= |b|
    decreases |b|
  {
    if a != [] {
      if Subsequence(a, b[..|b| - 1]) {
        SubsequenceShorter(a, b[..|b| - 1]);
      } else {
        SubsequenceShorter(a[..|a| - 1], b[..|b| - 1]);
      }
    }
  }
}

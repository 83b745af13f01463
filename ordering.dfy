/** Ordering for `ORDER BY`: the code-point lexicographic order on strings
    (the order DuckDB's default collation gives UTF-8 text), and building
    the distinct values of a column in strictly ascending order. */
module Ordering {

  ghost predicate IsStrictTotalOrder<T(!new)>(lt: (T, T) -> bool) {
    && (forall a :: !lt(a, a))
    && (forall a, b, c :: lt(a, b) && lt(b, c) ==> lt(a, c))
    && (forall a, b :: a == b || lt(a, b) || lt(b, a))
  }

  predicate StrictlySorted<T>(s: seq<T>, lt: (T, T) -> bool) {
    forall i, j :: 0 <= i < j < |s| ==> lt(s[i], s[j])
  }

  /** Adds `x` at its place in a strictly sorted sequence, unless it is already there. */
  function Insert<T(==,!new)>(s: seq<T>, x: T, lt: (T, T) -> bool): (r: seq<T>)
    requires IsStrictTotalOrder(lt) && StrictlySorted(s, lt)
    ensures StrictlySorted(r, lt)
    ensures forall y :: y in r <==> y in s || y == x
  {
    if s == [] then [x]
    else if x == s[0] then s
    else if lt(x, s[0]) then [x] + s
    else
      var rest := Insert(s[1..], x, lt);
      assert forall y :: y in s[1..] ==> lt(s[0], y);
      [s[0]] + rest
  }

  /** The distinct elements of `xs`, ascending: `SELECT DISTINCT ... ORDER BY`. */
  function SortedDistinct<T(==,!new)>(xs: seq<T>, lt: (T, T) -> bool): (r: seq<T>)
    requires IsStrictTotalOrder(lt)
    ensures StrictlySorted(r, lt)
    ensures forall y :: y in r <==> y in xs
  {
    if xs == [] then []
    else
      var init := xs[..|xs| - 1];
      assert xs == init + [xs[|xs| - 1]];
      Insert(SortedDistinct(init, lt), xs[|xs| - 1], lt)
  }

  /** The distinct elements of `n` copies of `c` are just `c`. */
  lemma {:induction false} SortedDistinctOfRepeat<T(!new)>(c: T, n: nat, lt: (T, T) -> bool)
    requires IsStrictTotalOrder(lt) && n >= 1
    ensures SortedDistinct(seq(n, _ => c), lt) == [c]
  {
    var xs := seq(n, _ => c);
    assert xs[..n - 1] == seq(n - 1, _ => c);
    if n > 1 {
      SortedDistinctOfRepeat(c, n - 1, lt);
    }
  }

  function IntLt(a: int, b: int): bool {
    a < b
  }

  lemma IntLtIsStrictTotalOrder()
    ensures IsStrictTotalOrder(IntLt)
  {
  }

  /** `a < b` as DuckDB compares VARCHAR: code point by code point, a proper prefix first. */
  predicate StrLt(a: string, b: string): (lt: bool)
    ensures lt ==> a != b
    ensures |a| < |b| && a == b[..|a|] ==> lt
  {
    if a == [] then b != []
    else if b == [] then false
    else if a[0] != b[0] then a[0] < b[0]
    else
      assert |a| < |b| && a == b[..|a|] ==> a[1..] == b[1..][..|a| - 1];
      StrLt(a[1..], b[1..])
  }

  lemma {:induction false} StrLtIrreflexive(a: string)
    ensures !StrLt(a, a)
  {
    if a != [] {
      StrLtIrreflexive(a[1..]);
    }
  }

  lemma {:induction false} StrLtTransitive(a: string, b: string, c: string)
    requires StrLt(a, b) && StrLt(b, c)
    ensures StrLt(a, c)
  {
    if a != [] && b != [] && c != [] && a[0] == b[0] && b[0] == c[0] {
      StrLtTransitive(a[1..], b[1..], c[1..]);
    }
  }

  lemma {:induction false} StrLtTotal(a: string, b: string)
    ensures a == b || StrLt(a, b) || StrLt(b, a)
  {
    if a != [] && b != [] && a[0] == b[0] {
      StrLtTotal(a[1..], b[1..]);
      if a[1..] == b[1..] {
        assert a == [a[0]] + a[1..] && b == [b[0]] + b[1..];
      }
    }
  }

  /** The order of `ORDER BY 1, 2` on two text columns. */
  function PairLt(a: (string, string), b: (string, string)): bool {
    StrLt(a.0, b.0) || (a.0 == b.0 && StrLt(a.1, b.1))
  }

  lemma PairLtIsStrictTotalOrder()
    ensures IsStrictTotalOrder(PairLt)
  {
    forall a: (string, string) ensures !PairLt(a, a) {
      StrLtIrreflexive(a.0);
      StrLtIrreflexive(a.1);
    }
    forall a: (string, string), b: (string, string), c: (string, string) | PairLt(a, b) && PairLt(b, c)
      ensures PairLt(a, c)
    {
      if StrLt(a.0, b.0) && StrLt(b.0, c.0) {
        StrLtTransitive(a.0, b.0, c.0);
      } else if StrLt(a.1, b.1) && StrLt(b.1, c.1) {
        StrLtTransitive(a.1, b.1, c.1);
      }
    }
    forall a: (string, string), b: (string, string) ensures a == b || PairLt(a, b) || PairLt(b, a) {
      StrLtTotal(a.0, b.0);
      StrLtTotal(a.1, b.1);
    }
  }
}

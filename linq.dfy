/**
 * The LINQ query operators the controller composes, as functions over sequences.
 * A database table is a `seq` of rows. The database promises no row order where
 * the query has no `OrderBy`, so the contracts here speak of membership and
 * multiplicity wherever order would be an artefact of the model.
 */
module Linq {
  import opened Wrappers

  /** No element occurs twice. */
  ghost predicate NoDuplicates<T>(s: seq<T>) {
    forall i, j :: 0 <= i < j < |s| ==> s[i] != s[j]
  }

  /** Non-increasing by `key`, the order `OrderByDescending` produces. */
  ghost predicate Descending<T>(s: seq<T>, key: T -> int) {
    forall i, j :: 0 <= i < j < |s| ==> key(s[i]) >= key(s[j])
  }

  /** `Where(p)`: the elements satisfying `p`, each as often as in `s`. */
  function Where<T(!new)>(s: seq<T>, p: T -> bool): (r: seq<T>)
    ensures |r| <= |s|
    ensures forall x :: multiset(r)[x] == if p(x) then multiset(s)[x] else 0
    ensures forall x :: x in r <==> x in s && p(x)
  {
    if s == [] then []
    else
      assert s == [s[0]] + s[1..];
      (if p(s[0]) then [s[0]] else []) + Where(s[1..], p)
  }

  /** `Select(f)`: `f` applied to every element, in place. */
  function Select<T(!new), U(!new)>(s: seq<T>, f: T -> U): (r: seq<U>)
    ensures |r| == |s|
    ensures forall i :: 0 <= i < |s| ==> r[i] == f(s[i])
  {
    if s == [] then [] else [f(s[0])] + Select(s[1..], f)
  }

  /** `SelectMany(f)`: the concatenation of `f(x)` over the elements `x` of `s`. */
  function SelectMany<T(!new), U(!new)>(s: seq<T>, f: T -> seq<U>): (r: seq<U>)
    ensures forall y :: y in r <==> exists x :: x in s && y in f(x)
  {
    if s == [] then []
    else
      assert forall x :: x in s <==> x == s[0] || x in s[1..];
      f(s[0]) + SelectMany(s[1..], f)
  }

  /**
   * A projection through a navigation property: `lookup` finds the joined row
   * for each element; elements for which it finds none are dropped, as in the
   * SQL inner join the projection is translated to.
   */
  function InnerJoin<T(!new), U(!new)>(s: seq<T>, lookup: T -> Option<U>): (r: seq<U>)
    ensures |r| <= |s|
    ensures forall y :: y in r <==> exists x :: x in s && lookup(x) == Some(y)
    ensures (forall x :: x in s ==> lookup(x).Some?) ==>
              |r| == |s| && forall i :: 0 <= i < |s| ==> lookup(s[i]) == Some(r[i])
  {
    if s == [] then []
    else
      assert forall x :: x in s <==> x == s[0] || x in s[1..];
      match lookup(s[0])
      case Some(y) => [y] + InnerJoin(s[1..], lookup)
      case None => InnerJoin(s[1..], lookup)
  }

  /** `Distinct()`: every element of `s` once, and nothing else. */
  function Distinct<T(==,!new)>(s: seq<T>): (r: seq<T>)
    ensures NoDuplicates(r)
    ensures forall x :: x in r <==> x in s
    ensures |r| <= |s|
  {
    if s == [] then []
    else
      var rest := Distinct(s[..|s| - 1]);
      assert s == s[..|s| - 1] + [s[|s| - 1]];
      if s[|s| - 1] in rest then rest else rest + [s[|s| - 1]]
  }

  /** `Sum(f)`: the sum of `f` over the elements, 0 for an empty sequence. */
  function Sum<T>(s: seq<T>, f: T -> int): int {
    if s == [] then 0 else f(s[0]) + Sum(s[1..], f)
  }

  /** `FirstOrDefault(p)`: the first element satisfying `p`, or `None`. */
  function First<T(!new)>(s: seq<T>, p: T -> bool): (r: Option<T>)
    ensures r.None? <==> forall x :: x in s ==> !p(x)
    ensures r.Some? ==> r.value in s && p(r.value)
  {
    if s == [] then None
    else if p(s[0]) then Some(s[0])
    else
      assert forall x :: x in s <==> x == s[0] || x in s[1..];
      First(s[1..], p)
  }

  /** `Max(f)`: the largest value of `f`; `None` where LINQ throws on an empty sequence. */
  function Max<T(!new)>(s: seq<T>, f: T -> int): (r: Option<int>)
    ensures r.None? <==> s == []
    ensures r.Some? ==> forall x :: x in s ==> f(x) <= r.value
    ensures r.Some? ==> exists x :: x in s && f(x) == r.value
  {
    if s == [] then None
    else
      assert forall x :: x in s <==> x == s[0] || x in s[1..];
      match Max(s[1..], f)
      case None => Some(f(s[0]))
      case Some(m) => if f(s[0]) >= m then Some(f(s[0])) else Some(m)
  }

  /** Inserts `x` into a non-increasing `s`, ahead of the elements whose key equals its own. */
  function InsertDescending<T>(x: T, s: seq<T>, key: T -> int): (r: seq<T>)
    requires Descending(s, key)
    ensures Descending(r, key)
    ensures multiset(r) == multiset(s) + multiset{x}
    ensures |r| == |s| + 1
  {
    if s == [] || key(s[0]) <= key(x) then
      [x] + s
    else
      var rest := InsertDescending(x, s[1..], key);
      assert s == [s[0]] + s[1..];
      HeadDominates(s[0], s[1..], x, rest, key);
      [s[0]] + rest
  }

  /** A head that dominates every element of a permutation of its tail plus a smaller `x`
      also heads that permutation in descending order. */
  lemma HeadDominates<T>(h: T, t: seq<T>, x: T, r: seq<T>, key: T -> int)
    requires Descending([h] + t, key) && key(x) < key(h)
    requires multiset(r) == multiset(t) + multiset{x}
    requires Descending(r, key)
    ensures Descending([h] + r, key)
  {
    forall j | 0 <= j < |r| ensures key(r[j]) <= key(h) {
      assert r[j] in multiset(r);
      if r[j] != x {
        assert r[j] in multiset(t);
        var i :| 0 <= i < |t| && t[i] == r[j];
        assert ([h] + t)[0] == h && ([h] + t)[i + 1] == t[i];
      }
    }
    forall i, j | 0 <= i < j < |[h] + r| ensures key(([h] + r)[i]) >= key(([h] + r)[j]) {
      if i > 0 {
        assert ([h] + r)[i] == r[i - 1] && ([h] + r)[j] == r[j - 1];
      }
    }
  }

  /** `OrderByDescending(key)`: a non-increasing permutation of `s`; ties keep
      their order in `s`. */
  function OrderByDescending<T>(s: seq<T>, key: T -> int): (r: seq<T>)
    ensures Descending(r, key)
    ensures multiset(r) == multiset(s)
    ensures |r| == |s|
  {
    if s == [] then []
    else
      assert s == [s[0]] + s[1..];
      InsertDescending(s[0], OrderByDescending(s[1..], key), key)
  }

  /** A sum splits over concatenation. */
  lemma {:induction false} SumAppend<T>(a: seq<T>, b: seq<T>, f: T -> int)
    ensures Sum(a + b, f) == Sum(a, f) + Sum(b, f)
  {
    if a != [] {
      assert (a + b)[0] == a[0] && (a + b)[1..] == a[1..] + b;
      SumAppend(a[1..], b, f);
      assert Sum(a + b, f) == f(a[0]) + Sum(a[1..] + b, f);
    } else {
      assert a + b == b;
    }
  }

  /** Taking one row out of a sum. */
  lemma {:induction false} SumRemove<T>(b: seq<T>, i: nat, f: T -> int)
    requires i < |b|
    ensures Sum(b, f) == f(b[i]) + Sum(b[..i] + b[i + 1..], f)
  {
    var rest := b[i..];
    assert b == b[..i] + rest;
    SumAppend(b[..i], rest, f);
    assert rest[1..] == b[i + 1..];
    SumAppend(b[..i], b[i + 1..], f);
  }

  /** Removing the same element from two equal multisets of rows leaves equal multisets. */
  lemma MultisetRemoveMatching<T>(a: seq<T>, b: seq<T>, i: nat)
    requires multiset(a) == multiset(b) && a != [] && i < |b| && b[i] == a[0]
    ensures multiset(a[1..]) == multiset(b[..i] + b[i + 1..])
  {
    assert b == b[..i] + [b[i]] + b[i + 1..];
    assert multiset(b) == multiset(b[..i]) + multiset{b[i]} + multiset(b[i + 1..]);
    assert a == [a[0]] + a[1..];
    assert multiset(a) == multiset{a[0]} + multiset(a[1..]);
    assert multiset(b[..i] + b[i + 1..]) == multiset(b[..i]) + multiset(b[i + 1..]);
    assert multiset(a[1..]) == multiset(a) - multiset{a[0]};
  }

  /** A sum does not depend on the order of the rows: only their multiset counts. */
  lemma {:induction false} SumPermutation<T>(a: seq<T>, b: seq<T>, f: T -> int)
    requires multiset(a) == multiset(b)
    ensures Sum(a, f) == Sum(b, f)
  {
    if a != [] {
      assert a[0] in multiset(b);
      var i :| 0 <= i < |b| && b[i] == a[0];
      MultisetRemoveMatching(a, b, i);
      SumPermutation(a[1..], b[..i] + b[i + 1..], f);
      SumRemove(b, i, f);
    }
  }

  /** Summing after a `Where` is summing over all rows with the rejected ones counted as 0. */
  lemma {:induction false} SumWhere<T(!new)>(s: seq<T>, p: T -> bool, f: T -> int, g: T -> int)
    requires forall x :: g(x) == if p(x) then f(x) else 0
    ensures Sum(Where(s, p), f) == Sum(s, g)
  {
    if s != [] {
      SumWhere(s[1..], p, f, g);
      SumAppend(if p(s[0]) then [s[0]] else [], Where(s[1..], p), f);
    }
  }

  /** If no row contributes, the sum is 0. */
  lemma {:induction false} SumOfZeros<T(!new)>(s: seq<T>, f: T -> int)
    requires forall x :: x in s ==> f(x) == 0
    ensures Sum(s, f) == 0
  {
    if s != [] {
      assert forall x :: x in s[1..] ==> x in s;
      SumOfZeros(s[1..], f);
    }
  }

  /** The elements after the first are elements. */
  lemma TailElements<T>(s: seq<T>)
    requires s != []
    ensures forall x :: x in s[1..] ==> x in s
  {
  }

  /** A lower bound on every term bounds the sum from below. */
  lemma {:induction false} SumAtLeast<T(!new)>(s: seq<T>, f: T -> int, lo: int)
    requires forall x :: x in s ==> lo <= f(x)
    ensures |s| * lo <= Sum(s, f)
  {
    if s != [] {
      TailElements(s);
      SumAtLeast(s[1..], f, lo);
      MulSucc(|s| - 1, lo);
    }
  }

  /** An upper bound on every term bounds the sum from above. */
  lemma {:induction false} SumAtMost<T(!new)>(s: seq<T>, f: T -> int, hi: int)
    requires forall x :: x in s ==> f(x) <= hi
    ensures Sum(s, f) <= |s| * hi
  {
    if s != [] {
      TailElements(s);
      SumAtMost(s[1..], f, hi);
      MulSucc(|s| - 1, hi);
    }
  }

  lemma MulSucc(n: int, k: int)
    ensures (n + 1) * k == n * k + k
  {
  }

  /** The head of a non-increasing sequence has the largest key. */
  lemma HeadIsLargest<T(!new)>(s: seq<T>, key: T -> int)
    requires Descending(s, key) && s != []
    ensures forall x :: x in s ==> key(x) <= key(s[0])
  {
    forall x | x in s ensures key(x) <= key(s[0]) {
      var k :| 0 <= k < |s| && s[k] == x;
      if k > 0 { assert key(s[0]) >= key(s[k]); }
    }
  }

  /** The sum of `f(x, y)` over the `y` of `b`, for one `x`. */
  function SumRow<T, U>(x: T, b: seq<U>, f: (T, U) -> int): int {
    if b == [] then 0 else f(x, b[0]) + SumRow(x, b[1..], f)
  }

  /** The sum of `f(x, y)` over the `x` of `a`, for one `y`. */
  function SumCol<T, U>(a: seq<T>, y: U, f: (T, U) -> int): int {
    if a == [] then 0 else f(a[0], y) + SumCol(a[1..], y, f)
  }

  /** The sum of a table of values, row by row. */
  function SumRows<T, U>(a: seq<T>, b: seq<U>, f: (T, U) -> int): int {
    if a == [] then 0 else SumRow(a[0], b, f) + SumRows(a[1..], b, f)
  }

  /** The sum of a table of values, column by column. */
  function SumCols<T, U>(a: seq<T>, b: seq<U>, f: (T, U) -> int): int {
    if b == [] then 0 else SumCol(a, b[0], f) + SumCols(a, b[1..], f)
  }

  lemma {:induction false} SumColsOfNoRows<T, U>(a: seq<T>, b: seq<U>, f: (T, U) -> int)
    requires a == []
    ensures SumCols(a, b, f) == 0
  {
    if b != [] {
      SumColsOfNoRows(a, b[1..], f);
    }
  }

  lemma {:induction false} SumColsSplitsFirstRow<T, U>(a: seq<T>, b: seq<U>, f: (T, U) -> int)
    requires a != []
    ensures SumCols(a, b, f) == SumRow(a[0], b, f) + SumCols(a[1..], b, f)
  {
    if b != [] {
      SumColsSplitsFirstRow(a, b[1..], f);
    }
  }

  /** The two orders of summing a table of values agree. */
  lemma {:induction false} SumSwap<T, U>(a: seq<T>, b: seq<U>, f: (T, U) -> int)
    ensures SumRows(a, b, f) == SumCols(a, b, f)
  {
    if a == [] {
      SumColsOfNoRows(a, b, f);
    } else {
      SumSwap(a[1..], b, f);
      SumColsSplitsFirstRow(a, b, f);
    }
  }

  /** A `Sum` whose terms are the values of one row is that row's sum. */
  lemma {:induction false} SumIsRow<T, U>(x: T, b: seq<U>, f: (T, U) -> int, h: U -> int)
    requires forall y :: y in b ==> h(y) == f(x, y)
    ensures Sum(b, h) == SumRow(x, b, f)
  {
    if b != [] {
      assert forall y :: y in b[1..] ==> y in b;
      SumIsRow(x, b[1..], f, h);
    }
  }

  /** A `Sum` whose terms are the values of one column is that column's sum. */
  lemma {:induction false} SumIsCol<T, U>(a: seq<T>, y: U, f: (T, U) -> int, h: T -> int)
    requires forall x :: x in a ==> h(x) == f(x, y)
    ensures Sum(a, h) == SumCol(a, y, f)
  {
    if a != [] {
      assert forall x :: x in a[1..] ==> x in a;
      SumIsCol(a[1..], y, f, h);
    }
  }

  /** A `Sum` of row sums is the table's sum by rows. */
  lemma {:induction false} SumIsRows<T, U>(a: seq<T>, b: seq<U>, f: (T, U) -> int, g: T -> int)
    requires forall x :: x in a ==> g(x) == SumRow(x, b, f)
    ensures Sum(a, g) == SumRows(a, b, f)
  {
    if a != [] {
      assert forall x :: x in a[1..] ==> x in a;
      SumIsRows(a[1..], b, f, g);
    }
  }

  /** A `Sum` of column sums is the table's sum by columns. */
  lemma {:induction false} SumIsCols<T, U>(a: seq<T>, b: seq<U>, f: (T, U) -> int, g: U -> int)
    requires forall y :: y in b ==> g(y) == SumCol(a, y, f)
    ensures Sum(b, g) == SumCols(a, b, f)
  {
    if b != [] {
      assert forall y :: y in b[1..] ==> y in b;
      SumIsCols(a, b[1..], f, g);
    }
  }

  /** Summing joined rows is summing the source rows when every lookup succeeds. */
  lemma {:induction false} SumInnerJoin<T(!new), U(!new)>(s: seq<T>, lookup: T -> Option<U>, g: U -> int, f: T -> int)
    requires forall x :: x in s ==> lookup(x).Some? && g(lookup(x).value) == f(x)
    ensures Sum(InnerJoin(s, lookup), g) == Sum(s, f)
  {
    if s != [] {
      assert forall x :: x in s[1..] ==> x in s;
      SumInnerJoin(s[1..], lookup, g, f);
    }
  }

  /** Summing joined rows is summing the source rows with the rows whose lookup fails counted as 0. */
  lemma {:induction false} SumInnerJoinOrZero<T(!new), U(!new)>(s: seq<T>, lookup: T -> Option<U>, g: U -> int, f: T -> int)
    requires forall x :: f(x) == match lookup(x) case Some(y) => g(y) case None => 0
    ensures Sum(InnerJoin(s, lookup), g) == Sum(s, f)
  {
    if s != [] {
      SumInnerJoinOrZero(s[1..], lookup, g, f);
    }
  }

  /** Filtering joined rows is joining the filtered rows, when the filter reads only what the join keeps. */
  lemma {:induction false} WhereInnerJoin<T(!new), U(!new)>(s: seq<T>, lookup: T -> Option<U>, p: T -> bool, q: U -> bool)
    requires forall x :: lookup(x).Some? ==> q(lookup(x).value) == p(x)
    ensures Where(InnerJoin(s, lookup), q) == InnerJoin(Where(s, p), lookup)
  {
    if s != [] {
      WhereInnerJoin(s[1..], lookup, p, q);
      var j := InnerJoin(s[1..], lookup);
      var w := Where(s[1..], p);
      match lookup(s[0])
      case None =>
        assert InnerJoin(s, lookup) == j;
        assert !p(s[0]) ==> Where(s, p) == w;
        assert p(s[0]) ==> Where(s, p) == [s[0]] + w && ([s[0]] + w)[0] == s[0] && ([s[0]] + w)[1..] == w;
      case Some(y) =>
        assert InnerJoin(s, lookup) == [y] + j && ([y] + j)[0] == y && ([y] + j)[1..] == j;
        if p(s[0]) {
          assert Where(s, p) == [s[0]] + w && ([s[0]] + w)[0] == s[0] && ([s[0]] + w)[1..] == w;
        } else {
          assert Where(s, p) == w;
        }
    }
  }

  /** Every element's image is in the `Select`. */
  lemma SelectHasImage<T(!new), U(!new)>(s: seq<T>, f: T -> U, x: T)
    requires x in s
    ensures f(x) in Select(s, f)
  {
    var i :| 0 <= i < |s| && s[i] == x;
    assert Select(s, f)[i] == f(x);
  }

  /** Every element of a `Select` is the image of an element of its source. */
  lemma SelectImage<T(!new), U(!new)>(s: seq<T>, f: T -> U, y: U)
    requires y in Select(s, f)
    ensures exists x :: x in s && y == f(x)
  {
    var i :| 0 <= i < |s| && Select(s, f)[i] == y;
    assert s[i] in s;
  }

  /** A `Where` of a duplicate-free sequence is duplicate-free. */
  lemma {:induction false} WhereNoDuplicates<T(!new)>(s: seq<T>, p: T -> bool)
    requires NoDuplicates(s)
    ensures NoDuplicates(Where(s, p))
  {
    if s != [] {
      WhereNoDuplicates(s[1..], p);
      var rest := Where(s[1..], p);
      if p(s[0]) {
        assert s[0] !in s[1..] by {
          forall k | 0 <= k < |s[1..]| ensures s[1..][k] != s[0] {
            assert s[1..][k] == s[k + 1];
          }
        }
        var r := [s[0]] + rest;
        forall i, j | 0 <= i < j < |r| ensures r[i] != r[j] {
          if i == 0 { assert r[j] == rest[j - 1] && r[j] in rest; }
          else { assert r[i] == rest[i - 1] && r[j] == rest[j - 1]; }
        }
      }
    }
  }

  /** `Select` with a function that is one-to-one on `s` keeps a duplicate-free `s` duplicate-free. */
  lemma SelectNoDuplicates<T(!new), U(!new)>(s: seq<T>, f: T -> U)
    requires NoDuplicates(s)
    requires forall x, y :: x in s && y in s && f(x) == f(y) ==> x == y
    ensures NoDuplicates(Select(s, f))
  {
    var r := Select(s, f);
    forall i, j | 0 <= i < j < |r| ensures r[i] != r[j] {
      assert s[i] in s && s[j] in s && s[i] != s[j];
    }
  }

  /** A duplicate-free sequence has as many elements as its set of elements. */
  lemma {:induction false} NoDuplicatesCardinality<T>(s: seq<T>)
    requires NoDuplicates(s)
    ensures |set x | x in s| == |s|
  {
    if s != [] {
      var init := s[..|s| - 1];
      assert NoDuplicates(init);
      NoDuplicatesCardinality(init);
      assert s[|s| - 1] !in init by {
        forall k | 0 <= k < |init| ensures init[k] != s[|s| - 1] {
          assert init[k] == s[k];
        }
      }
      assert s == init + [s[|s| - 1]];
      assert (set x | x in s) == (set x | x in init) + {s[|s| - 1]};
    }
  }

  /** Two duplicate-free sequences with the same elements have the same length. */
  lemma SameElementsSameLength<T>(a: seq<T>, b: seq<T>)
    requires NoDuplicates(a) && NoDuplicates(b)
    requires forall x :: x in a <==> x in b
    ensures |a| == |b|
  {
    NoDuplicatesCardinality(a);
    NoDuplicatesCardinality(b);
    assert (set x | x in a) == (set x | x in b);
  }
}

/** Sequence operations that stand for the pandas building blocks the
    dashboards use: boolean-mask filtering, `.unique()`, `.head(n)`,
    `.sum()` and the sum per group of a `groupby`. */
module Seqs {

  predicate Distinct<T(==)>(s: seq<T>) {
    forall i, j :: 0 <= i < j < |s| ==> s[i] != s[j]
  }

  /** The tail of a sequence without repetitions has none either, and
      does not hold the head. */
  lemma DistinctTail<T>(s: seq<T>)
    requires Distinct(s) && s != []
    ensures Distinct(s[1..]) && s[0] !in s[1..]
  {
    forall i, j | 0 <= i < j < |s[1..]| ensures s[1..][i] != s[1..][j] {
      assert s[1..][i] == s[i + 1] && s[1..][j] == s[j + 1];
    }
    forall j | 0 <= j < |s[1..]| ensures s[1..][j] != s[0] {
      assert s[1..][j] == s[j + 1];
    }
  }

  /** `.sum()` of one column. */
  function Sum<T>(s: seq<T>, val: T -> real): real {
    if s == [] then 0.0 else val(s[0]) + Sum(s[1..], val)
  }

  lemma {:induction false} SumAppend<T>(a: seq<T>, b: seq<T>, val: T -> real)
    ensures Sum(a + b, val) == Sum(a, val) + Sum(b, val)
  {
    if a == [] {
      assert a + b == b;
    } else {
      assert (a + b)[1..] == a[1..] + b;
      SumAppend(a[1..], b, val);
    }
  }

  /** Reordering the rows does not change the column's sum. */
  lemma {:induction false} SumPermutation<T>(a: seq<T>, b: seq<T>, val: T -> real)
    requires multiset(a) == multiset(b)
    ensures Sum(a, val) == Sum(b, val)
  {
    if a != [] {
      assert a[0] in multiset(b);
      var i :| 0 <= i < |b| && b[i] == a[0];
      var rest := b[..i] + b[i + 1..];
      RemoveMultiset(b, i);
      assert a == [a[0]] + a[1..];
      assert multiset(a[1..]) == multiset(a) - multiset{a[0]};
      SumPermutation(a[1..], rest, val);
      SumRemoveAt(b, i, val);
    }
  }

  /** Dropping the row at `i` takes its value off the column's sum. */
  lemma SumRemoveAt<T>(b: seq<T>, i: int, val: T -> real)
    requires 0 <= i < |b|
    ensures Sum(b, val) == val(b[i]) + Sum(b[..i] + b[i + 1..], val)
  {
    var t := b[i + 1..];
    assert b == b[..i] + ([b[i]] + t);
    SumAppend(b[..i], [b[i]] + t, val);
    assert Sum([b[i]] + t, val) == val(b[i]) + Sum(t, val) by {
      assert ([b[i]] + t)[1..] == t;
    }
    SumAppend(b[..i], t, val);
  }

  /** In a sequence without repetitions every value occurs at most once. */
  lemma {:induction false} DistinctOnce<T>(s: seq<T>, x: T)
    requires Distinct(s)
    ensures multiset(s)[x] <= 1
  {
    if s != [] {
      assert s == [s[0]] + s[1..];
      assert Distinct(s[1..]) by {
        forall i, j | 0 <= i < j < |s[1..]| ensures s[1..][i] != s[1..][j] {
          assert s[1..][i] == s[i + 1] && s[1..][j] == s[j + 1];
        }
      }
      DistinctOnce(s[1..], x);
      if s[0] == x {
        assert x !in s[1..] by {
          forall j | 0 <= j < |s[1..]| ensures s[1..][j] != x {
            assert s[1..][j] == s[j + 1];
          }
        }
      }
    }
  }

  /** A reordering of a sequence without repetitions has none either. */
  lemma DistinctPermutation<T>(a: seq<T>, b: seq<T>)
    requires multiset(a) == multiset(b) && Distinct(a)
    ensures Distinct(b)
  {
    forall i, j | 0 <= i < j < |b| ensures b[i] != b[j] {
      if b[i] == b[j] {
        assert b == b[..j] + [b[j]] + b[j + 1..];
        assert b[i] in b[..j];
        assert multiset(b)[b[i]] >= 2;
        DistinctOnce(a, b[i]);
      }
    }
  }

  /** A boolean mask `df[mask]`: keeps, in order, the rows satisfying `p`. */
  function Filter<T>(s: seq<T>, p: T -> bool): (r: seq<T>)
    ensures |r| <= |s|
    ensures forall i :: 0 <= i < |r| ==> r[i] in s && p(r[i])
    ensures forall i :: 0 <= i < |s| && p(s[i]) ==> s[i] in r
  {
    if s == [] then []
    else
      var rest := Filter(s[1..], p);
      if p(s[0]) then [s[0]] + rest else rest
  }

  lemma FilterMembers<T>(s: seq<T>, p: T -> bool)
    ensures forall x :: x in Filter(s, p) <==> x in s && p(x)
  {
    var r := Filter(s, p);
    forall x | x in s && p(x) ensures x in r {
      var i :| 0 <= i < |s| && s[i] == x;
    }
  }

  /** Position `i` of a concatenation lies in its first or its second part. */
  lemma AppendAt<T>(a: seq<T>, b: seq<T>, i: int)
    requires 0 <= i < |a| + |b|
    ensures (a + b)[i] == if i < |a| then a[i] else b[i - |a|]
  {
  }

  /** A mask that holds for both rows of a pair keeps the pair. */
  lemma FilterTwoKept<T>(x: T, y: T, p: T -> bool)
    requires p(x) && p(y)
    ensures Filter([x, y], p) == [x, y]
  {
    assert [x, y][1..] == [y];
    assert Filter([y], p) == [y];
  }

  /** A mask that holds on every row keeps the frame. */
  lemma {:induction false} FilterAll<T>(s: seq<T>, p: T -> bool)
    requires forall x :: x in s ==> p(x)
    ensures Filter(s, p) == s
  {
    if s != [] {
      assert forall x :: x in s[1..] ==> x in s;
      FilterAll(s[1..], p);
      assert s == [s[0]] + s[1..];
    }
  }

  /** The mask keeps each kept row as often as it occurs, and drops the rest. */
  lemma {:induction false} FilterMultiset<T>(s: seq<T>, p: T -> bool)
    ensures forall x :: multiset(Filter(s, p))[x] == if p(x) then multiset(s)[x] else 0
  {
    if s != [] {
      FilterMultiset(s[1..], p);
      assert s == [s[0]] + s[1..];
    }
  }

  lemma {:induction false} FilterAppend<T>(a: seq<T>, b: seq<T>, p: T -> bool)
    ensures Filter(a + b, p) == Filter(a, p) + Filter(b, p)
  {
    if a == [] {
      assert a + b == b;
    } else {
      assert (a + b)[1..] == a[1..] + b;
      FilterAppend(a[1..], b, p);
    }
  }

  /** A mask and its complement split a column's total in two. */
  lemma {:induction false} SumFilterSplit<T>(s: seq<T>, p: T -> bool, q: T -> bool, val: T -> real)
    requires forall x :: q(x) == !p(x)
    ensures Sum(s, val) == Sum(Filter(s, p), val) + Sum(Filter(s, q), val)
  {
    if s != [] {
      SumFilterSplit(s[1..], p, q, val);
    }
  }

  /** Masks that agree on every row keep the same rows. */
  lemma {:induction false} FilterSame<T>(s: seq<T>, p: T -> bool, q: T -> bool)
    requires forall x :: p(x) == q(x)
    ensures Filter(s, p) == Filter(s, q)
  {
    if s != [] {
      FilterSame(s[1..], p, q);
    }
  }

  /** Three masks applied one after the other are the one mask that holds
      all three. */
  lemma {:induction false} FilterThree<T>(s: seq<T>, p: T -> bool, q: T -> bool, r: T -> bool, all: T -> bool)
    requires forall x :: all(x) == (p(x) && q(x) && r(x))
    ensures Filter(Filter(Filter(s, p), q), r) == Filter(s, all)
  {
    if s != [] {
      FilterThree(s[1..], p, q, r, all);
      var x := s[0];
      if p(x) {
        assert Filter(s, p) == [x] + Filter(s[1..], p);
        assert ([x] + Filter(s[1..], p))[1..] == Filter(s[1..], p);
        if q(x) {
          assert Filter(Filter(s, p), q) == [x] + Filter(Filter(s[1..], p), q);
          assert ([x] + Filter(Filter(s[1..], p), q))[1..] == Filter(Filter(s[1..], p), q);
        }
      }
    }
  }

  /** Element-wise mapping of one column. */
  function Map<T, U>(s: seq<T>, f: T -> U): (r: seq<U>)
    ensures |r| == |s|
    ensures forall i :: 0 <= i < |s| ==> r[i] == f(s[i])
  {
    if s == [] then [] else [f(s[0])] + Map(s[1..], f)
  }

  lemma MapMembers<T, U>(s: seq<T>, f: T -> U)
    ensures forall y :: y in Map(s, f) <==> exists i :: 0 <= i < |s| && f(s[i]) == y
  {
    var m := Map(s, f);
    forall y ensures y in m <==> exists i :: 0 <= i < |s| && f(s[i]) == y {
      if y in m {
        var i :| 0 <= i < |m| && m[i] == y;
        assert f(s[i]) == y;
      }
      if exists i :: 0 <= i < |s| && f(s[i]) == y {
        var i :| 0 <= i < |s| && f(s[i]) == y;
        assert m[i] == y;
      }
    }
  }

  /** Every element's image is in the map, and every image has a source. */
  lemma MapImage<T, U>(s: seq<T>, f: T -> U)
    ensures forall x :: x in s ==> f(x) in Map(s, f)
    ensures forall y :: y in Map(s, f) ==> exists x :: x in s && f(x) == y
  {
    var m := Map(s, f);
    forall x | x in s ensures f(x) in m {
      var i :| 0 <= i < |s| && s[i] == x;
      assert m[i] == f(x);
    }
    forall y | y in m ensures exists x :: x in s && f(x) == y {
      var i :| 0 <= i < |m| && m[i] == y;
      assert s[i] in s;
    }
  }

  /** `.unique()`: the distinct values in order of first appearance. */
  function Unique<T(==)>(s: seq<T>): (r: seq<T>)
    ensures Distinct(r)
    ensures forall i :: 0 <= i < |r| ==> r[i] in s
    ensures forall i :: 0 <= i < |s| ==> s[i] in r
    ensures |r| <= |s|
  {
    if s == [] then []
    else
      var front := Unique(s[..|s| - 1]);
      assert s == s[..|s| - 1] + [s[|s| - 1]];
      if s[|s| - 1] in front then front else front + [s[|s| - 1]]
  }

  /** `.unique()` of two values. */
  lemma UniqueTwo<T>(x: T, y: T)
    ensures Unique([x, y]) == if x == y then [x] else [x, y]
  {
    assert [x, y][..1] == [x];
    assert [x][..0] == [];
  }

  /** A group's sum over two rows. */
  lemma SumWhereTwo<T, K>(x: T, y: T, key: T -> K, k: K, val: T -> real)
    ensures SumWhere([x, y], key, k, val)
      == (if key(x) == k then val(x) else 0.0) + (if key(y) == k then val(y) else 0.0)
  {
    assert [x, y][1..] == [y];
    assert [y][1..] == [];
    assert SumWhere([y], key, k, val) == (if key(y) == k then val(y) else 0.0) + SumWhere([], key, k, val);
  }

  /** `.head(n)`. */
  function Take<T>(s: seq<T>, n: nat): (r: seq<T>)
    ensures |r| == if |s| < n then |s| else n
    ensures r == s[..|r|]
  {
    if |s| <= n then s else s[..n]
  }

  /** The sum of `val` over the rows whose `key` is `k`: one cell of a
      `groupby(key)[val].sum()`; 0 for a key no row has. */
  function SumWhere<T, K(==)>(s: seq<T>, key: T -> K, k: K, val: T -> real): real {
    if s == [] then 0.0
    else (if key(s[0]) == k then val(s[0]) else 0.0) + SumWhere(s[1..], key, k, val)
  }

  /** The number of rows whose `key` is `k` (the group's size). */
  function CountWhere<T, K(==)>(s: seq<T>, key: T -> K, k: K): (n: nat)
    ensures n <= |s|
    ensures n > 0 <==> exists i :: 0 <= i < |s| && key(s[i]) == k
  {
    if s == [] then 0
    else
      var rest := CountWhere(s[1..], key, k);
      assert forall i :: 1 <= i < |s| ==> s[i] == s[1..][i - 1];
      (if key(s[0]) == k then 1 else 0) + rest
  }

  lemma {:induction false} SumWhereAppend<T, K>(a: seq<T>, b: seq<T>, key: T -> K, k: K, val: T -> real)
    ensures SumWhere(a + b, key, k, val) == SumWhere(a, key, k, val) + SumWhere(b, key, k, val)
  {
    if a == [] {
      assert a + b == b;
    } else {
      assert (a + b)[1..] == a[1..] + b;
      SumWhereAppend(a[1..], b, key, k, val);
    }
  }

  /** A key that no row carries sums to 0 (the `fill_value=0` of a reindex). */
  lemma {:induction false} SumWhereAbsent<T, K>(s: seq<T>, key: T -> K, k: K, val: T -> real)
    requires forall x :: x in s ==> key(x) != k
    ensures SumWhere(s, key, k, val) == 0.0
  {
    if s != [] {
      SumWhereAbsent(s[1..], key, k, val);
    }
  }

  /** When `val` is the same constant `c` on every row of the group, the
      group's sum is `c` times its size: the mean of the group is `c`. */
  lemma SumWhereConstant<T, K>(s: seq<T>, key: T -> K, k: K, val: T -> real, c: real)
    requires forall x :: x in s && key(x) == k ==> val(x) == c
    ensures SumWhere(s, key, k, val) == c * CountWhere(s, key, k) as real
  {
    SumWhereRepeat(s, key, k, val, c);
    RepeatIsProduct(c, CountWhere(s, key, k));
  }

  /** `c` added to itself `n` times. */
  function Repeat(c: real, n: nat): real {
    if n == 0 then 0.0 else c + Repeat(c, n - 1)
  }

  lemma {:induction false} RepeatIsProduct(c: real, n: nat)
    ensures Repeat(c, n) == c * n as real
  {
    if n > 0 {
      RepeatIsProduct(c, n - 1);
      assert c * n as real == c * (n - 1) as real + c;
    }
  }

  lemma {:induction false} SumWhereRepeat<T, K>(s: seq<T>, key: T -> K, k: K, val: T -> real, c: real)
    requires forall x :: x in s && key(x) == k ==> val(x) == c
    ensures SumWhere(s, key, k, val) == Repeat(c, CountWhere(s, key, k))
  {
    if s != [] {
      assert forall x :: x in s[1..] ==> x in s;
      SumWhereRepeat(s[1..], key, k, val, c);
      if key(s[0]) == k {
        assert s[0] in s;
      }
    }
  }

  /** `SumWhere` over all rows is `Sum` when every row carries the key. */
  lemma {:induction false} SumWhereAll<T, K>(s: seq<T>, key: T -> K, k: K, val: T -> real)
    requires forall x :: x in s ==> key(x) == k
    ensures SumWhere(s, key, k, val) == Sum(s, val)
  {
    if s != [] {
      SumWhereAll(s[1..], key, k, val);
    }
  }

  /** The sums of the groups named by `ks`, added up. */
  function SumOverKeys<T, K(==)>(ks: seq<K>, s: seq<T>, key: T -> K, val: T -> real): real {
    if ks == [] then 0.0 else SumWhere(s, key, ks[0], val) + SumOverKeys(ks[1..], s, key, val)
  }

  lemma {:induction false} SumOverKeysEmpty<T, K>(ks: seq<K>, key: T -> K, val: T -> real)
    ensures SumOverKeys(ks, [], key, val) == 0.0
  {
    if ks != [] {
      SumOverKeysEmpty(ks[1..], key, val);
    }
  }

  lemma {:induction false} SumOverKeysCons<T, K>(ks: seq<K>, x: T, s: seq<T>, key: T -> K, val: T -> real)
    requires Distinct(ks)
    ensures SumOverKeys(ks, [x] + s, key, val)
         == SumOverKeys(ks, s, key, val) + (if key(x) in ks then val(x) else 0.0)
  {
    if ks != [] {
      assert ([x] + s)[1..] == s;
      assert Distinct(ks[1..]) by {
        forall i, j | 0 <= i < j < |ks[1..]| ensures ks[1..][i] != ks[1..][j] {
          assert ks[1..][i] == ks[i + 1] && ks[1..][j] == ks[j + 1];
        }
      }
      SumOverKeysCons(ks[1..], x, s, key, val);
      if key(x) == ks[0] {
        assert key(x) !in ks[1..] by {
          forall j | 0 <= j < |ks[1..]| ensures ks[1..][j] != ks[0] {
            assert ks[1..][j] == ks[j + 1];
          }
        }
      } else {
        assert (key(x) in ks) == (key(x) in ks[1..]) by {
          assert ks == [ks[0]] + ks[1..];
        }
      }
    }
  }

  /** Grouping loses nothing: when `ks` lists every key once, the group sums
      add up to the column's total. */
  lemma {:induction false} PartitionSum<T, K>(ks: seq<K>, s: seq<T>, key: T -> K, val: T -> real)
    requires Distinct(ks)
    requires forall x :: x in s ==> key(x) in ks
    ensures SumOverKeys(ks, s, key, val) == Sum(s, val)
  {
    if s == [] {
      SumOverKeysEmpty(ks, key, val);
    } else {
      assert s == [s[0]] + s[1..];
      PartitionSum(ks, s[1..], key, val);
      SumOverKeysCons(ks, s[0], s[1..], key, val);
    }
  }

  /** The keys `a`, `a + 1`, ..., `b`. */
  function Range(a: int, b: int): (r: seq<int>)
    ensures |r| == if a <= b then b - a + 1 else 0
    ensures forall j :: 0 <= j < |r| ==> r[j] == a + j
    decreases b - a
  {
    if a > b then [] else [a] + Range(a + 1, b)
  }

  /** Rows whose keys all lie in `lo..hi` add up key by key. */
  lemma RangeSum<T>(s: seq<T>, key: T -> int, val: T -> real, lo: int, hi: int)
    requires forall x :: x in s ==> lo <= key(x) <= hi
    ensures Sum(s, val) == SumOverKeys(Range(lo, hi), s, key, val)
  {
    var ks := Range(lo, hi);
    forall x | x in s ensures key(x) in ks {
      assert ks[key(x) - lo] == key(x);
    }
    PartitionSum(ks, s, key, val);
  }

  /** The mean of `val` over the rows whose `key` is `k`: one cell of a
      `groupby(key)[val].mean()`. */
  function MeanWhere<T, K(==)>(s: seq<T>, key: T -> K, k: K, val: T -> real): (m: real)
    requires CountWhere(s, key, k) > 0
    ensures m * CountWhere(s, key, k) as real == SumWhere(s, key, k, val)
  {
    SumWhere(s, key, k, val) / CountWhere(s, key, k) as real
  }

  /** A column that holds `c` on every row of the group has mean `c`. */
  lemma MeanWhereConstant<T, K>(s: seq<T>, key: T -> K, k: K, val: T -> real, c: real)
    requires CountWhere(s, key, k) > 0
    requires forall x :: x in s && key(x) == k ==> val(x) == c
    ensures MeanWhere(s, key, k, val) == c
  {
    SumWhereConstant(s, key, k, val, c);
  }

  /** Two groups of the same size whose sums are opposite have opposite means. */
  lemma MeanWhereNegated<T, U, K>(a: seq<T>, keyA: T -> K, b: seq<U>, keyB: U -> K, k: K,
                                  va: T -> real, vb: U -> real)
    requires CountWhere(a, keyA, k) > 0
    requires CountWhere(b, keyB, k) == CountWhere(a, keyA, k)
    requires SumWhere(b, keyB, k, vb) == -SumWhere(a, keyA, k, va)
    ensures MeanWhere(b, keyB, k, vb) == -MeanWhere(a, keyA, k, va)
  {
    NegatedQuotient(SumWhere(a, keyA, k, va), CountWhere(a, keyA, k) as real);
  }

  /** A group whose values are all positive has a positive sum. */
  lemma {:induction false} SumWherePositive<T, K>(s: seq<T>, key: T -> K, k: K, val: T -> real)
    requires CountWhere(s, key, k) > 0
    requires forall x :: x in s && key(x) == k ==> val(x) > 0.0
    ensures SumWhere(s, key, k, val) > 0.0
  {
    assert forall x :: x in s[1..] ==> x in s;
    if key(s[0]) == k {
      if CountWhere(s[1..], key, k) > 0 {
        SumWherePositive(s[1..], key, k, val);
      } else {
        SumWhereAbsent(s[1..], key, k, val);
      }
    } else {
      SumWherePositive(s[1..], key, k, val);
    }
  }

  /** ... and a positive mean. */
  lemma MeanWherePositive<T, K>(s: seq<T>, key: T -> K, k: K, val: T -> real)
    requires CountWhere(s, key, k) > 0
    requires forall x :: x in s && key(x) == k ==> val(x) > 0.0
    ensures MeanWhere(s, key, k, val) > 0.0
  {
    SumWherePositive(s, key, k, val);
    PositiveQuotient(SumWhere(s, key, k, val), CountWhere(s, key, k) as real);
  }

  lemma PositiveQuotient(x: real, n: real)
    requires x > 0.0 && n > 0.0
    ensures x / n > 0.0
  {
  }

  lemma NegatedQuotient(x: real, n: real)
    requires n != 0.0
    ensures -x / n == -(x / n)
  {
  }

  /** Taking row `i` out of a sequence takes its share out of a group's sum. */
  lemma SumWhereRemove<T, K>(b: seq<T>, i: int, key: T -> K, k: K, val: T -> real)
    requires 0 <= i < |b|
    ensures SumWhere(b, key, k, val)
      == (if key(b[i]) == k then val(b[i]) else 0.0) + SumWhere(b[..i] + b[i + 1..], key, k, val)
  {
    assert b == b[..i] + ([b[i]] + b[i + 1..]);
    SumWhereAppend(b[..i], [b[i]] + b[i + 1..], key, k, val);
    SumWhereAppend(b[..i], b[i + 1..], key, k, val);
    assert ([b[i]] + b[i + 1..])[1..] == b[i + 1..];
  }

  /** Taking out an occurrence of `x` takes one `x` out of the multiset. */
  lemma RemoveMultiset<T>(b: seq<T>, i: int)
    requires 0 <= i < |b|
    ensures multiset(b[..i] + b[i + 1..]) == multiset(b) - multiset{b[i]}
  {
    assert b == b[..i] + ([b[i]] + b[i + 1..]);
    assert multiset(b) == multiset(b[..i]) + multiset{b[i]} + multiset(b[i + 1..]);
  }

  /** Reordering the rows does not change a group's sum. */
  lemma {:induction false} SumWherePermutation<T, K>(a: seq<T>, b: seq<T>, key: T -> K, k: K, val: T -> real)
    requires multiset(a) == multiset(b)
    ensures SumWhere(a, key, k, val) == SumWhere(b, key, k, val)
  {
    if a != [] {
      assert a[0] in multiset(b);
      var i :| 0 <= i < |b| && b[i] == a[0];
      var rest := b[..i] + b[i + 1..];
      RemoveMultiset(b, i);
      assert a == [a[0]] + a[1..];
      assert multiset(a[1..]) == multiset(a) - multiset{a[0]};
      SumWherePermutation(a[1..], rest, key, k, val);
      SumWhereRemove(b, i, key, k, val);
    }
  }

  /** A sequence without repetitions has as many values as elements. */
  lemma {:induction false} DistinctCardinality<T>(s: seq<T>)
    requires Distinct(s)
    ensures |set x | x in s| == |s|
  {
    if s != [] {
      assert Distinct(s[1..]) by {
        forall i, j | 0 <= i < j < |s[1..]| ensures s[1..][i] != s[1..][j] {
          assert s[1..][i] == s[i + 1] && s[1..][j] == s[j + 1];
        }
      }
      DistinctCardinality(s[1..]);
      assert s[0] !in s[1..] by {
        forall j | 0 <= j < |s[1..]| ensures s[1..][j] != s[0] {
          assert s[1..][j] == s[j + 1];
        }
      }
      assert (set x | x in s) == {s[0]} + (set x | x in s[1..]) by {
        assert s == [s[0]] + s[1..];
      }
    }
  }

  /** Values inside `[lo, hi]` add up to between `n * lo` and `n * hi`. */
  lemma SumBounds<T>(s: seq<T>, val: T -> real, lo: real, hi: real)
    requires forall x :: x in s ==> lo <= val(x) <= hi
    ensures |s| as real * lo <= Sum(s, val) <= |s| as real * hi
  {
    SumRepeatBounds(s, val, lo, hi);
    RepeatIsProduct(lo, |s|);
    RepeatIsProduct(hi, |s|);
  }

  lemma {:induction false} SumRepeatBounds<T>(s: seq<T>, val: T -> real, lo: real, hi: real)
    requires forall x :: x in s ==> lo <= val(x) <= hi
    ensures Repeat(lo, |s|) <= Sum(s, val) <= Repeat(hi, |s|)
  {
    if s != [] {
      assert forall x :: x in s[1..] ==> x in s;
      SumRepeatBounds(s[1..], val, lo, hi);
      assert s[0] in s;
    }
  }

  /** The rows of one group, in order. */
  function Group<T, K(==)>(s: seq<T>, key: T -> K, k: K): (r: seq<T>)
    ensures forall i :: 0 <= i < |r| ==> r[i] in s && key(r[i]) == k
  {
    if s == [] then []
    else
      var rest := Group(s[1..], key, k);
      assert s == [s[0]] + s[1..];
      if key(s[0]) == k then [s[0]] + rest else rest
  }

  /** Every row of the group is in it. */
  lemma {:induction false} GroupMembers<T, K>(s: seq<T>, key: T -> K, k: K)
    ensures forall x :: x in s && key(x) == k ==> x in Group(s, key, k)
  {
    if s != [] {
      GroupMembers(s[1..], key, k);
      assert forall x :: x in s ==> x == s[0] || x in s[1..];
    }
  }

  /** A group's sum and size are those of its rows. */
  lemma {:induction false} GroupSize<T, K>(s: seq<T>, key: T -> K, k: K, val: T -> real)
    ensures |Group(s, key, k)| == CountWhere(s, key, k)
    ensures Sum(Group(s, key, k), val) == SumWhere(s, key, k, val)
  {
    if s != [] {
      GroupSize(s[1..], key, k, val);
    }
  }

  lemma QuotientBounds(x: real, n: real, lo: real, hi: real)
    requires n > 0.0 && n * lo <= x <= n * hi
    ensures lo <= x / n <= hi
  {
  }

  /** The mean of values inside `[lo, hi]` lies inside `[lo, hi]`. */
  lemma MeanBounds<T>(s: seq<T>, val: T -> real, lo: real, hi: real)
    requires s != []
    requires forall x :: x in s ==> lo <= val(x) <= hi
    ensures lo <= Sum(s, val) / |s| as real <= hi
  {
    SumBounds(s, val, lo, hi);
    QuotientBounds(Sum(s, val), |s| as real, lo, hi);
  }

  /** ... and so does a group's mean. */
  lemma MeanWhereBounds<T, K>(s: seq<T>, key: T -> K, k: K, val: T -> real, lo: real, hi: real)
    requires CountWhere(s, key, k) > 0
    requires forall x :: x in s && key(x) == k ==> lo <= val(x) <= hi
    ensures lo <= MeanWhere(s, key, k, val) <= hi
  {
    GroupSize(s, key, k, val);
    MeanBounds(Group(s, key, k), val, lo, hi);
  }
}

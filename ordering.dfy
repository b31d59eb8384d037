/** The two orderings pandas applies to a frame: a `groupby`, which lists the
    distinct keys in ascending order, and `sort_values`, which orders rows by
    a comparison and keeps every row. */
module Ordering {
  import opened Seqs

  ghost predicate StrictTotalOrder<T(!new)>(less: (T, T) -> bool) {
    && (forall a :: !less(a, a))
    && (forall a, b, c :: less(a, b) && less(b, c) ==> less(a, c))
    && (forall a, b :: a != b ==> less(a, b) || less(b, a))
  }

  ghost predicate TotalPreorder<T(!new)>(le: (T, T) -> bool) {
    && (forall a, b :: le(a, b) || le(b, a))
    && (forall a, b, c :: le(a, b) && le(b, c) ==> le(a, c))
  }

  predicate StrictlySorted<T>(s: seq<T>, less: (T, T) -> bool) {
    forall i, j :: 0 <= i < j < |s| ==> less(s[i], s[j])
  }

  predicate SortedBy<T>(s: seq<T>, le: (T, T) -> bool) {
    forall i, j :: 0 <= i < j < |s| ==> le(s[i], s[j])
  }

  // ---------------------------------------------------------------------
  // Distinct keys in ascending order (the group keys of a `groupby`)

  function InsertUnique<T(==)>(x: T, s: seq<T>, less: (T, T) -> bool): (r: seq<T>)
    ensures x in r
    ensures forall y :: y in s ==> y in r
    ensures forall i :: 0 <= i < |r| ==> r[i] == x || r[i] in s
    ensures |r| <= |s| + 1
  {
    if s == [] then [x]
    else if x == s[0] then s
    else if less(x, s[0]) then [x] + s
    else
      var rest := InsertUnique(x, s[1..], less);
      assert s == [s[0]] + s[1..];
      [s[0]] + rest
  }

  /** The distinct values of `s`, in ascending order of `less`. */
  function SortedDistinct<T(==)>(s: seq<T>, less: (T, T) -> bool): (r: seq<T>)
    ensures forall i :: 0 <= i < |s| ==> s[i] in r
    ensures forall i :: 0 <= i < |r| ==> r[i] in s
    ensures |r| <= |s|
  {
    if s == [] then []
    else
      var rest := SortedDistinct(s[1..], less);
      assert s == [s[0]] + s[1..];
      assert forall i :: 1 <= i < |s| ==> s[i] == s[1..][i - 1];
      InsertUnique(s[0], rest, less)
  }

  lemma {:induction false} InsertUniqueSorted<T(!new)>(x: T, s: seq<T>, less: (T, T) -> bool)
    requires StrictTotalOrder(less)
    requires StrictlySorted(s, less)
    ensures StrictlySorted(InsertUnique(x, s, less), less)
    ensures |InsertUnique(x, s, less)| == if x in s then |s| else |s| + 1
  {
    if s != [] && x != s[0] && less(x, s[0]) {
      assert x !in s by {
        forall j | 0 < j < |s| ensures s[j] != x {
          assert less(s[0], s[j]);
        }
      }
    }
    if s != [] && x != s[0] && !less(x, s[0]) {
      assert (x in s) == (x in s[1..]) by {
        assert s == [s[0]] + s[1..];
      }
      InsertUniqueSorted(x, s[1..], less);
      var r := InsertUnique(x, s, less);
      forall j | 0 < j < |r| ensures less(s[0], r[j]) {
        if r[j] != x {
          assert r[j] in s[1..];
        }
      }
    }
  }

  /** The keys a `groupby` produces: every value of `s` once, ascending. */
  lemma {:induction false} SortedDistinctSorted<T(!new)>(s: seq<T>, less: (T, T) -> bool)
    requires StrictTotalOrder(less)
    ensures StrictlySorted(SortedDistinct(s, less), less)
    ensures Distinct(SortedDistinct(s, less))
    ensures Distinct(s) ==> |SortedDistinct(s, less)| == |s|
  {
    if s != [] {
      SortedDistinctSorted(s[1..], less);
      InsertUniqueSorted(s[0], SortedDistinct(s[1..], less), less);
      if Distinct(s) {
        assert Distinct(s[1..]) by {
          forall i, j | 0 <= i < j < |s[1..]| ensures s[1..][i] != s[1..][j] {
            assert s[1..][i] == s[i + 1] && s[1..][j] == s[j + 1];
          }
        }
        assert s[0] !in SortedDistinct(s[1..], less) by {
          forall j | 0 <= j < |s[1..]| ensures s[1..][j] != s[0] {
            assert s[1..][j] == s[j + 1];
          }
        }
      }
    }
  }

  /** A strictly sorted sequence is determined by its elements. */
  lemma {:induction false} StrictlySortedUnique<T(!new)>(a: seq<T>, b: seq<T>, less: (T, T) -> bool)
    requires StrictTotalOrder(less)
    requires StrictlySorted(a, less) && StrictlySorted(b, less)
    requires forall x :: x in a <==> x in b
    ensures a == b
  {
    assert a != [] ==> a[0] in b;
    assert b != [] ==> b[0] in a;
    if a != [] && b != [] {
      assert a[0] == b[0] by {
        assert b[0] in a && a[0] in b;
      }
      forall x ensures x in a[1..] <==> x in b[1..] {
        if x in a[1..] {
          var i :| 1 <= i < |a| && a[i] == x;
          assert less(a[0], x);
          assert x in b && x != b[0];
        }
        if x in b[1..] {
          var i :| 1 <= i < |b| && b[i] == x;
          assert less(b[0], x);
          assert x in a && x != a[0];
        }
      }
      StrictlySortedUnique(a[1..], b[1..], less);
      assert a == [a[0]] + a[1..] && b == [b[0]] + b[1..];
    }
  }

  // ---------------------------------------------------------------------
  // Integer group keys

  predicate IntLess(a: int, b: int) { a < b }

  lemma IntLessOrder()
    ensures StrictTotalOrder(IntLess)
  {
  }

  /** The distinct integer keys of a sequence, ascending. */
  function AscendingKeys<T>(s: seq<T>, key: T -> int): seq<int> {
    SortedDistinct(Map(s, key), IntLess)
  }

  lemma AscendingKeysSorted<T>(s: seq<T>, key: T -> int)
    ensures var ks := AscendingKeys(s, key);
      forall i, j :: 0 <= i < j < |ks| ==> ks[i] < ks[j]
  {
    IntLessOrder();
    SortedDistinctSorted(Map(s, key), IntLess);
  }

  /** The ascending keys list exactly the keys of the elements. */
  lemma AscendingKeysMembers<T>(s: seq<T>, key: T -> int)
    ensures forall x :: x in s ==> key(x) in AscendingKeys(s, key)
    ensures forall k :: k in AscendingKeys(s, key) ==> exists x :: x in s && key(x) == k
  {
    var ks := AscendingKeys(s, key);
    var m := Map(s, key);
    forall x | x in s ensures key(x) in ks {
      var j :| 0 <= j < |s| && s[j] == x;
      assert m[j] == key(x);
    }
    forall k | k in ks ensures exists x :: x in s && key(x) == k {
      var j :| 0 <= j < |m| && m[j] == k;
      assert s[j] in s && key(s[j]) == k;
    }
  }

  /** The first and the last ascending key are the smallest and the
      largest key. */
  lemma AscendingKeysBounds<T>(s: seq<T>, key: T -> int)
    requires s != []
    ensures var ks := AscendingKeys(s, key);
      ks != [] && forall x :: x in s ==> ks[0] <= key(x) <= ks[|ks| - 1]
  {
    var ks := AscendingKeys(s, key);
    var i0 := KeyPosition(s, key, s[0]);
    forall x | x in s ensures ks[0] <= key(x) <= ks[|ks| - 1] {
      KeyBetweenEnds(s, key, x);
    }
  }

  lemma KeyBetweenEnds<T>(s: seq<T>, key: T -> int, x: T)
    requires x in s
    ensures var ks := AscendingKeys(s, key);
      ks != [] && ks[0] <= key(x) <= ks[|ks| - 1]
  {
    var ks := AscendingKeys(s, key);
    var i := KeyPosition(s, key, x);
    AscendingKeysSorted(s, key);
    assert i == 0 || ks[0] < ks[i];
    assert i == |ks| - 1 || ks[i] < ks[|ks| - 1];
  }

  /** An element's key has a position among the ascending keys. */
  lemma KeyPosition<T>(s: seq<T>, key: T -> int, x: T) returns (i: int)
    requires x in s
    ensures 0 <= i < |AscendingKeys(s, key)| && AscendingKeys(s, key)[i] == key(x)
  {
    var j :| 0 <= j < |s| && s[j] == x;
    assert Map(s, key)[j] == key(x);
    var ks := AscendingKeys(s, key);
    i :| 0 <= i < |ks| && ks[i] == key(x);
  }

  /** The smallest and the largest key are keys of elements. */
  lemma AscendingKeysEnds<T>(s: seq<T>, key: T -> int)
    requires s != []
    ensures var ks := AscendingKeys(s, key);
      && ks != []
      && (exists x :: x in s && key(x) == ks[0])
      && (exists x :: x in s && key(x) == ks[|ks| - 1])
  {
    var ks := AscendingKeys(s, key);
    AscendingKeysBounds(s, key);
    AscendingKeysMembers(s, key);
    assert ks[0] in ks && ks[|ks| - 1] in ks;
  }

  // ---------------------------------------------------------------------
  // A stable sort (`sort_values`)

  function InsertBy<T>(x: T, s: seq<T>, le: (T, T) -> bool): (r: seq<T>)
    ensures multiset(r) == multiset(s) + multiset{x}
    ensures |r| == |s| + 1
  {
    if s == [] then [x]
    else if le(x, s[0]) then [x] + s
    else
      assert s == [s[0]] + s[1..];
      [s[0]] + InsertBy(x, s[1..], le)
  }

  /** The rows of `s` ordered by `le`; rows that compare equal keep their order. */
  function SortBy<T>(s: seq<T>, le: (T, T) -> bool): (r: seq<T>)
    ensures multiset(r) == multiset(s)
    ensures |r| == |s|
  {
    if s == [] then []
    else
      assert s == [s[0]] + s[1..];
      InsertBy(s[0], SortBy(s[1..], le), le)
  }

  lemma {:induction false} InsertBySorted<T(!new)>(x: T, s: seq<T>, le: (T, T) -> bool)
    requires TotalPreorder(le)
    requires SortedBy(s, le)
    ensures SortedBy(InsertBy(x, s, le), le)
  {
    if s != [] && !le(x, s[0]) {
      InsertBySorted(x, s[1..], le);
      var r := InsertBy(x, s, le);
      forall j | 0 < j < |r| ensures le(s[0], r[j]) {
        assert r[j] in multiset(r);
        if r[j] != x {
          assert r[j] in multiset(s[1..]);
          assert r[j] in s[1..];
        }
      }
    }
  }

  lemma {:induction false} SortBySorted<T(!new)>(s: seq<T>, le: (T, T) -> bool)
    requires TotalPreorder(le)
    ensures SortedBy(SortBy(s, le), le)
  {
    if s != [] {
      SortBySorted(s[1..], le);
      InsertBySorted(s[0], SortBy(s[1..], le), le);
    }
  }

  /** Two rows the order puts the other way round are swapped. */
  lemma SortByTwoSwapped<T>(x: T, y: T, le: (T, T) -> bool)
    requires !le(x, y)
    ensures SortBy([x, y], le) == [y, x]
  {
    assert [x, y][1..] == [y];
    assert SortBy([y], le) == [y];
  }

  /** Two different keys the order puts the other way round are swapped. */
  lemma SortedDistinctTwoSwapped<T>(x: T, y: T, less: (T, T) -> bool)
    requires x != y && !less(x, y)
    ensures SortedDistinct([x, y], less) == [y, x]
  {
    assert [x, y][1..] == [y];
    assert SortedDistinct([y], less) == [y];
  }
}

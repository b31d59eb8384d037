/** The two rankings of the overview pages: the sellers of the period
    (seller names upper-cased, so spellings that differ only in case are
    one seller) and the ten best-selling items, each with its share of the
    amount shown. app.py ranks by the invoice `total`, ibiomed.py by
    `item_sales`. */
module Rankings {
  import opened Common
  import opened Seqs
  import opened Strings
  import opened Ordering
  import opened Records
  import opened Reconcile

  /** One row of a ranking: a name and its summed amount. */
  datatype RankRow = RankRow(name: string, amount: real)

  function RowAmount(r: RankRow): real { r.amount }

  /** `sort_values(..., ascending=False)`: a row may come before another
      when its amount is at least as large. */
  predicate AmountAtLeast(a: RankRow, b: RankRow) { a.amount >= b.amount }

  lemma AmountAtLeastPreorder()
    ensures TotalPreorder(AmountAtLeast)
  {
  }

  /** The group names of `groupby(name)`: each name once, in text order. */
  function GroupNames<T>(w: seq<T>, name: T -> string): seq<string> {
    SortedDistinct(Map(w, name), StrLess)
  }

  /** One summed row per name of `ns`. */
  function RowsFor<T>(w: seq<T>, name: T -> string, amount: T -> real, ns: seq<string>): (r: seq<RankRow>)
    ensures |r| == |ns|
    ensures forall i :: 0 <= i < |r| ==> r[i] == RankRow(ns[i], SumWhere(w, name, ns[i], amount))
  {
    if ns == [] then []
    else [RankRow(ns[0], SumWhere(w, name, ns[0], amount))] + RowsFor(w, name, amount, ns[1..])
  }

  lemma {:induction false} RowsForSum<T>(w: seq<T>, name: T -> string, amount: T -> real, ns: seq<string>)
    ensures Sum(RowsFor(w, name, amount, ns), RowAmount) == SumOverKeys(ns, w, name, amount)
  {
    if ns != [] {
      RowsForSum(w, name, amount, ns[1..]);
    }
  }

  /** `groupby(name, as_index=False).agg({amount: 'sum'})`. */
  function GroupTotals<T>(w: seq<T>, name: T -> string, amount: T -> real): seq<RankRow> {
    RowsFor(w, name, amount, GroupNames(w, name))
  }

  /** ... followed by `sort_values(amount, ascending=False)`. */
  function Ranking<T>(w: seq<T>, name: T -> string, amount: T -> real): (r: seq<RankRow>)
    ensures multiset(r) == multiset(GroupTotals(w, name, amount))
  {
    SortBy(GroupTotals(w, name, amount), AmountAtLeast)
  }

  /** The ranking is in descending order of amount. */
  lemma RankingSorted<T>(w: seq<T>, name: T -> string, amount: T -> real)
    ensures var r := Ranking(w, name, amount);
      forall i, j :: 0 <= i < j < |r| ==> r[i].amount >= r[j].amount
  {
    AmountAtLeastPreorder();
    SortBySorted(GroupTotals(w, name, amount), AmountAtLeast);
  }

  /** Every row holds the sum of its name's rows, and its name is the name
      of some row of the frame. */
  lemma RankingRows<T>(w: seq<T>, name: T -> string, amount: T -> real)
    ensures var r := Ranking(w, name, amount);
      && (forall i :: 0 <= i < |r| ==> r[i].amount == SumWhere(w, name, r[i].name, amount))
      && (forall i :: 0 <= i < |r| ==> exists x :: x in w && name(x) == r[i].name)
  {
    var r := Ranking(w, name, amount);
    var g := GroupTotals(w, name, amount);
    var ns := GroupNames(w, name);
    forall i | 0 <= i < |r|
      ensures r[i].amount == SumWhere(w, name, r[i].name, amount)
      ensures exists x :: x in w && name(x) == r[i].name
    {
      assert r[i] in multiset(g);
      var k :| 0 <= k < |g| && g[k] == r[i];
      NameWitness(w, name, ns[k]);
    }
  }

  lemma NameWitness<T>(w: seq<T>, name: T -> string, n: string)
    requires n in GroupNames(w, name)
    ensures exists x :: x in w && name(x) == n
  {
    var j :| 0 <= j < |w| && Map(w, name)[j] == n;
    assert w[j] in w;
  }

  /** Every name of the frame has its row in the ranking. */
  lemma RankingComplete<T>(w: seq<T>, name: T -> string, amount: T -> real)
    ensures var r := Ranking(w, name, amount);
      forall x :: x in w ==> exists i :: 0 <= i < |r| && r[i].name == name(x)
  {
    var r := Ranking(w, name, amount);
    var g := GroupTotals(w, name, amount);
    var ns := GroupNames(w, name);
    forall x | x in w ensures exists i :: 0 <= i < |r| && r[i].name == name(x) {
      var j :| 0 <= j < |w| && w[j] == x;
      assert Map(w, name)[j] == name(x);
      var k :| 0 <= k < |ns| && ns[k] == name(x);
      assert g[k] in multiset(r);
      var i :| 0 <= i < |r| && r[i] == g[k];
    }
  }

  /** Each name appears in one row only. */
  lemma RankingNamesDistinct<T>(w: seq<T>, name: T -> string, amount: T -> real)
    ensures var r := Ranking(w, name, amount);
      forall i, j :: 0 <= i < j < |r| ==> r[i].name != r[j].name
  {
    var r := Ranking(w, name, amount);
    var g := GroupTotals(w, name, amount);
    var ns := GroupNames(w, name);
    assert Distinct(ns) by {
      StrLessOrder();
      SortedDistinctSorted(Map(w, name), StrLess);
    }
    assert Distinct(g);
    DistinctPermutation(g, r);
    RankingRows(w, name, amount);
  }

  /** Grouping and sorting lose nothing: the ranking adds up to the frame's
      total of the ranked column. */
  lemma RankingSum<T>(w: seq<T>, name: T -> string, amount: T -> real)
    ensures Sum(Ranking(w, name, amount), RowAmount) == Sum(w, amount)
  {
    var ns := GroupNames(w, name);
    assert Distinct(ns) by {
      StrLessOrder();
      SortedDistinctSorted(Map(w, name), StrLess);
    }
    forall x | x in w ensures name(x) in ns {
      var j :| 0 <= j < |w| && w[j] == x;
      assert Map(w, name)[j] == name(x);
    }
    RowsForSum(w, name, amount, ns);
    PartitionSum(ns, w, name, amount);
    SumPermutation(Ranking(w, name, amount), GroupTotals(w, name, amount), RowAmount);
  }

  // ---------------------------------------------------------------------
  // Shares

  /** `amount / amount.sum() * 100` of each shown row (before rounding to
      one decimal): an infinity or NaN when the shown rows add up to 0. */
  function Shares(rows: seq<RankRow>): (r: seq<Ext>)
    ensures |r| == |rows|
  {
    SharesOf(rows, Sum(rows, RowAmount))
  }

  function SharesOf(rows: seq<RankRow>, s: real): (r: seq<Ext>)
    ensures |r| == |rows|
  {
    seq(|rows|, i requires 0 <= i < |rows| => Percent(rows[i].amount, s))
  }

  lemma {:induction false} SharesOfSum(rows: seq<RankRow>, s: real)
    requires s != 0.0
    ensures SumFinite(SharesOf(rows, s)) == Sum(rows, RowAmount) / s * 100.0
  {
    if rows != [] {
      assert SharesOf(rows, s)[1..] == SharesOf(rows[1..], s);
      SharesOfSum(rows[1..], s);
      AddShares(rows[0].amount, Sum(rows[1..], RowAmount), s);
    }
  }

  lemma AddShares(x: real, y: real, s: real)
    requires s != 0.0
    ensures x / s * 100.0 + y / s * 100.0 == (x + y) / s * 100.0
  {
  }

  /** When the shown rows do not add up to 0 their shares add up to 100%. */
  lemma SharesTotal(rows: seq<RankRow>)
    requires Sum(rows, RowAmount) != 0.0
    ensures SumFinite(Shares(rows)) == 100.0
  {
    var s := Sum(rows, RowAmount);
    SharesOfSum(rows, s);
    WholeShare(s);
  }

  lemma WholeShare(s: real)
    requires s != 0.0
    ensures s / s * 100.0 == 100.0
  {
  }

  /** When they add up to 0, no share is a number. */
  lemma SharesUndefined(rows: seq<RankRow>)
    requires Sum(rows, RowAmount) == 0.0
    ensures forall i :: 0 <= i < |rows| ==> !Shares(rows)[i].Fin?
  {
  }

  /** `.head(10)` of a ranking. */
  const TopCount := 10

  function Top(r: seq<RankRow>): (t: seq<RankRow>)
    ensures |t| <= TopCount
  {
    Take(r, TopCount)
  }

  /** The ten shown rows are the best ones: none left out sold more. */
  lemma TopIsBest<T>(w: seq<T>, name: T -> string, amount: T -> real)
    ensures var r := Ranking(w, name, amount);
      var t := Top(r);
      && t == r[..|t|]
      && (|r| <= TopCount ==> t == r)
      && forall i, j :: 0 <= i < |t| <= j < |r| ==> t[i].amount >= r[j].amount
  {
    RankingSorted(w, name, amount);
  }

  // ---------------------------------------------------------------------
  // The four tables

  function SellerKey(f: Fact): string { Upper(f.key.sellerName) }

  function ItemKey(f: Fact): string { f.key.itemName }

  function FactTotal(f: Fact): real { f.total }

  /** app.py:176-183 as written: sellers by summed `total`. A fact's
      `total` is its invoice's total, repeated on every item of the
      invoice, so an invoice counts once per item. */
  function AppSellerRanking(w: seq<Fact>): (r: seq<RankRow>)
    ensures Sum(r, RowAmount) == Sum(w, FactTotal)
  {
    RankingSum(w, SellerKey, FactTotal);
    Ranking(w, SellerKey, FactTotal)
  }

  /** app.py:194-201 as written: the ten items with the largest summed
      `total`. */
  function AppTopItems(w: seq<Fact>): (r: seq<RankRow>)
    ensures var k := Ranking(w, ItemKey, FactTotal);
      |r| == (if |k| < TopCount then |k| else TopCount) && r == k[..|r|]
  {
    TopIsBest(w, ItemKey, FactTotal);
    Top(Ranking(w, ItemKey, FactTotal))
  }

  /** Sellers by summed `item_sales` (ibiomed.py:174-181, and app.py
      corrected): the ranking adds up to the period's overall total, the
      header figure of both pages. */
  function SellerRanking(w: seq<Fact>): (r: seq<RankRow>)
    ensures Sum(r, RowAmount) == Sum(w, FactItemSales)
  {
    RankingSum(w, SellerKey, FactItemSales);
    Ranking(w, SellerKey, FactItemSales)
  }

  /** The ten items with the largest summed `item_sales` (ibiomed.py:197-204,
      and app.py corrected). */
  function TopItems(w: seq<Fact>): (r: seq<RankRow>)
    ensures var k := Ranking(w, ItemKey, FactItemSales);
      |r| == (if |k| < TopCount then |k| else TopCount) && r == k[..|r|]
  {
    TopIsBest(w, ItemKey, FactItemSales);
    Top(Ranking(w, ItemKey, FactItemSales))
  }

  /** One seller's invoice with two items, both facts carrying the
      invoice's `total` t: as written the seller is ranked with 2t, twice
      the invoice; ranked by `item_sales` the seller gets the two lines'
      sales. */
  lemma AppRankingCountsTotalTwice(a: Fact, b: Fact)
    requires a.key.invoiceNumber == b.key.invoiceNumber && a.key.itemName != b.key.itemName
    requires SellerKey(a) == SellerKey(b) && a.total == b.total
    ensures AppSellerRanking([a, b]) == [RankRow(SellerKey(a), 2.0 * a.total)]
    ensures SellerRanking([a, b]) == [RankRow(SellerKey(a), a.itemSales + b.itemSales)]
  {
    var s := SellerKey(a);
    assert Map([a, b], SellerKey) == [s, s];
    assert [s, s][1..] == [s];
    assert SortedDistinct([s], StrLess) == [s];
    assert GroupNames([a, b], SellerKey) == [s];
    SumWhereTwo(a, b, SellerKey, s, FactTotal);
    SumWhereTwo(a, b, SellerKey, s, FactItemSales);
    assert [s][1..] == [];
  }
}

/** Credit-note reconciliation: the raw lines become facts, one per group of
    the six key columns. Lines without a credit note count where they were
    issued; a credited line also yields a reversal, re-dated to its credit
    note, with `total` and `item_sales` negated and nothing due. The
    overview page (app.py) keeps credited lines out of the original set and
    takes the mean `item_sales` of a group; ibiomed.py and the sales-team
    page keep every line in the original set and add `item_sales` up. */
module Reconcile {
  import opened Common
  import opened Seqs
  import opened Calendar
  import opened Records
  import opened Ordering

  /** How a group's `item_sales` are aggregated. */
  datatype Agg = MeanAgg | SumAgg

  /** The two choices that tell the reconciliations apart. */
  datatype Variant = Variant(excludeCredited: bool, itemSalesAgg: Agg)

  /** app.py:48-68: credited lines only reversed, `item_sales` averaged. */
  const Exclusive := Variant(true, MeanAgg)

  /** ibiomed.py:40-61 and pages/3_Equipo_de_ventas.py:35-56: every line
      kept, `item_sales` added up. */
  const Inclusive := Variant(false, SumAgg)

  predicate Credited(l: RawLine) { l.creditnoteDate.Some? }

  predicate Uncredited(l: RawLine) { l.creditnoteDate.None? }

  function Total(l: RawLine): real { l.total }

  function Due(l: RawLine): real { l.due }

  function ItemSales(l: RawLine): real { l.itemSales }

  function FactItemSales(f: Fact): real { f.itemSales }

  function FactDue(f: Fact): real { f.due }

  /** The set that is grouped as it was issued. */
  function OriginalRows(lines: seq<RawLine>, v: Variant): (r: seq<RawLine>)
    ensures v.excludeCredited ==> forall l :: l in r <==> l in lines && Uncredited(l)
    ensures !v.excludeCredited ==> r == lines
  {
    if v.excludeCredited then Filter(lines, Uncredited) else lines
  }

  /** The reversal of a credited line (`.assign(...)` of app.py:57-62). */
  function Reversal(l: RawLine): (r: RawLine)
    ensures Credited(l) ==> Some(r.issuedAt) == l.creditnoteDate
    ensures r.total == -l.total && r.itemSales == -l.itemSales && r.due == 0.0
    ensures r.invoiceNumber == l.invoiceNumber && r.sellerName == l.sellerName
    ensures r.payeeName == l.payeeName && r.payeeNit == l.payeeNit && r.itemName == l.itemName
  {
    l.(issuedAt := if l.creditnoteDate.Some? then l.creditnoteDate.value else l.issuedAt,
       total := -l.total, itemSales := -l.itemSales, due := 0.0)
  }

  /** The reversal set: one reversal per credited line, in line order. */
  function ReversalRows(lines: seq<RawLine>): (r: seq<RawLine>)
    ensures |r| == |Filter(lines, Credited)|
  {
    Map(Filter(lines, Credited), Reversal)
  }

  // ---------------------------------------------------------------------
  // Grouping

  /** The keys of a six-column `groupby`: each key once, ascending. */
  function GroupKeys(rows: seq<RawLine>): seq<Key> {
    SortedDistinct(Map(rows, KeyOf), KeyLess)
  }

  /** A key carried by some row names a non-empty group. */
  lemma KeyHasRows(rows: seq<RawLine>, k: Key)
    requires k in Map(rows, KeyOf)
    ensures CountWhere(rows, KeyOf, k) > 0
  {
    var m := Map(rows, KeyOf);
    var i :| 0 <= i < |m| && m[i] == k;
    assert KeyOf(rows[i]) == k;
  }

  /** One row of `.agg({'total': 'mean', 'due': 'mean', 'item_sales': agg})`
      for the non-empty group `k`. */
  function GroupFact(rows: seq<RawLine>, k: Key, agg: Agg): (f: Fact)
    requires CountWhere(rows, KeyOf, k) > 0
    ensures f.key == k
    ensures f.total == MeanWhere(rows, KeyOf, k, Total)
    ensures f.due == MeanWhere(rows, KeyOf, k, Due)
    ensures agg == SumAgg ==> f.itemSales == SumWhere(rows, KeyOf, k, ItemSales)
    ensures agg == MeanAgg ==> f.itemSales == MeanWhere(rows, KeyOf, k, ItemSales)
  {
    var sales := if agg == MeanAgg then MeanWhere(rows, KeyOf, k, ItemSales) else SumWhere(rows, KeyOf, k, ItemSales);
    Fact(k, MeanWhere(rows, KeyOf, k, Total), MeanWhere(rows, KeyOf, k, Due), sales)
  }

  /** The facts of the groups `ks`, in the order of `ks`. */
  function FactsFor(rows: seq<RawLine>, ks: seq<Key>, agg: Agg): (r: seq<Fact>)
    requires forall k :: k in ks ==> CountWhere(rows, KeyOf, k) > 0
    ensures |r| == |ks|
    ensures forall i :: 0 <= i < |ks| ==> r[i].key == ks[i]
  {
    if ks == [] then []
    else
      assert ks[0] in ks;
      [GroupFact(rows, ks[0], agg)] + FactsFor(rows, ks[1..], agg)
  }

  /** Fact `i` is the fact of the group `ks[i]`. */
  lemma {:induction false} FactsForAt(rows: seq<RawLine>, ks: seq<Key>, agg: Agg, i: int)
    requires forall k :: k in ks ==> CountWhere(rows, KeyOf, k) > 0
    requires 0 <= i < |ks|
    ensures FactsFor(rows, ks, agg)[i] == GroupFact(rows, ks[i], agg)
  {
    if i > 0 {
      FactsForAt(rows, ks[1..], agg, i - 1);
    }
  }

  /** Every group key names a non-empty group. */
  lemma GroupKeysNonEmpty(rows: seq<RawLine>)
    ensures forall k :: k in GroupKeys(rows) ==> CountWhere(rows, KeyOf, k) > 0
  {
    forall k | k in GroupKeys(rows) ensures CountWhere(rows, KeyOf, k) > 0 {
      KeyHasRows(rows, k);
    }
  }

  /** `groupby(keys, as_index=False).agg(...)`. */
  function GroupRows(rows: seq<RawLine>, agg: Agg): (r: seq<Fact>)
    ensures |r| == |GroupKeys(rows)|
  {
    GroupKeysNonEmpty(rows);
    FactsFor(rows, GroupKeys(rows), agg)
  }

  /** Fact `i` of the grouped frame is the fact of the `i`-th group. */
  lemma GroupRowsAt(rows: seq<RawLine>, agg: Agg, i: int)
    requires 0 <= i < |GroupRows(rows, agg)|
    ensures CountWhere(rows, KeyOf, GroupKeys(rows)[i]) > 0
    ensures GroupRows(rows, agg)[i] == GroupFact(rows, GroupKeys(rows)[i], agg)
  {
    GroupKeysNonEmpty(rows);
    FactsForAt(rows, GroupKeys(rows), agg, i);
  }

  /** The grouped frame lists its keys in ascending order, each once. */
  lemma GroupRowsSorted(rows: seq<RawLine>, agg: Agg)
    ensures var r := GroupRows(rows, agg);
      forall i, j :: 0 <= i < j < |r| ==> KeyLess(r[i].key, r[j].key)
  {
    var r := GroupRows(rows, agg);
    var ks := GroupKeys(rows);
    assert StrictlySorted(ks, KeyLess) by {
      KeyLessOrder();
      SortedDistinctSorted(Map(rows, KeyOf), KeyLess);
    }
    assert forall i :: 0 <= i < |r| ==> r[i].key == ks[i];
  }

  /** The grouped frame has a fact for the key of every row, and no fact
      whose key no row carries. */
  lemma GroupRowsKeys(rows: seq<RawLine>, agg: Agg)
    ensures var r := GroupRows(rows, agg);
      && (forall l :: l in rows ==> exists i :: 0 <= i < |r| && r[i].key == KeyOf(l))
      && (forall i :: 0 <= i < |r| ==> exists l :: l in rows && KeyOf(l) == r[i].key)
  {
    GroupRowsCovered(rows, agg);
    GroupRowsSourced(rows, agg);
  }

  lemma GroupRowsCovered(rows: seq<RawLine>, agg: Agg)
    ensures var r := GroupRows(rows, agg);
      forall l :: l in rows ==> exists i :: 0 <= i < |r| && r[i].key == KeyOf(l)
  {
    var r := GroupRows(rows, agg);
    forall l | l in rows ensures exists i :: 0 <= i < |r| && r[i].key == KeyOf(l) {
      var i := GroupCover(rows, agg, l);
    }
  }

  lemma GroupRowsSourced(rows: seq<RawLine>, agg: Agg)
    ensures var r := GroupRows(rows, agg);
      forall i :: 0 <= i < |r| ==> exists l :: l in rows && KeyOf(l) == r[i].key
  {
    var r := GroupRows(rows, agg);
    forall i | 0 <= i < |r| ensures exists l :: l in rows && KeyOf(l) == r[i].key {
      var l := GroupSource(rows, agg, i);
    }
  }

  /** Fact `i` of the grouped frame carries the `i`-th key. */
  lemma GroupRowsKeyAt(rows: seq<RawLine>, agg: Agg, i: int)
    requires 0 <= i < |GroupRows(rows, agg)|
    ensures GroupRows(rows, agg)[i].key == GroupKeys(rows)[i]
  {
    GroupKeysNonEmpty(rows);
  }

  /** Every row's key has a fact in the grouped frame. */
  lemma GroupCover(rows: seq<RawLine>, agg: Agg, l: RawLine) returns (i: int)
    requires l in rows
    ensures 0 <= i < |GroupRows(rows, agg)| && GroupRows(rows, agg)[i].key == KeyOf(l)
  {
    KeyListed(rows, l);
    var ks := GroupKeys(rows);
    i :| 0 <= i < |ks| && ks[i] == KeyOf(l);
    GroupRowsKeyAt(rows, agg, i);
  }

  /** A fact of a grouped frame comes from a row with its key. */
  lemma GroupSource(rows: seq<RawLine>, agg: Agg, i: int) returns (x: RawLine)
    requires 0 <= i < |GroupRows(rows, agg)|
    ensures x in rows && KeyOf(x) == GroupRows(rows, agg)[i].key
  {
    var ks := GroupKeys(rows);
    GroupRowsKeyAt(rows, agg, i);
    assert ks[i] in Map(rows, KeyOf);
    var m := Map(rows, KeyOf);
    var j :| 0 <= j < |m| && m[j] == ks[i];
    x := rows[j];
  }

  lemma KeyListed(rows: seq<RawLine>, l: RawLine)
    requires l in rows
    ensures KeyOf(l) in GroupKeys(rows)
  {
    var j :| 0 <= j < |rows| && rows[j] == l;
    assert Map(rows, KeyOf)[j] == KeyOf(l);
  }

  /** `pd.concat([summarized_data, creditnote_data], ignore_index=True)`. */
  function Reconcile(lines: seq<RawLine>, v: Variant): (r: seq<Fact>)
    ensures |r| == |GroupKeys(OriginalRows(lines, v))| + |GroupKeys(ReversalRows(lines))|
    ensures r[..|GroupKeys(OriginalRows(lines, v))|] == GroupRows(OriginalRows(lines, v), v.itemSalesAgg)
    ensures r[|GroupKeys(OriginalRows(lines, v))|..] == GroupRows(ReversalRows(lines), v.itemSalesAgg)
  {
    var a := GroupRows(OriginalRows(lines, v), v.itemSalesAgg);
    var b := GroupRows(ReversalRows(lines), v.itemSalesAgg);
    assert (a + b)[..|a|] == a && (a + b)[|a|..] == b;
    a + b
  }

  /** A fact before the reversals is the grouped originals' fact at the
      same position. */
  lemma ReconcileHead(lines: seq<RawLine>, v: Variant, i: int)
    requires 0 <= i < |GroupKeys(OriginalRows(lines, v))|
    ensures Reconcile(lines, v)[i] == GroupRows(OriginalRows(lines, v), v.itemSalesAgg)[i]
  {
    AppendAt(GroupRows(OriginalRows(lines, v), v.itemSalesAgg), GroupRows(ReversalRows(lines), v.itemSalesAgg), i);
  }

  /** A fact past the originals is a grouped reversal. */
  lemma ReconcileTail(lines: seq<RawLine>, v: Variant, i: int)
    requires |GroupKeys(OriginalRows(lines, v))| <= i < |Reconcile(lines, v)|
    ensures Reconcile(lines, v)[i] == GroupRows(ReversalRows(lines), v.itemSalesAgg)[i - |GroupKeys(OriginalRows(lines, v))|]
  {
    var a := GroupRows(OriginalRows(lines, v), v.itemSalesAgg);
    var b := GroupRows(ReversalRows(lines), v.itemSalesAgg);
    assert |a| == |GroupKeys(OriginalRows(lines, v))|;
    AppendAt(a, b, i);
  }

  /** `ReconcileHead` for app.py's variant, its aggregation spelled out. */
  lemma ExclusiveHead(lines: seq<RawLine>, i: int)
    requires 0 <= i < |GroupKeys(OriginalRows(lines, Exclusive))|
    ensures Reconcile(lines, Exclusive)[i] == GroupRows(OriginalRows(lines, Exclusive), MeanAgg)[i]
  {
    ReconcileHead(lines, Exclusive, i);
    assert Exclusive.itemSalesAgg == MeanAgg;
  }

  /** `ReconcileTail` for app.py's variant, its aggregation spelled out. */
  lemma ExclusiveTail(lines: seq<RawLine>, i: int)
    requires |GroupKeys(OriginalRows(lines, Exclusive))| <= i < |Reconcile(lines, Exclusive)|
    ensures Reconcile(lines, Exclusive)[i]
         == GroupRows(ReversalRows(lines), MeanAgg)[i - |GroupKeys(OriginalRows(lines, Exclusive))|]
  {
    ReconcileTail(lines, Exclusive, i);
    assert Exclusive.itemSalesAgg == MeanAgg;
  }

  // ---------------------------------------------------------------------
  // Properties

  /** In the exclusive variant every line lands in exactly one set: an
      uncredited line as itself in the original set, a credited line as
      its reversal in the reversal set. In the inclusive variant every
      line is in the original set. */
  lemma Partition(lines: seq<RawLine>)
    ensures forall l :: l in lines ==>
      (l in OriginalRows(lines, Exclusive) <==> !Credited(l))
    ensures forall l :: l in lines ==> (Reversal(l) in ReversalRows(lines) <== Credited(l))
    ensures forall l :: l in lines ==> l in OriginalRows(lines, Inclusive)
    ensures multiset(OriginalRows(lines, Exclusive)) + multiset(Filter(lines, Credited)) == multiset(lines)
  {
    assert Exclusive.excludeCredited && !Inclusive.excludeCredited;
    ReversalsListed(lines);
    UncreditedAndCredited(lines);
  }

  /** Every credited line's reversal is among the reversal rows. */
  lemma ReversalsListed(lines: seq<RawLine>)
    ensures forall l :: l in lines && Credited(l) ==> Reversal(l) in ReversalRows(lines)
  {
    var c := Filter(lines, Credited);
    forall l | l in lines && Credited(l) ensures Reversal(l) in ReversalRows(lines) {
      var i :| 0 <= i < |c| && c[i] == l;
      assert ReversalRows(lines)[i] == Reversal(l);
    }
  }

  /** The uncredited and the credited lines together are all the lines. */
  lemma UncreditedAndCredited(lines: seq<RawLine>)
    ensures multiset(Filter(lines, Uncredited)) + multiset(Filter(lines, Credited)) == multiset(lines)
  {
    FilterMultiset(lines, Uncredited);
    FilterMultiset(lines, Credited);
    var u, c := Filter(lines, Uncredited), Filter(lines, Credited);
    forall x ensures (multiset(u) + multiset(c))[x] == multiset(lines)[x] {
      assert Uncredited(x) != Credited(x);
    }
  }

  /** Every reversal row comes from a credited line: it is dated on that
      line's credit note, carries its negated `total` and `item_sales`, and
      nothing is due on it. */
  lemma ReversalRowsFacts(lines: seq<RawLine>)
    ensures forall r :: r in ReversalRows(lines) ==>
      exists l :: l in lines && Credited(l) && l.creditnoteDate == Some(r.issuedAt)
        && r.total == -l.total && r.itemSales == -l.itemSales && r.due == 0.0
  {
    var c := Filter(lines, Credited);
    var m := ReversalRows(lines);
    forall r | r in m
      ensures exists l :: (l in lines && Credited(l) && l.creditnoteDate == Some(r.issuedAt)
        && r.total == -l.total && r.itemSales == -l.itemSales && r.due == 0.0)
    {
      var i :| 0 <= i < |m| && m[i] == r;
      assert r == Reversal(c[i]) && c[i] in lines && Credited(c[i]);
    }
  }

  /** Nothing is due on a reversal fact. */
  lemma ReversalFactsNothingDue(lines: seq<RawLine>, agg: Agg)
    ensures forall f :: f in GroupRows(ReversalRows(lines), agg) ==> f.due == 0.0
  {
    var r := GroupRows(ReversalRows(lines), agg);
    forall f | f in r ensures f.due == 0.0 {
      var i :| 0 <= i < |r| && r[i] == f;
      ReversalFactDue(lines, agg, i);
    }
  }

  lemma ReversalFactDue(lines: seq<RawLine>, agg: Agg, i: int)
    requires 0 <= i < |GroupRows(ReversalRows(lines), agg)|
    ensures GroupRows(ReversalRows(lines), agg)[i].due == 0.0
  {
    var rev := ReversalRows(lines);
    GroupRowsAt(rev, agg, i);
    MeanWhereConstant(rev, KeyOf, GroupKeys(rev)[i], Due, 0.0);
  }

  /** A reversal fact's total is the negated mean total of the credited
      lines it reverses, the lines whose reversal carries its key. */
  lemma ReversalTotals(lines: seq<RawLine>, agg: Agg)
    ensures var c := Filter(lines, Credited);
      forall f :: f in GroupRows(ReversalRows(lines), agg) ==>
        CountWhere(c, ReversedKey, f.key) > 0 && f.total == -MeanWhere(c, ReversedKey, f.key, Total)
  {
    var c := Filter(lines, Credited);
    var rev := ReversalRows(lines);
    var r := GroupRows(rev, agg);
    forall f | f in r
      ensures CountWhere(c, ReversedKey, f.key) > 0 && f.total == -MeanWhere(c, ReversedKey, f.key, Total)
    {
      var i :| 0 <= i < |r| && r[i] == f;
      GroupRowsAt(rev, agg, i);
      ReversedGroup(c, f.key);
      MeanWhereNegated(c, ReversedKey, rev, KeyOf, f.key, Total, Total);
    }
  }

  /** The key a line's reversal is grouped under. */
  function ReversedKey(l: RawLine): Key { KeyOf(Reversal(l)) }

  lemma {:induction false} ReversedGroup(c: seq<RawLine>, k: Key)
    ensures CountWhere(Map(c, Reversal), KeyOf, k) == CountWhere(c, ReversedKey, k)
    ensures SumWhere(Map(c, Reversal), KeyOf, k, Total) == -SumWhere(c, ReversedKey, k, Total)
  {
    if c != [] {
      assert Map(c, Reversal)[1..] == Map(c[1..], Reversal);
      ReversedGroup(c[1..], k);
    }
  }

  /** When every row of a group has the same `total` and `due` (the
      invoice-level columns repeated on each line), the mean keeps them. */
  lemma ConstantMean(rows: seq<RawLine>, k: Key, agg: Agg, t: real, d: real)
    requires CountWhere(rows, KeyOf, k) > 0
    requires forall l :: l in rows && KeyOf(l) == k ==> l.total == t && l.due == d
    ensures GroupFact(rows, k, agg).total == t && GroupFact(rows, k, agg).due == d
  {
    MeanWhereConstant(rows, KeyOf, k, Total, t);
    MeanWhereConstant(rows, KeyOf, k, Due, d);
  }

  /** With summed `item_sales`, grouping keeps the column total. */
  lemma GroupRowsSum(rows: seq<RawLine>)
    ensures Sum(GroupRows(rows, SumAgg), FactItemSales) == Sum(rows, ItemSales)
  {
    var ks := GroupKeys(rows);
    var m := Map(rows, KeyOf);
    assert Distinct(ks) by {
      KeyLessOrder();
      SortedDistinctSorted(m, KeyLess);
    }
    GroupKeysNonEmpty(rows);
    FactsForSum(rows, ks);
    forall x | x in rows ensures KeyOf(x) in ks {
      var j :| 0 <= j < |rows| && rows[j] == x;
      assert m[j] == KeyOf(x);
    }
    PartitionSum(ks, rows, KeyOf, ItemSales);
  }

  lemma {:induction false} FactsForSum(rows: seq<RawLine>, ks: seq<Key>)
    requires forall k :: k in ks ==> CountWhere(rows, KeyOf, k) > 0
    ensures Sum(FactsFor(rows, ks, SumAgg), FactItemSales) == SumOverKeys(ks, rows, KeyOf, ItemSales)
  {
    if ks != [] {
      FactsForSum(rows, ks[1..]);
      assert FactsFor(rows, ks, SumAgg)[1..] == FactsFor(rows, ks[1..], SumAgg);
    }
  }

  /** Negating every row negates the column total. */
  lemma {:induction false} ReversalSum(c: seq<RawLine>)
    ensures Sum(Map(c, Reversal), ItemSales) == -Sum(c, ItemSales)
  {
    if c != [] {
      assert Map(c, Reversal)[1..] == Map(c[1..], Reversal);
      ReversalSum(c[1..]);
    }
  }

  /** In the inclusive reconciliation a credited line and its reversal
      cancel: the facts add up to the sales of the uncredited lines. */
  lemma InclusiveNetSales(lines: seq<RawLine>)
    ensures Sum(Reconcile(lines, Inclusive), FactItemSales) == Sum(Filter(lines, Uncredited), ItemSales)
  {
    InclusiveParts(lines);
    ReversalsCancel(lines);
  }

  /** The inclusive facts add up to the lines' sales plus their reversals'. */
  lemma InclusiveParts(lines: seq<RawLine>)
    ensures Sum(Reconcile(lines, Inclusive), FactItemSales)
         == Sum(lines, ItemSales) + Sum(ReversalRows(lines), ItemSales)
  {
    ReconcileSum(lines, Inclusive);
    assert Inclusive.itemSalesAgg == SumAgg && OriginalRows(lines, Inclusive) == lines;
    GroupRowsSum(lines);
    GroupRowsSum(ReversalRows(lines));
  }

  /** The concatenated frame's `item_sales` total is the two parts' totals. */
  lemma ReconcileSum(lines: seq<RawLine>, v: Variant)
    ensures Sum(Reconcile(lines, v), FactItemSales)
         == Sum(GroupRows(OriginalRows(lines, v), v.itemSalesAgg), FactItemSales)
          + Sum(GroupRows(ReversalRows(lines), v.itemSalesAgg), FactItemSales)
  {
    SumAppend(GroupRows(OriginalRows(lines, v), v.itemSalesAgg), GroupRows(ReversalRows(lines), v.itemSalesAgg), FactItemSales);
  }

  /** Each credited line's reversal cancels it, leaving the uncredited sales. */
  lemma ReversalsCancel(lines: seq<RawLine>)
    ensures Sum(lines, ItemSales) + Sum(ReversalRows(lines), ItemSales)
         == Sum(Filter(lines, Uncredited), ItemSales)
  {
    ReversalSum(Filter(lines, Credited));
    assert forall x :: Credited(x) == !Uncredited(x);
    SumFilterSplit(lines, Uncredited, Credited, ItemSales);
  }
}

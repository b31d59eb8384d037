/** The overview page's recomputation of `item_sales` (app.py): an invoice's
    extra discount is spread over its lines in proportion to their unit
    prices, reading the discount and the subtotal from the invoice's first
    line, and each line's sales become its discounted unit price times its
    quantity. The columns are rewritten in place. */
module Discount {
  import opened Common
  import opened Seqs
  import opened Calendar
  import opened Records

  /** A line's undiscounted amount, `item_unitprice * item_quantity`. */
  function GrossAmount(l: RawLine): real { l.unitPrice * l.quantity }

  function LineSales(l: RawLine): real { l.itemSales }

  /** The position of the first line of invoice `inv` (`.iloc[0]` of its group). */
  function FirstRowOf(lines: seq<RawLine>, inv: string): (r: Option<nat>)
    ensures r.Some? ==> r.value < |lines| && lines[r.value].invoiceNumber == inv
    ensures r.Some? ==> forall j :: 0 <= j < r.value ==> lines[j].invoiceNumber != inv
    ensures r.None? ==> forall j :: 0 <= j < |lines| ==> lines[j].invoiceNumber != inv
  {
    if lines == [] then None
    else if lines[0].invoiceNumber == inv then Some(0)
    else
      match FirstRowOf(lines[1..], inv)
      case None => None
      case Some(i) => Some(i + 1)
  }

  /** Line `i` is the first line of its invoice. */
  predicate IsFirstRow(lines: seq<RawLine>, i: nat)
    requires i < |lines|
  {
    FirstRowOf(lines, lines[i].invoiceNumber) == Some(i)
  }

  /** The position of the first line of line `i`'s invoice. */
  function FirstOf(lines: seq<RawLine>, i: nat): (k: nat)
    requires i < |lines|
    ensures k <= i && lines[k].invoiceNumber == lines[i].invoiceNumber
    ensures FirstRowOf(lines, lines[i].invoiceNumber) == Some(k)
    ensures IsFirstRow(lines, k)
  {
    FirstRowOf(lines, lines[i].invoiceNumber).value
  }

  /** The first line of every invoice has a non-zero subtotal, so the
      division by it is defined. */
  predicate FirstSubtotalsNonZero(lines: seq<RawLine>) {
    forall i {:trigger IsFirstRow(lines, i)} :: 0 <= i < |lines| && IsFirstRow(lines, i) ==> lines[i].subtotal != 0.0
  }

  /** `item_unitprice - extra_discount * item_unitprice / subtotal`. */
  function RealUnitPrice(price: real, discount: real, subtotal: real): real
    requires subtotal != 0.0
  {
    price - discount * price / subtotal
  }

  /** The recomputed `item_sales` of line `i`: its undiscounted amount
      scaled by the share its invoice's first line keeps, `1 - d/s`. */
  function DiscountedSales(lines: seq<RawLine>, i: nat): (r: real)
    requires i < |lines|
    requires FirstSubtotalsNonZero(lines)
    ensures lines[FirstOf(lines, i)].subtotal != 0.0
    ensures r == KeptShare(lines[FirstOf(lines, i)]) * GrossAmount(lines[i])
  {
    var first := FirstOf(lines, i);
    PriceScaling(lines[i].unitPrice, lines[i].quantity, lines[first].extraDiscount, lines[first].subtotal);
    RealUnitPrice(lines[i].unitPrice, lines[first].extraDiscount, lines[first].subtotal)
      * lines[i].quantity
  }

  /** The frame after app.py:39-45: every line keeps its columns except
      `item_sales`. */
  function WithDiscountedSales(lines: seq<RawLine>): (r: seq<RawLine>)
    requires FirstSubtotalsNonZero(lines)
    ensures |r| == |lines|
    ensures forall i :: 0 <= i < |r| ==> r[i] == lines[i].(itemSales := DiscountedSales(lines, i))
  {
    seq(|lines|, i requires 0 <= i < |lines| => lines[i].(itemSales := DiscountedSales(lines, i)))
  }

  /** Rewrites the `item_sales` column of the frame in place. */
  method ApplyDiscounts(a: array<RawLine>)
    requires FirstSubtotalsNonZero(a[..])
    modifies a
    ensures a[..] == WithDiscountedSales(old(a[..]))
  {
    var orig := a[..];
    for i := 0 to a.Length
      invariant forall k :: 0 <= k < i ==> a[k] == orig[k].(itemSales := DiscountedSales(orig, k))
      invariant forall k :: i <= k < a.Length ==> a[k] == orig[k]
    {
      a[i] := a[i].(itemSales := DiscountedSales(orig, i));
    }
  }

  /** The share of the undiscounted amount an invoice keeps, `1 - d/s`. */
  function KeptShare(first: RawLine): real
    requires first.subtotal != 0.0
  {
    1.0 - first.extraDiscount / first.subtotal
  }

  lemma PriceScaling(p: real, q: real, d: real, s: real)
    requires s != 0.0
    ensures RealUnitPrice(p, d, s) * q == (1.0 - d / s) * (p * q)
  {
    var f := d / s;
    assert f * s == d;
    assert (f * p) * s == d * p;
    assert d * p / s == f * p;
    assert (p - f * p) * q == (1.0 - f) * (p * q);
  }

  /** Unit prices 100 and 300 on one invoice with subtotal 400 and extra
      discount 40 become 90 and 270. */
  lemma DiscountExample()
    ensures var day: Date := CivilDate(2024, 3, 1);
      var l1 := RawLine("F-1", day, None, "ANA", "CLINICA", NitText("1"), "A", "C", 100.0, 1.0, 400.0, 40.0, 360.0, 0.0, 0.0);
      var l2 := l1.(itemName := "B", unitPrice := 300.0);
      var r := WithDiscountedSales([l1, l2]);
      r[0].itemSales == 90.0 && r[1].itemSales == 270.0
  {
    var day: Date := CivilDate(2024, 3, 1);
    var l1 := RawLine("F-1", day, None, "ANA", "CLINICA", NitText("1"), "A", "C", 100.0, 1.0, 400.0, 40.0, 360.0, 0.0, 0.0);
    var l2 := l1.(itemName := "B", unitPrice := 300.0);
    var lines := [l1, l2];
    assert FirstRowOf(lines, "F-1") == Some(0);
    assert DiscountedSales(lines, 0) == 90.0;
    assert DiscountedSales(lines, 1) == 270.0;
  }
}

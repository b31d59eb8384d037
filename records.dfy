/** The rows of the `/sales/details` feed and the facts the dashboards derive
    from them. A raw line is one invoice line; a fact is one row of the
    reconciled frame, identified by the six columns every `groupby` uses. */
module Records {
  import opened Common
  import opened Strings
  import opened Calendar
  import opened Ordering

  /** `payee_nit` as it arrives from JSON: a text or a number. The pages
      compare it both with the text '105272981' and with the number
      105272981, so the model keeps the two apart. */
  datatype Nit = NitText(text: string) | NitNumber(number: int)

  /** One line of one invoice, as the feed delivers it. `itemSales` is the
      feed's own `item_sales`; the overview page recomputes it. The invoice
      number is taken to arrive as text, so groups order by its text. */
  datatype RawLine = RawLine(
    invoiceNumber: string,
    issuedAt: Date,
    creditnoteDate: Option<Date>,
    sellerName: string,
    payeeName: string,
    payeeNit: Nit,
    itemName: string,
    itemCategory: string,
    unitPrice: real,
    quantity: real,
    subtotal: real,
    extraDiscount: real,
    total: real,
    due: real,
    itemSales: real)

  /** The six `groupby` columns of the reconciliation. */
  datatype Key = Key(
    issuedAt: Date,
    invoiceNumber: string,
    sellerName: string,
    payeeName: string,
    payeeNit: Nit,
    itemName: string)

  /** One row of the reconciled frame. */
  datatype Fact = Fact(key: Key, total: real, due: real, itemSales: real)

  function InvoiceOf(l: RawLine): string { l.invoiceNumber }

  function IssuedAt(l: RawLine): Date { l.issuedAt }

  function KeyOf(l: RawLine): (k: Key)
    ensures k.issuedAt == l.issuedAt && k.invoiceNumber == l.invoiceNumber
    ensures k.sellerName == l.sellerName && k.payeeName == l.payeeName
    ensures k.payeeNit == l.payeeNit && k.itemName == l.itemName
  {
    Key(l.issuedAt, l.invoiceNumber, l.sellerName, l.payeeName, l.payeeNit, l.itemName)
  }

  // ---------------------------------------------------------------------
  // The order of groups

  /** How pandas orders a column holding both numbers and texts when it
      sorts group keys: numbers first, by value, then texts. */
  predicate NitLess(a: Nit, b: Nit) {
    match (a, b)
    case (NitNumber(x), NitNumber(y)) => x < y
    case (NitNumber(_), NitText(_)) => true
    case (NitText(_), NitNumber(_)) => false
    case (NitText(x), NitText(y)) => StrLess(x, y)
  }

  /** The order of the groups of a six-column `groupby`: column by column. */
  predicate KeyLess(a: Key, b: Key) {
    || DateLess(a.issuedAt, b.issuedAt)
    || (a.issuedAt == b.issuedAt && StrLess(a.invoiceNumber, b.invoiceNumber))
    || (a.issuedAt == b.issuedAt && a.invoiceNumber == b.invoiceNumber
        && StrLess(a.sellerName, b.sellerName))
    || (a.issuedAt == b.issuedAt && a.invoiceNumber == b.invoiceNumber
        && a.sellerName == b.sellerName && StrLess(a.payeeName, b.payeeName))
    || (a.issuedAt == b.issuedAt && a.invoiceNumber == b.invoiceNumber
        && a.sellerName == b.sellerName && a.payeeName == b.payeeName
        && NitLess(a.payeeNit, b.payeeNit))
    || (a.issuedAt == b.issuedAt && a.invoiceNumber == b.invoiceNumber
        && a.sellerName == b.sellerName && a.payeeName == b.payeeName
        && a.payeeNit == b.payeeNit && StrLess(a.itemName, b.itemName))
  }

  lemma StrLessFacts()
    ensures forall a: string :: !StrLess(a, a)
    ensures forall a: string, b: string, c: string :: StrLess(a, b) && StrLess(b, c) ==> StrLess(a, c)
    ensures forall a: string, b: string :: a != b ==> StrLess(a, b) || StrLess(b, a)
  {
    forall a: string ensures !StrLess(a, a) {
      StrLessIrreflexive(a);
    }
    forall a: string, b: string, c: string | StrLess(a, b) && StrLess(b, c) ensures StrLess(a, c) {
      StrLessTransitive(a, b, c);
    }
    forall a: string, b: string ensures a == b || StrLess(a, b) || StrLess(b, a) {
      StrLessTotal(a, b);
    }
  }

  /** Text order is a strict total order. */
  lemma StrLessOrder()
    ensures StrictTotalOrder(StrLess)
  {
    StrLessFacts();
  }

  lemma DateLessOrder()
    ensures StrictTotalOrder(DateLess)
  {
  }

  lemma NitLessOrder()
    ensures StrictTotalOrder(NitLess)
  {
    StrLessFacts();
  }

  /** The group order is a strict total order, so every set of keys has one
      sorted listing. */
  lemma KeyLessOrder()
    ensures StrictTotalOrder(KeyLess)
  {
    StrLessFacts();
    NitLessOrder();
    forall a: Key, b: Key, c: Key | KeyLess(a, b) && KeyLess(b, c) ensures KeyLess(a, c) {
    }
    forall a: Key, b: Key | a != b ensures KeyLess(a, b) || KeyLess(b, a) {
    }
  }

  // ---------------------------------------------------------------------
  // The latest date

  /** `max()` of a column of dates. */
  function Latest(ds: seq<Date>): (r: Date)
    requires ds != []
    ensures r in ds
    ensures forall d :: d in ds ==> DateLe(d, r)
  {
    if |ds| == 1 then ds[0]
    else
      var rest := Latest(ds[1..]);
      assert forall d :: d in ds ==> d == ds[0] || d in ds[1..] by {
        assert ds == [ds[0]] + ds[1..];
      }
      DateLessOrder();
      if DateLess(ds[0], rest) then rest else ds[0]
  }
}

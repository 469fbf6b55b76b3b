/**
 * The figures an order document shows: total pairs, BTW (Dutch VAT) at 21%,
 * the tax-inclusive total, the document number `F{year}-{order number}`, the
 * invoice due day and the numbering of the product cards. The invoice and the
 * order confirmation derive the same figures from the same order.
 *
 * Money is in integer cents; the tax is exact (a real number of cents). Dates
 * are abstract: the creation year and an absolute day number.
 */
module Documents {
  import opened Wrappers
  import opened Text
  import opened Seqs
  import opened Grouping
  import opened GroupingFacts

  /** A stored order, reduced to the fields the documents compute with. */
  datatype Order = Order(
    id: string,
    orderNumber: int,
    status: string,
    totalPrice: int,   // cents, excluding BTW
    companyName: string,
    contactName: string,
    createdYear: nat,  // `new Date(created_at).getFullYear()`
    createdDay: int)   // the creation date as a day number

  /** Payment term of an invoice, in days. */
  const PaymentTermDays: int := 14

  // ---------------------------------------------------------------------------
  // Tax.
  // ---------------------------------------------------------------------------

  /** `subtotal * 0.21`, exactly. */
  function Btw(subtotal: real): (btw: real)
    ensures subtotal >= 0.0 ==> 0.0 <= btw <= subtotal
    ensures btw * 100.0 == subtotal * 21.0
  {
    subtotal * 21.0 / 100.0
  }

  /** `subtotal + btw`. */
  function TotalIncl(subtotal: real): (total: real)
    ensures total == subtotal * 121.0 / 100.0
    ensures total - subtotal == Btw(subtotal)
  {
    subtotal + Btw(subtotal)
  }

  // ---------------------------------------------------------------------------
  // Document number.
  // ---------------------------------------------------------------------------

  /** JavaScript's `String(n)` for an integer. */
  function IntToString(n: int): (s: string)
    ensures n >= 0 ==> AllDigits(s) && DigitsValue(s) == n
    ensures n < 0 ==> |s| >= 2 && s[0] == '-' && AllDigits(s[1..]) && DigitsValue(s[1..]) == -n
  {
    if n >= 0 then
      NatToStringValue(n);
      NatToString(n)
    else
      NatToStringValue(-n);
      assert ("-" + NatToString(-n))[1..] == NatToString(-n);
      "-" + NatToString(-n)
  }

  /** `` `F${year}-${String(orderNumber).padStart(3, "0")}` ``. */
  function DocumentNumber(year: nat, orderNumber: int): string
  {
    "F" + NatToString(year) + "-" + PadStart(IntToString(orderNumber), 3, '0')
  }

  /** Reads a document number back into its year and order number. */
  function ParseDocumentNumber(s: string): Option<(nat, nat)>
  {
    if |s| == 0 || s[0] != 'F' then None
    else
      match IndexOf(s[1..], '-')
      case None => None
      case Some(j) =>
        var year, num := s[1..j + 1], s[j + 2..];
        if |year| >= 1 && AllDigits(year) && |num| >= 1 && AllDigits(num)
        then Some((DigitsValue(year), DigitsValue(num)))
        else None
  }

  /**
   * The number part is the order number left-padded with zeros to at least
   * three characters, never truncated, and its digits read back as the order
   * number.
   */
  lemma PaddedNumber(n: nat)
    ensures var p := PadStart(IntToString(n), 3, '0');
      && |p| == (if |NatToString(n)| >= 3 then |NatToString(n)| else 3)
      && p[|p| - |NatToString(n)|..] == NatToString(n)
      && AllDigits(p) && DigitsValue(p) == n
  {
    var s := NatToString(n);
    NatToStringValue(n);
    if |s| < 3 {
      LeadingZerosValue(3 - |s|, s);
    }
  }

  /** A document number names its year and order number unambiguously. */
  lemma DocumentNumberRoundTrip(year: nat, n: nat)
    ensures ParseDocumentNumber(DocumentNumber(year, n)) == Some((year, n))
  {
    var y, p := NatToString(year), PadStart(IntToString(n), 3, '0');
    var s := DocumentNumber(year, n);
    PaddedNumber(n);
    NatToStringValue(year);
    assert s[1..] == y + "-" + p;
    IndexOfAfterDigits(y, p);
    assert s[1..|y| + 1] == y;
    assert s[|y| + 2..] == p;
  }

  /** In a string of digits followed by a dash, the first dash is the one after the digits. */
  lemma {:induction false} IndexOfAfterDigits(y: string, rest: string)
    requires AllDigits(y)
    ensures IndexOf(y + "-" + rest, '-') == Some(|y|)
  {
    if y != [] {
      assert (y + "-" + rest)[1..] == y[1..] + "-" + rest;
      IndexOfAfterDigits(y[1..], rest);
    }
  }

  /** Different orders (by year or number) never share a document number. */
  lemma DocumentNumberInjective(y1: nat, n1: nat, y2: nat, n2: nat)
    requires DocumentNumber(y1, n1) == DocumentNumber(y2, n2)
    ensures y1 == y2 && n1 == n2
  {
    DocumentNumberRoundTrip(y1, n1);
    DocumentNumberRoundTrip(y2, n2);
  }

  lemma DocumentNumberExamples()
    ensures DocumentNumber(2025, 7) == "F2025-007"
    ensures DocumentNumber(2025, 1234) == "F2025-1234"
  {
    Decimal2025();
    Decimal1234();
    assert NatToString(7) == "7";
    assert Repeat('0', 2) == "00";
  }

  lemma Decimal2025()
    ensures NatToString(2025) == "2025"
  {
    assert NatToString(2) == "2";
    assert NatToString(20) == NatToString(2) + "0";
    assert NatToString(202) == NatToString(20) + "2";
    assert NatToString(2025) == NatToString(202) + "5";
  }

  lemma Decimal1234()
    ensures NatToString(1234) == "1234"
  {
    assert NatToString(1) == "1";
    assert NatToString(12) == NatToString(1) + "2";
    assert NatToString(123) == NatToString(12) + "3";
    assert NatToString(1234) == NatToString(123) + "4";
  }

  // ---------------------------------------------------------------------------
  // Cards and views.
  // ---------------------------------------------------------------------------

  /** A product card together with its 1-based position on the document. */
  datatype NumberedCard = NumberedCard(index: nat, product: GroupedProduct)

  /** `grouped.map((product, i) => <ProductCard product={product} index={i + 1} />)`. */
  function NumberCards(gs: seq<GroupedProduct>): (cards: seq<NumberedCard>)
    ensures |cards| == |gs|
    ensures forall i :: 0 <= i < |gs| ==> cards[i] == NumberedCard(i + 1, gs[i])
  {
    if gs == [] then [] else NumberCards(gs[..|gs| - 1]) + [NumberedCard(|gs|, gs[|gs| - 1])]
  }

  /** `grouped.reduce((sum, g) => sum + g.totalPcs, 0)`. */
  function TotalPairs(gs: seq<GroupedProduct>): int
  {
    SumBy(CardPcs, gs)
  }

  /** The figures of an invoice. */
  datatype InvoiceView = InvoiceView(
    number: string,
    totalPairs: int,
    subtotal: real,
    btw: real,
    totalIncl: real,
    dueDay: int,
    cards: seq<NumberedCard>,
    paymentReference: string,
    amountDue: real,
    footerReference: string)

  /** The figures of an order confirmation. */
  datatype ConfirmationView = ConfirmationView(
    number: string,
    totalPairs: int,
    subtotal: real,
    btw: real,
    totalIncl: real,
    cards: seq<NumberedCard>)

  /** The `Invoice` component's derived values. */
  function Invoice(order: Order, items: seq<OrderItem>): (v: InvoiceView)
    ensures v.number == DocumentNumber(order.createdYear, order.orderNumber)
    ensures v.paymentReference == v.number && v.footerReference == v.number
    ensures v.totalPairs == SumQty(items)
    ensures v.subtotal == order.totalPrice as real
    ensures v.btw * 100.0 == v.subtotal * 21.0
    ensures v.amountDue == v.totalIncl == v.subtotal + v.btw
    ensures v.dueDay - order.createdDay == PaymentTermDays
    ensures |v.cards| == |Grouped(items)|
    ensures forall i :: 0 <= i < |v.cards| ==> v.cards[i].index == i + 1 && v.cards[i].product == Grouped(items)[i]
  {
    GroupedPieces(items);
    var grouped := Grouped(items);
    var subtotal := order.totalPrice as real;
    var number := DocumentNumber(order.createdYear, order.orderNumber);
    InvoiceView(number, TotalPairs(grouped), subtotal, Btw(subtotal), TotalIncl(subtotal),
                DueDay(order.createdDay), NumberCards(grouped), number, TotalIncl(subtotal), number)
  }

  /** The `OrderConfirmation` component's derived values. */
  function Confirmation(order: Order, items: seq<OrderItem>): (v: ConfirmationView)
    ensures v.number == DocumentNumber(order.createdYear, order.orderNumber)
    ensures v.totalPairs == SumQty(items)
    ensures v.subtotal == order.totalPrice as real
    ensures v.btw * 100.0 == v.subtotal * 21.0
    ensures v.totalIncl == v.subtotal + v.btw
    ensures |v.cards| == |Grouped(items)|
    ensures forall i :: 0 <= i < |v.cards| ==> v.cards[i].index == i + 1 && v.cards[i].product == Grouped(items)[i]
  {
    GroupedPieces(items);
    var grouped := Grouped(items);
    var subtotal := order.totalPrice as real;
    ConfirmationView(DocumentNumber(order.createdYear, order.orderNumber), TotalPairs(grouped),
                     subtotal, Btw(subtotal), TotalIncl(subtotal), NumberCards(grouped))
  }

  /** `getDueDate`: the creation day plus the payment term. */
  function DueDay(createdDay: int): (due: int)
    ensures due > createdDay
    ensures due - createdDay == PaymentTermDays
  {
    createdDay + PaymentTermDays
  }

  /** Both documents of one order show the same number, totals and cards. */
  lemma DocumentsAgree(order: Order, items: seq<OrderItem>)
    ensures var inv, conf := Invoice(order, items), Confirmation(order, items);
      && inv.number == conf.number
      && inv.totalPairs == conf.totalPairs
      && inv.subtotal == conf.subtotal && inv.btw == conf.btw && inv.totalIncl == conf.totalIncl
      && inv.cards == conf.cards
  {
    var inv, conf := Invoice(order, items), Confirmation(order, items);
    assert inv.cards == conf.cards;
  }
}

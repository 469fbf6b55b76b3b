/**
 * The cart panel: the minimum-order gate, the shortfall warning, the ± buttons
 * of a line and placing the order as a draft order. Money is integer cents,
 * so the minimum of 250 euros is 25000.
 */
module CartPanel {
  import opened Wrappers
  import opened Seqs
  import opened Cart

  /** `MINIMUM_ORDER_VALUE`, in cents. */
  const MinimumOrderValue: int := 25000

  /** `meetsMinimum`: the gate is inclusive. */
  predicate MeetsMinimum(total: int)
  {
    total >= MinimumOrderValue
  }

  /**
   * The amount still missing, as the warning shows it. The warning sits in
   * the footer, which is drawn only while the cart has lines, so an empty
   * cart shows no warning although its total is below the minimum.
   */
  function Shortfall(lineCount: nat, total: int): (r: Option<int>)
    ensures r.Some? <==> lineCount > 0 && !MeetsMinimum(total)
    ensures r.Some? ==> r.value > 0 && total + r.value == MinimumOrderValue
  {
    if lineCount == 0 || MeetsMinimum(total) then None else Some(MinimumOrderValue - total)
  }

  lemma ShortfallExamples()
    ensures MeetsMinimum(25000) && Shortfall(1, 25000) == None
    ensures MeetsMinimum(26000) && Shortfall(2, 26000) == None
    ensures !MeetsMinimum(24999) && Shortfall(1, 24999) == Some(1)
    ensures !MeetsMinimum(10000) && Shortfall(1, 10000) == Some(15000)
    ensures !MeetsMinimum(0) && Shortfall(0, 0) == None
  {
  }

  /**
   * A cart of one piece at 100 euros and two at 80 euros totals 260 euros and
   * may be ordered; without the second line it totals 100 euros, 150 short.
   */
  lemma CartGateExample()
    ensures var p := Product("p", "Runner X", "RX-1", "", 0, 10000, 0, "shoes");
      var q := Product("q", "Court Y", "CY-1", "", 0, 8000, 0, "shoes");
      var items := [CartItem(p, 1), CartItem(q, 2)];
      && PriceSum(items) == 26000 && MeetsMinimum(PriceSum(items))
      && Removed(items, "q") == [CartItem(p, 1)]
      && PriceSum(Removed(items, "q")) == 10000 && Shortfall(|Removed(items, "q")|, PriceSum(Removed(items, "q"))) == Some(15000)
  {
    var p := Product("p", "Runner X", "RX-1", "", 0, 10000, 0, "shoes");
    var q := Product("q", "Court Y", "CY-1", "", 0, 8000, 0, "shoes");
    var items := [CartItem(p, 1), CartItem(q, 2)];
    assert items[..1] == [CartItem(p, 1)];
    assert [CartItem(p, 1)][..0] == [];
    assert PriceSum([CartItem(p, 1)]) == 10000;
    assert PriceSum(items) == 10000 + 8000 * 2;
    assert Removed(items, "q") == Removed([CartItem(p, 1)], "q");
    assert Removed([CartItem(p, 1)], "q") == Removed([], "q") + [CartItem(p, 1)];
  }

  /** A draft-order line: `{ productId, quantity }`. */
  datatype LineItem = LineItem(productId: string, quantity: int)

  function ToLineItem(item: CartItem): LineItem
  {
    LineItem(item.product.id, item.quantity)
  }

  /** `items.map(item => ({ productId: item.product.id, quantity: item.quantity }))`. */
  function LineItems(items: seq<CartItem>): (lines: seq<LineItem>)
    ensures |lines| == |items|
    ensures forall i :: 0 <= i < |items| ==>
      lines[i].productId == items[i].product.id && lines[i].quantity == items[i].quantity
  {
    if items == [] then [] else LineItems(items[..|items| - 1]) + [ToLineItem(items[|items| - 1])]
  }

  function LineQuantity(line: LineItem): int { line.quantity }

  /** The draft order asks for exactly the pieces in the cart. */
  lemma {:induction false} LineItemsQuantity(items: seq<CartItem>)
    ensures SumBy(LineQuantity, LineItems(items)) == QuantitySum(items)
  {
    if items != [] {
      var p, lines := items[..|items| - 1], LineItems(items);
      LineItemsQuantity(p);
      assert lines[..|lines| - 1] == LineItems(p);
    }
  }

  /** With unique ids in the cart, the draft order has one line per product. */
  lemma LineItemsDistinct(items: seq<CartItem>)
    requires UniqueIds(items)
    ensures Distinct(ProductIds(LineItems(items)))
  {
    var ids := ProductIds(LineItems(items));
    forall i, j | 0 <= i < j < |ids|
      ensures ids[i] != ids[j]
    {
      assert ids[i] == items[i].product.id && ids[j] == items[j].product.id;
    }
  }

  function ProductIds(lines: seq<LineItem>): (ids: seq<string>)
    ensures |ids| == |lines|
    ensures forall i :: 0 <= i < |lines| ==> ids[i] == lines[i].productId
  {
    seq(|lines|, i requires 0 <= i < |lines| => lines[i].productId)
  }

  /** What `createDraftOrder` does: resolve with the draft's name, or throw. */
  datatype DraftOutcome = Created(name: string) | Failed

  /**
   * `handlePlaceOrder`. Below the minimum nothing is submitted and nothing
   * changes. Otherwise the cart's lines are submitted; a created draft clears
   * the cart and closes the panel, a failed one leaves both as they were.
   * `outcome` stands for what the awaited `createDraftOrder` call ends in.
   */
  method PlaceOrder(cart: CartStore, outcome: DraftOutcome) returns (submitted: Option<seq<LineItem>>)
    modifies cart
    ensures !MeetsMinimum(old(cart.TotalPrice())) ==>
      submitted == None && cart.items == old(cart.items) && cart.isOpen == old(cart.isOpen)
    ensures MeetsMinimum(old(cart.TotalPrice())) ==> submitted == Some(LineItems(old(cart.items)))
    ensures MeetsMinimum(old(cart.TotalPrice())) && outcome.Created? ==> cart.items == [] && !cart.isOpen
    ensures outcome.Failed? ==> cart.items == old(cart.items) && cart.isOpen == old(cart.isOpen)
  {
    if !MeetsMinimum(cart.TotalPrice()) {
      return None;
    }
    var lineItems := LineItems(cart.items);
    submitted := Some(lineItems);
    match outcome
    case Created(_) =>
      cart.ClearCart();
      cart.SetCartOpen(false);
    case Failed =>
  }

  /** The minus button: ask for one fewer; at quantity 1 or less the line goes. */
  method Minus(cart: CartStore, item: CartItem)
    modifies cart
    ensures item.quantity <= 1 ==> cart.items == Removed(old(cart.items), item.product.id)
    ensures item.quantity > 1 ==> cart.items == WithQuantity(old(cart.items), item.product.id, item.quantity - 1)
    ensures cart.isOpen == old(cart.isOpen)
    ensures old(cart.Valid()) ==> cart.Valid()
  {
    cart.UpdateQuantity(item.product.id, item.quantity - 1);
  }

  /** The plus button: ask for one more, with no upper bound. */
  method Plus(cart: CartStore, item: CartItem)
    modifies cart
    ensures item.quantity >= 0 ==> cart.items == WithQuantity(old(cart.items), item.product.id, item.quantity + 1)
    ensures item.quantity < 0 ==> cart.items == Removed(old(cart.items), item.product.id)
    ensures cart.isOpen == old(cart.isOpen)
    ensures old(cart.Valid()) ==> cart.Valid()
  {
    cart.UpdateQuantity(item.product.id, item.quantity + 1);
  }

  /** For a line of the cart (ids unique) at one piece, the minus button takes the line away. */
  lemma MinusLastPiece(items: seq<CartItem>, k: nat)
    requires UniqueIds(items) && k < |items| && items[k].quantity == 1
    ensures var r := Removed(items, items[k].product.id);
      && QuantitySum(r) == QuantitySum(items) - 1
      && PriceSum(r) == PriceSum(items) - items[k].product.wholesalePrice
  {
    RemovedTotals(items, items[k].product.id, k);
  }

  /** For a line of the cart (ids unique) above one piece, the minus button takes one piece off. */
  lemma MinusOnePiece(items: seq<CartItem>, k: nat)
    requires UniqueIds(items) && k < |items| && items[k].quantity > 1
    ensures var r := WithQuantity(items, items[k].product.id, items[k].quantity - 1);
      && QuantitySum(r) == QuantitySum(items) - 1
      && PriceSum(r) == PriceSum(items) - items[k].product.wholesalePrice
  {
    var p, q := items[k].product.wholesalePrice, items[k].quantity;
    WithQuantityTotals(items, items[k].product.id, q - 1, k);
    assert p * (q - 1 - q) == -p;
  }

  /** For a line of the cart (ids unique), the plus button adds one piece and one unit price. */
  lemma PlusTotals(items: seq<CartItem>, k: nat)
    requires UniqueIds(items) && k < |items| && items[k].quantity >= 0
    ensures var r := WithQuantity(items, items[k].product.id, items[k].quantity + 1);
      && QuantitySum(r) == QuantitySum(items) + 1
      && PriceSum(r) == PriceSum(items) + items[k].product.wholesalePrice
  {
    var p, q := items[k].product.wholesalePrice, items[k].quantity;
    WithQuantityTotals(items, items[k].product.id, q + 1, k);
    assert p * (q + 1 - q) == p * 1 == p;
  }

  /** Each line's amount is its unit price times its quantity, and the total adds them up. */
  lemma LineAmountsMakeTotal(items: seq<CartItem>)
    ensures forall i :: 0 <= i < |items| ==> LineAmount(items[i]) == items[i].product.wholesalePrice * items[i].quantity
    ensures PriceSum(items) == SumBy(LineAmount, items)
  {
    TotalsAreSums(items);
  }
}

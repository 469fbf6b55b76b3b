/**
 * The shopping cart store: a list of `{ product, quantity }` lines keyed by
 * the product id, and whether the cart panel is open. Every action replaces
 * the list with a new one built by `map`, `filter` or an append.
 *
 * Prices are integer cents.
 */
module Cart {
  import opened Wrappers
  import opened Seqs

  /** A catalogue product. */
  datatype Product = Product(
    id: string,
    title: string,
    sku: string,
    image: string,
    retailPrice: int,
    wholesalePrice: int,
    inventory: int,
    category: string)

  datatype CartItem = CartItem(product: Product, quantity: int)

  function Id(item: CartItem): string { item.product.id }

  /** The product ids of the lines, in order. */
  function Ids(items: seq<CartItem>): (ids: seq<string>)
    ensures |ids| == |items|
    ensures forall i :: 0 <= i < |items| ==> ids[i] == items[i].product.id
  {
    if items == [] then [] else Ids(items[..|items| - 1]) + [items[|items| - 1].product.id]
  }

  /** No two lines share a product id. */
  predicate UniqueIds(items: seq<CartItem>)
  {
    forall i, j :: 0 <= i < j < |items| ==> items[i].product.id != items[j].product.id
  }

  /** `items.find(i => i.product.id === id)`, as the index of the line found. */
  function FindIndex(items: seq<CartItem>, id: string): (r: Option<nat>)
    ensures r.Some? ==> r.value < |items| && items[r.value].product.id == id
                        && forall j :: 0 <= j < r.value ==> items[j].product.id != id
    ensures r.None? ==> forall j :: 0 <= j < |items| ==> items[j].product.id != id
  {
    if items == [] then None
    else if items[0].product.id == id then Some(0)
    else match FindIndex(items[1..], id)
      case None => None
      case Some(k) => Some(k + 1)
  }

  // ---------------------------------------------------------------------------
  // The lists the actions build.
  // ---------------------------------------------------------------------------

  /** `items.map(i => i.product.id === id ? { ...i, quantity: f(i.quantity) } : i)` for `f` adding `delta`. */
  function Bumped(items: seq<CartItem>, id: string, delta: int): (r: seq<CartItem>)
    ensures |r| == |items|
    ensures forall i :: 0 <= i < |items| ==>
      r[i] == if items[i].product.id == id then items[i].(quantity := items[i].quantity + delta) else items[i]
  {
    if items == [] then []
    else
      var last := items[|items| - 1];
      Bumped(items[..|items| - 1], id, delta) + [if last.product.id == id then last.(quantity := last.quantity + delta) else last]
  }

  /** `items.map(i => i.product.id === id ? { ...i, quantity } : i)`. */
  function WithQuantity(items: seq<CartItem>, id: string, quantity: int): (r: seq<CartItem>)
    ensures |r| == |items|
    ensures Ids(r) == Ids(items)
    ensures forall i :: 0 <= i < |items| ==>
      r[i].product == items[i].product
      && r[i].quantity == if items[i].product.id == id then quantity else items[i].quantity
  {
    if items == [] then []
    else
      var p, last := items[..|items| - 1], items[|items| - 1];
      var r := WithQuantity(p, id, quantity) + [if last.product.id == id then last.(quantity := quantity) else last];
      assert forall i :: 0 <= i < |r| ==> Ids(r)[i] == Ids(items)[i];
      r
  }

  /** `items.filter(i => i.product.id !== id)`. */
  function Removed(items: seq<CartItem>, id: string): (r: seq<CartItem>)
    ensures forall i :: 0 <= i < |r| ==> r[i].product.id != id && r[i] in items
    ensures forall i :: 0 <= i < |items| && items[i].product.id != id ==> items[i] in r
    ensures (forall j :: 0 <= j < |items| ==> items[j].product.id != id) ==> r == items
  {
    if items == [] then []
    else
      var last := items[|items| - 1];
      Removed(items[..|items| - 1], id) + if last.product.id == id then [] else [last]
  }

  /** The list `addItem(product, quantity)` sets: merge into the line with that id, else append. */
  function Added(items: seq<CartItem>, product: Product, quantity: int): (r: seq<CartItem>)
    ensures FindIndex(items, product.id).None? ==> r == items + [CartItem(product, quantity)]
    ensures FindIndex(items, product.id).Some? ==> |r| == |items| && Ids(r) == Ids(items)
  {
    if FindIndex(items, product.id).Some? then Bumped(items, product.id, quantity)
    else items + [CartItem(product, quantity)]
  }

  // ---------------------------------------------------------------------------
  // Totals.
  // ---------------------------------------------------------------------------

  function Quantity(item: CartItem): int { item.quantity }

  /** What a line costs: `wholesalePrice * quantity`. */
  function LineAmount(item: CartItem): int { item.product.wholesalePrice * item.quantity }

  /** `items.reduce((sum, item) => sum + item.product.wholesalePrice * item.quantity, 0)`. */
  function PriceSum(items: seq<CartItem>): (total: int)
    ensures (forall i :: 0 <= i < |items| ==> items[i].product.wholesalePrice >= 0 && items[i].quantity >= 0) ==> total >= 0
  {
    if items == [] then 0 else PriceSum(items[..|items| - 1]) + LineAmount(items[|items| - 1])
  }

  /** `items.reduce((sum, item) => sum + item.quantity, 0)`. */
  function QuantitySum(items: seq<CartItem>): (total: int)
    ensures (forall i :: 0 <= i < |items| ==> items[i].quantity >= 0) ==> total >= 0
  {
    if items == [] then 0 else QuantitySum(items[..|items| - 1]) + items[|items| - 1].quantity
  }

  // ---------------------------------------------------------------------------
  // The store.
  // ---------------------------------------------------------------------------

  class CartStore {
    var items: seq<CartItem>
    var isOpen: bool

    /** The product ids of the lines are pairwise distinct. */
    ghost predicate Valid()
      reads this
    {
      UniqueIds(items)
    }

    /** The initial state: an empty, closed cart. */
    constructor()
      ensures items == [] && !isOpen
      ensures Valid()
    {
      items, isOpen := [], false;
    }

    method AddItem(product: Product, quantity: int)
      modifies this
      ensures items == Added(old(items), product, quantity)
      ensures isOpen == old(isOpen)
      ensures old(Valid()) ==> Valid()
    {
      if UniqueIds(items) {
        AddedKeepsIdsUnique(items, product, quantity);
      }
      items := Added(items, product, quantity);
    }

    method RemoveItem(productId: string)
      modifies this
      ensures items == Removed(old(items), productId)
      ensures isOpen == old(isOpen)
      ensures old(Valid()) ==> Valid()
    {
      if UniqueIds(items) {
        RemovedKeepsIdsUnique(items, productId);
      }
      items := Removed(items, productId);
    }

    /** A quantity of zero or less removes the line; otherwise it is set, never added. */
    method UpdateQuantity(productId: string, quantity: int)
      modifies this
      ensures quantity <= 0 ==> items == Removed(old(items), productId)
      ensures quantity > 0 ==> items == WithQuantity(old(items), productId, quantity)
      ensures isOpen == old(isOpen)
      ensures old(Valid()) ==> Valid()
    {
      if quantity <= 0 {
        RemoveItem(productId);
        return;
      }
      if UniqueIds(items) {
        WithQuantityKeepsIdsUnique(items, productId, quantity);
      }
      items := WithQuantity(items, productId, quantity);
    }

    method ClearCart()
      modifies this
      ensures items == [] && isOpen == old(isOpen)
      ensures Valid()
    {
      items := [];
    }

    method ToggleCart()
      modifies this
      ensures isOpen == !old(isOpen) && items == old(items)
    {
      isOpen := !isOpen;
    }

    method SetCartOpen(open: bool)
      modifies this
      ensures isOpen == open && items == old(items)
    {
      isOpen := open;
    }

    /** `totalPrice()`: recomputed from the current lines on every call. */
    function TotalPrice(): (total: int)
      reads this
      ensures (forall i :: 0 <= i < |items| ==> items[i].product.wholesalePrice >= 0 && items[i].quantity >= 0) ==> total >= 0
    {
      PriceSum(items)
    }

    /** `totalItems()`: recomputed from the current lines on every call. */
    function TotalItems(): (total: int)
      reads this
      ensures (forall i :: 0 <= i < |items| ==> items[i].quantity >= 0) ==> total >= 0
    {
      QuantitySum(items)
    }
  }

  // ---------------------------------------------------------------------------
  // Id uniqueness is kept by every action.
  // ---------------------------------------------------------------------------

  lemma AddedKeepsIdsUnique(items: seq<CartItem>, product: Product, quantity: int)
    requires UniqueIds(items)
    ensures UniqueIds(Added(items, product, quantity))
  {
    var r := Added(items, product, quantity);
    if FindIndex(items, product.id).Some? {
      assert forall i :: 0 <= i < |r| ==> r[i].product.id == items[i].product.id by {
        assert forall i :: 0 <= i < |r| ==> r[i].product.id == Ids(r)[i];
      }
    }
  }

  lemma RemovedKeepsIdsUnique(items: seq<CartItem>, id: string)
    requires UniqueIds(items)
    ensures UniqueIds(Removed(items, id))
  {
    var k := FindIndex(items, id);
    if k.Some? {
      RemovedAt(items, id, k.value);
    }
  }

  lemma WithQuantityKeepsIdsUnique(items: seq<CartItem>, id: string, quantity: int)
    requires UniqueIds(items)
    ensures UniqueIds(WithQuantity(items, id, quantity))
  {
  }

  // ---------------------------------------------------------------------------
  // What each action does to a cart with unique ids.
  // ---------------------------------------------------------------------------

  /** With unique ids, adding to a present product changes exactly that line's quantity. */
  lemma AddedExisting(items: seq<CartItem>, product: Product, quantity: int, k: nat)
    requires UniqueIds(items)
    requires k < |items| && items[k].product.id == product.id
    ensures Added(items, product, quantity) == items[k := items[k].(quantity := items[k].quantity + quantity)]
  {
  }

  /** Dropping an element before the last one commutes with taking the last one off. */
  lemma DropBeforeLast<T>(s: seq<T>, k: nat)
    requires k < |s| - 1
    ensures var p := s[..|s| - 1];
      s[..k] + s[k + 1..] == p[..k] + p[k + 1..] + [s[|s| - 1]]
  {
    var p := s[..|s| - 1];
    assert s[..k] == p[..k];
    assert s[k + 1..] == p[k + 1..] + [s[|s| - 1]];
  }

  /** With unique ids, removing a present product drops exactly its line and keeps the others in order. */
  lemma {:induction false} RemovedAt(items: seq<CartItem>, id: string, k: nat)
    requires UniqueIds(items)
    requires k < |items| && items[k].product.id == id
    ensures Removed(items, id) == items[..k] + items[k + 1..]
  {
    var p, last := items[..|items| - 1], items[|items| - 1];
    if k == |items| - 1 {
      assert Removed(p, id) == p;
      assert items[..k] + items[k + 1..] == p;
    } else {
      RemovedAt(p, id, k);
      DropBeforeLast(items, k);
    }
  }

  /** With unique ids, setting a quantity changes exactly that line. */
  lemma WithQuantityAt(items: seq<CartItem>, id: string, quantity: int, k: nat)
    requires UniqueIds(items)
    requires k < |items| && items[k].product.id == id
    ensures WithQuantity(items, id, quantity) == items[k := items[k].(quantity := quantity)]
  {
    var r := WithQuantity(items, id, quantity);
    forall i | 0 <= i < |items|
      ensures r[i] == items[k := items[k].(quantity := quantity)][i]
    {
      assert r[i].product == items[i].product;
    }
  }

  /** Changing one line changes a sum over the lines by the difference at that line. */
  lemma {:induction false} SumByUpdate<T>(f: T -> int, s: seq<T>, k: nat, x: T)
    requires k < |s|
    ensures SumBy(f, s[k := x]) == SumBy(f, s) - f(s[k]) + f(x)
  {
    var p := s[..|s| - 1];
    if k == |s| - 1 {
      assert s[k := x][..|s| - 1] == p;
    } else {
      assert s[k := x][..|s| - 1] == p[k := x];
      SumByUpdate(f, p, k, x);
    }
  }

  /** Dropping one line lowers a sum over the lines by that line. */
  lemma {:induction false} SumByDrop<T>(f: T -> int, s: seq<T>, k: nat)
    requires k < |s|
    ensures SumBy(f, s[..k] + s[k + 1..]) == SumBy(f, s) - f(s[k])
  {
    var p, last := s[..|s| - 1], s[|s| - 1];
    if k == |s| - 1 {
      assert s[..k] + s[k + 1..] == p;
    } else {
      SumByDrop(f, p, k);
      DropBeforeLast(s, k);
      var d := p[..k] + p[k + 1..];
      assert (d + [last])[..|d|] == d;
    }
  }


  lemma {:induction false} TotalsAreSums(items: seq<CartItem>)
    ensures PriceSum(items) == SumBy(LineAmount, items)
    ensures QuantitySum(items) == SumBy(Quantity, items)
  {
    if items != [] {
      TotalsAreSums(items[..|items| - 1]);
    }
  }

  /**
   * Adding `quantity` of a product raises the item count by `quantity` and the
   * price by `quantity` times the price of the line's product: the product
   * stored in the cart when the id is present, the given one otherwise.
   */
  lemma AddedTotals(items: seq<CartItem>, product: Product, quantity: int)
    requires UniqueIds(items)
    ensures var r := Added(items, product, quantity);
      && QuantitySum(r) == QuantitySum(items) + quantity
      && PriceSum(r) == PriceSum(items) + LinePrice(items, product) * quantity
  {
    match FindIndex(items, product.id)
    case Some(k) =>
      AddedExisting(items, product, quantity, k);
      BumpTotals(items, k, quantity);
    case None =>
      var r := items + [CartItem(product, quantity)];
      assert r[..|items|] == items;
  }

  /** The unit price of the line `addItem(product, _)` lands on. */
  function LinePrice(items: seq<CartItem>, product: Product): int
  {
    match FindIndex(items, product.id)
    case Some(k) => items[k].product.wholesalePrice
    case None => product.wholesalePrice
  }

  /** Raising one line's quantity by `d` raises the totals by `d` pieces and `d` times its price. */
  lemma BumpTotals(items: seq<CartItem>, k: nat, d: int)
    requires k < |items|
    ensures var r := items[k := items[k].(quantity := items[k].quantity + d)];
      && QuantitySum(r) == QuantitySum(items) + d
      && PriceSum(r) == PriceSum(items) + items[k].product.wholesalePrice * d
  {
    var q := items[k].quantity + d;
    SetQuantityTotals(items, k, q);
    assert q - items[k].quantity == d;
  }

  /** Setting one line's quantity to `q` moves the totals by the change at that line. */
  lemma SetQuantityTotals(items: seq<CartItem>, k: nat, q: int)
    requires k < |items|
    ensures var r := items[k := items[k].(quantity := q)];
      && QuantitySum(r) == QuantitySum(items) - items[k].quantity + q
      && PriceSum(r) == PriceSum(items) + items[k].product.wholesalePrice * (q - items[k].quantity)
  {
    var p, q0 := items[k].product.wholesalePrice, items[k].quantity;
    assert p * q - p * q0 == p * (q - q0);
    var line := items[k].(quantity := q);
    var r := items[k := line];
    TotalsAreSums(items);
    TotalsAreSums(r);
    SumByUpdate(Quantity, items, k, line);
    SumByUpdate(LineAmount, items, k, line);
  }

  /** Removing a present product lowers the totals by exactly its line. */
  lemma RemovedTotals(items: seq<CartItem>, id: string, k: nat)
    requires UniqueIds(items)
    requires k < |items| && items[k].product.id == id
    ensures QuantitySum(Removed(items, id)) == QuantitySum(items) - items[k].quantity
    ensures PriceSum(Removed(items, id)) == PriceSum(items) - LineAmount(items[k])
  {
    RemovedAt(items, id, k);
    TotalsAreSums(items);
    TotalsAreSums(items[..k] + items[k + 1..]);
    SumByDrop(Quantity, items, k);
    SumByDrop(LineAmount, items, k);
  }

  /** Setting a present product's quantity replaces its line's share of the totals. */
  lemma WithQuantityTotals(items: seq<CartItem>, id: string, quantity: int, k: nat)
    requires UniqueIds(items)
    requires k < |items| && items[k].product.id == id
    ensures QuantitySum(WithQuantity(items, id, quantity)) == QuantitySum(items) - items[k].quantity + quantity
    ensures PriceSum(WithQuantity(items, id, quantity))
         == PriceSum(items) + items[k].product.wholesalePrice * (quantity - items[k].quantity)
  {
    WithQuantityAt(items, id, quantity, k);
    SetQuantityTotals(items, k, quantity);
  }
}

/**
 * Grouping of an order's items into one product card per distinct product
 * title, with piece count, value and a size -> quantity breakdown.
 */
module Grouping {
  import opened Wrappers
  import opened Seqs
  import opened KeyOrder
  import opened Sizes

  /** A stored order line. Money is in integer cents. */
  datatype OrderItem = OrderItem(
    id: string,
    productTitle: string,
    variantTitle: Option<string>,
    sku: Option<string>,
    quantity: int,
    unitPrice: int,
    totalPrice: int,
    imageUrl: Option<string>)

  /** One product card of an order document. */
  datatype GroupedProduct = GroupedProduct(
    productTitle: string,
    imageUrl: Option<string>,
    sku: Option<string>,
    unitPrice: int,
    totalPcs: int,
    totalEur: int,
    sizes: map<string, int>)

  // ---------------------------------------------------------------------------
  // Reference definitions: what a group is, item by item.
  // ---------------------------------------------------------------------------

  function TitleList(items: seq<OrderItem>): (ts: seq<string>)
    ensures |ts| == |items|
    ensures forall i :: 0 <= i < |items| ==> ts[i] == items[i].productTitle
  {
    if items == [] then [] else TitleList(items[..|items| - 1]) + [items[|items| - 1].productTitle]
  }

  /** The distinct product titles, in order of first occurrence. */
  function Titles(items: seq<OrderItem>): seq<string>
  {
    Dedup(TitleList(items))
  }

  /** The items whose product title is `t`, in order. */
  function ItemsWith(items: seq<OrderItem>, t: string): seq<OrderItem>
  {
    if items == [] then []
    else
      var last := items[|items| - 1];
      ItemsWith(items[..|items| - 1], t) + if last.productTitle == t then [last] else []
  }

  /** Total pieces of a list of items. */
  function SumQty(xs: seq<OrderItem>): int
  {
    if xs == [] then 0 else SumQty(xs[..|xs| - 1]) + xs[|xs| - 1].quantity
  }

  /** Total line value of a list of items. */
  function SumEur(xs: seq<OrderItem>): int
  {
    if xs == [] then 0 else SumEur(xs[..|xs| - 1]) + xs[|xs| - 1].totalPrice
  }

  /** The size buckets of a list of items: each extracted size accumulates its items' quantities. */
  function SizeTally(xs: seq<OrderItem>): map<string, int>
  {
    if xs == [] then map[]
    else
      var m, x := SizeTally(xs[..|xs| - 1]), xs[|xs| - 1];
      match ExtractSize(x.variantTitle)
      case None => m
      case Some(k) => m[k := MapGet(m, k) + x.quantity]
  }

  /** The first item with product title `t`, if any. */
  function FirstWith(items: seq<OrderItem>, t: string): Option<OrderItem>
  {
    if items == [] then None
    else
      match FirstWith(items[..|items| - 1], t)
      case Some(f) => Some(f)
      case None => if items[|items| - 1].productTitle == t then Some(items[|items| - 1]) else None
  }

  /** The product card for title `t`. */
  function GroupFor(items: seq<OrderItem>, t: string): GroupedProduct
    requires FirstWith(items, t).Some?
  {
    var first, xs := FirstWith(items, t).value, ItemsWith(items, t);
    GroupedProduct(t, first.imageUrl, first.sku, first.unitPrice, SumQty(xs), SumEur(xs), SizeTally(xs))
  }

  function GroupsFor(items: seq<OrderItem>, ks: seq<string>): (gs: seq<GroupedProduct>)
    requires forall i :: 0 <= i < |ks| ==> FirstWith(items, ks[i]).Some?
    ensures |gs| == |ks|
    ensures forall i :: 0 <= i < |ks| ==> gs[i] == GroupFor(items, ks[i])
  {
    if ks == [] then [] else GroupsFor(items, ks[..|ks| - 1]) + [GroupFor(items, ks[|ks| - 1])]
  }

  /** What `groupOrderItems` returns: one card per title, in the object's key enumeration order. */
  function Grouped(items: seq<OrderItem>): seq<GroupedProduct>
  {
    GroupableKeys(items, Titles(items));
    GroupsFor(items, JsKeyOrder(Titles(items)))
  }

  /** Every key of the enumeration order of the titles has a card. */
  lemma GroupableKeys(items: seq<OrderItem>, keys: seq<string>)
    requires keys == Titles(items)
    ensures forall i :: 0 <= i < |JsKeyOrder(keys)| ==> FirstWith(items, JsKeyOrder(keys)[i]).Some?
  {
    JsKeyOrderPermutes(keys);
    FirstWithTitles(items);
    forall i | 0 <= i < |JsKeyOrder(keys)|
      ensures FirstWith(items, JsKeyOrder(keys)[i]).Some?
    {
      var k := JsKeyOrder(keys)[i];
      assert k in keys;
      assert k in TitleList(items);
    }
  }

  /** Exactly the titles some item carries have a first item. */
  lemma {:induction false} FirstWithTitles(items: seq<OrderItem>)
    ensures forall t :: FirstWith(items, t).Some? <==> t in TitleList(items)
  {
    if items != [] {
      FirstWithTitles(items[..|items| - 1]);
    }
  }

  /** The card a new item opens: `{ productTitle, imageUrl, sku, unitPrice, totalPcs: 0, totalEur: 0, sizes: {} }`. */
  function NewGroup(x: OrderItem): GroupedProduct
  {
    GroupedProduct(x.productTitle, x.imageUrl, x.sku, x.unitPrice, 0, 0, map[])
  }

  /** One item added into its card: pieces, value and its size bucket grow by the item. */
  function AddToGroup(g: GroupedProduct, x: OrderItem): GroupedProduct
  {
    var sizes := match ExtractSize(x.variantTitle)
                 case None => g.sizes
                 case Some(k) => g.sizes[k := MapGet(g.sizes, k) + x.quantity];
    g.(totalPcs := g.totalPcs + x.quantity, totalEur := g.totalEur + x.totalPrice, sizes := sizes)
  }

  /** Appending an item changes only the card of its own title. */
  lemma GroupForSnoc(items: seq<OrderItem>, x: OrderItem, k: string)
    requires FirstWith(items + [x], k).Some?
    ensures k != x.productTitle ==> FirstWith(items, k).Some? && GroupFor(items + [x], k) == GroupFor(items, k)
    ensures k == x.productTitle ==>
      GroupFor(items + [x], k) == AddToGroup(if FirstWith(items, k).Some? then GroupFor(items, k) else NewGroup(x), x)
  {
    if k != x.productTitle {
      SnocOtherTitle(items, x, k);
    } else if FirstWith(items, k).None? {
      SnocNewTitle(items, x);
    } else {
      SnocKnownTitle(items, x);
    }
  }

  lemma SnocOtherTitle(items: seq<OrderItem>, x: OrderItem, k: string)
    requires k != x.productTitle
    ensures FirstWith(items + [x], k) == FirstWith(items, k)
    ensures ItemsWith(items + [x], k) == ItemsWith(items, k)
  {
    var s := items + [x];
    assert s[..|s| - 1] == items;
  }

  lemma SnocNewTitle(items: seq<OrderItem>, x: OrderItem)
    requires FirstWith(items, x.productTitle).None?
    ensures FirstWith(items + [x], x.productTitle) == Some(x)
    ensures GroupFor(items + [x], x.productTitle) == AddToGroup(NewGroup(x), x)
  {
    var s, k := items + [x], x.productTitle;
    assert s[..|s| - 1] == items;
    NoItemsWith(items, k);
    assert ItemsWith(s, k) == [] + [x];
    AppendItem([], x, NewGroup(x));
  }

  lemma SnocKnownTitle(items: seq<OrderItem>, x: OrderItem)
    requires FirstWith(items, x.productTitle).Some?
    ensures FirstWith(items + [x], x.productTitle) == FirstWith(items, x.productTitle)
    ensures GroupFor(items + [x], x.productTitle) == AddToGroup(GroupFor(items, x.productTitle), x)
  {
    var s, k := items + [x], x.productTitle;
    assert s[..|s| - 1] == items;
    assert ItemsWith(s, k) == ItemsWith(items, k) + [x];
    AppendItem(ItemsWith(items, k), x, GroupFor(items, k));
  }

  /** A card that sums up `xs`, with `x` added, sums up `xs + [x]`. */
  lemma AppendItem(xs: seq<OrderItem>, x: OrderItem, g: GroupedProduct)
    requires g.totalPcs == SumQty(xs) && g.totalEur == SumEur(xs) && g.sizes == SizeTally(xs)
    ensures var h := AddToGroup(g, x);
      h.totalPcs == SumQty(xs + [x]) && h.totalEur == SumEur(xs + [x]) && h.sizes == SizeTally(xs + [x])
  {
    var ys := xs + [x];
    assert ys[..|ys| - 1] == xs;
  }

  /** A title that no item carries has no items. */
  lemma {:induction false} NoItemsWith(items: seq<OrderItem>, t: string)
    requires FirstWith(items, t).None?
    ensures ItemsWith(items, t) == []
  {
    if items != [] {
      NoItemsWith(items[..|items| - 1], t);
    }
  }

  // ---------------------------------------------------------------------------
  // The imperative grouping loop.
  // ---------------------------------------------------------------------------

  /** `Object.values(groups)` for an object whose keys were inserted in the order `keys`. */
  function ObjectValues(groups: map<string, GroupedProduct>, keys: seq<string>): (vs: seq<GroupedProduct>)
    requires forall k :: k in keys ==> k in groups
    ensures |vs| == |keys|
  {
    JsKeyOrderPermutes(keys);
    ValuesAt(groups, JsKeyOrder(keys))
  }

  function ValuesAt(groups: map<string, GroupedProduct>, ks: seq<string>): (vs: seq<GroupedProduct>)
    requires forall i :: 0 <= i < |ks| ==> ks[i] in groups
    ensures |vs| == |ks|
    ensures forall i :: 0 <= i < |ks| ==> vs[i] == groups[ks[i]]
  {
    if ks == [] then [] else ValuesAt(groups, ks[..|ks| - 1]) + [groups[ks[|ks| - 1]]]
  }

  /** `groupOrderItems(items)`: fold the items into an object of cards, then take its values. */
  method GroupOrderItems(items: seq<OrderItem>) returns (grouped: seq<GroupedProduct>)
    ensures grouped == Grouped(items)
  {
    var groups, keys := FoldItems(items);
    ValuesAreGroups(items, groups, keys);
    grouped := ObjectValues(groups, keys);
  }

  /**
   * The loop of `groupOrderItems`: `groups` maps each title to its card and
   * `keys` records the order in which the titles were inserted.
   */
  method FoldItems(items: seq<OrderItem>) returns (groups: map<string, GroupedProduct>, keys: seq<string>)
    ensures Folded(groups, keys, items)
  {
    groups, keys := map[], [];
    for n := 0 to |items|
      invariant Folded(groups, keys, items[..n])
    {
      ghost var done, before, keysBefore := items[..n], groups, keys;
      groups, keys := FoldItem(groups, keys, items[n]);
      assert items[..n + 1] == done + [items[n]];
      GroupStep(done, items[n], before, groups, keysBefore, keys);
    }
    FoldedAll(groups, keys, items);
  }

  /**
   * One pass of the loop body: open the item's card if its title has none
   * yet, then add the item's pieces, value and size to the card.
   */
  method FoldItem(groups: map<string, GroupedProduct>, keys: seq<string>, item: OrderItem)
    returns (updated: map<string, GroupedProduct>, updatedKeys: seq<string>)
    ensures updated == groups[item.productTitle := AddToGroup(
              if item.productTitle in groups then groups[item.productTitle] else NewGroup(item), item)]
    ensures updatedKeys == if item.productTitle in groups then keys else keys + [item.productTitle]
  {
    var key := item.productTitle;
    updated, updatedKeys := groups, keys;
    if key !in updated {
      updated := updated[key := GroupedProduct(key, item.imageUrl, item.sku, item.unitPrice, 0, 0, map[])];
      updatedKeys := updatedKeys + [key];
    }

    var group := updated[key];
    var sizes := group.sizes;
    var sizeStr := ExtractSize(item.variantTitle);
    if sizeStr.Some? {
      sizes := sizes[sizeStr.value := MapGet(sizes, sizeStr.value) + item.quantity];
    }
    updated := updated[key := group.(totalPcs := group.totalPcs + item.quantity,
                                     totalEur := group.totalEur + item.totalPrice,
                                     sizes := sizes)];
  }

  lemma FoldedAll(groups: map<string, GroupedProduct>, keys: seq<string>, items: seq<OrderItem>)
    requires Folded(groups, keys, items[..|items|])
    ensures Folded(groups, keys, items)
  {
    assert items[..|items|] == items;
  }

  /** `groups` holds exactly the reference card of every title of `done`. */
  ghost predicate Tracks(groups: map<string, GroupedProduct>, done: seq<OrderItem>)
  {
    && (forall k :: k in groups <==> FirstWith(done, k).Some?)
    && (forall k :: k in groups ==> groups[k] == GroupFor(done, k))
  }

  /** The loop's state after folding in `done`: the cards and the key insertion order. */
  ghost predicate Folded(groups: map<string, GroupedProduct>, keys: seq<string>, done: seq<OrderItem>)
  {
    keys == Titles(done) && Tracks(groups, done)
  }

  /** One pass of the loop body keeps the loop's state in step with the items folded in so far. */
  lemma GroupStep(done: seq<OrderItem>, x: OrderItem, before: map<string, GroupedProduct>, after: map<string, GroupedProduct>,
                  keysBefore: seq<string>, keysAfter: seq<string>)
    requires Folded(before, keysBefore, done)
    requires after == before[x.productTitle := AddToGroup(
                        if x.productTitle in before then before[x.productTitle] else NewGroup(x), x)]
    requires keysAfter == if x.productTitle in before then keysBefore else keysBefore + [x.productTitle]
    ensures Folded(after, keysAfter, done + [x])
  {
    assert x.productTitle in before <==> FirstWith(done, x.productTitle).Some?;
    TracksStep(done, x, before, after);
    TitlesSnoc(done, x);
  }

  /** One pass of the loop body keeps every card equal to its reference definition. */
  lemma TracksStep(done: seq<OrderItem>, x: OrderItem, before: map<string, GroupedProduct>, after: map<string, GroupedProduct>)
    requires Tracks(before, done)
    requires after == before[x.productTitle := AddToGroup(
                        if x.productTitle in before then before[x.productTitle] else NewGroup(x), x)]
    ensures Tracks(after, done + [x])
  {
    GroupForSnoc(done, x, x.productTitle);
    forall k | k != x.productTitle
      ensures FirstWith(done + [x], k) == FirstWith(done, k)
      ensures FirstWith(done, k).Some? ==> GroupFor(done + [x], k) == GroupFor(done, k)
    {
      SnocOtherTitle(done, x, k);
    }
  }

  /** Once every item is folded in, the object's values are the reference cards. */
  lemma ValuesAreGroups(items: seq<OrderItem>, groups: map<string, GroupedProduct>, keys: seq<string>)
    requires Folded(groups, keys, items)
    ensures forall k :: k in keys ==> k in groups
    ensures ObjectValues(groups, keys) == Grouped(items)
  {
    FirstWithTitles(items);
    GroupableKeys(items, keys);
    JsKeyOrderPermutes(keys);
  }

  lemma TitlesSnoc(items: seq<OrderItem>, x: OrderItem)
    ensures Titles(items + [x]) == if FirstWith(items, x.productTitle).Some? then Titles(items) else Titles(items) + [x.productTitle]
  {
    var s := items + [x];
    assert s[..|s| - 1] == items;
    assert TitleList(s) == TitleList(items) + [x.productTitle];
    DedupSnoc(TitleList(items), x.productTitle);
    FirstWithTitles(items);
  }
}

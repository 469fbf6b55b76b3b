/**
 * The product catalogue page: the search and category filter, the category
 * list, the per-product quantity selector (a record from product id to a
 * quantity that never goes below zero) and adding the selection to the cart.
 *
 * The selection record is a JavaScript object: `keys` is the order its
 * properties were first created in, and `Object.entries` visits them in
 * `JsKeyOrder(keys)` (array-index keys first, ascending). A spread
 * `{ ...prev, [id]: v }` keeps that order and appends a new `id`.
 */
module Dashboard {
  import opened Wrappers
  import opened Text
  import opened Seqs
  import opened KeyOrder
  import opened Cart

  // ---------------------------------------------------------------------------
  // Filtering and categories.
  // ---------------------------------------------------------------------------

  /** Title or SKU contains the search text, both lower-cased. */
  predicate MatchesSearch(p: Product, search: string)
  {
    Contains(ToLower(p.title), ToLower(search)) || Contains(ToLower(p.sku), ToLower(search))
  }

  predicate MatchesCategory(p: Product, category: string)
  {
    category == "all" || p.category == category
  }

  predicate Shown(p: Product, search: string, category: string)
  {
    MatchesSearch(p, search) && MatchesCategory(p, category)
  }

  /** `filtered`: the products the grid shows, in catalogue order. */
  function Filtered(products: seq<Product>, search: string, category: string): (r: seq<Product>)
    ensures |r| <= |products|
    ensures forall i :: 0 <= i < |r| ==> r[i] in products && Shown(r[i], search, category)
    ensures forall i :: 0 <= i < |products| && Shown(products[i], search, category) ==> products[i] in r
  {
    if products == [] then []
    else
      var last := products[|products| - 1];
      Filtered(products[..|products| - 1], search, category) + if Shown(last, search, category) then [last] else []
  }

  /** `filter` over a concatenation is the concatenation of the two filters. */
  lemma {:induction false} FilteredConcat(a: seq<Product>, b: seq<Product>, search: string, category: string)
    ensures Filtered(a + b, search, category) == Filtered(a, search, category) + Filtered(b, search, category)
    decreases |b|
  {
    if b == [] {
      assert a + b == a;
    } else {
      var front, last := b[..|b| - 1], b[|b| - 1];
      FilteredConcat(a, front, search, category);
      assert (a + b)[..|a + b| - 1] == a + front;
      assert (a + b)[|a + b| - 1] == last;
    }
  }

  /** A one-product catalogue shows that product exactly when it matches. */
  lemma FilteredSingle(p: Product, search: string, category: string)
    ensures Filtered([p], search, category) == if Shown(p, search, category) then [p] else []
  {
    assert [p][..0] == [];
  }

  /** With an empty search and category "all" every product is shown, in order. */
  lemma {:induction false} ShowAll(products: seq<Product>)
    ensures Filtered(products, "", "all") == products
  {
    if products != [] {
      var last := products[|products| - 1];
      ShowAll(products[..|products| - 1]);
      ContainsEmpty(ToLower(last.title));
      assert Shown(last, "", "all");
      assert products[..|products| - 1] + [last] == products;
    }
  }

  /** Filtering what is already filtered with the same criteria changes nothing. */
  lemma {:induction false} FilteredIdempotent(products: seq<Product>, search: string, category: string)
    ensures Filtered(Filtered(products, search, category), search, category) == Filtered(products, search, category)
  {
    var r := Filtered(products, search, category);
    AllShownKept(r, search, category);
  }

  /** A list whose every product is shown is kept whole. */
  lemma {:induction false} AllShownKept(products: seq<Product>, search: string, category: string)
    requires forall i :: 0 <= i < |products| ==> Shown(products[i], search, category)
    ensures Filtered(products, search, category) == products
  {
    if products != [] {
      var p := products[..|products| - 1];
      AllShownKept(p, search, category);
      assert p + [products[|products| - 1]] == products;
    }
  }

  /** The categories of the products, in catalogue order, repeats included. */
  function CategoryList(products: seq<Product>): (cs: seq<string>)
    ensures |cs| == |products|
    ensures forall i :: 0 <= i < |products| ==> cs[i] == products[i].category
  {
    seq(|products|, i requires 0 <= i < |products| => products[i].category)
  }

  /** `["all", ...new Set(products.map(p => p.category))]`. */
  function Categories(products: seq<Product>): (r: seq<string>)
    ensures |r| >= 1 && r[0] == "all"
    ensures Distinct(r[1..])
    ensures forall c :: c in r[1..] <==> c in CategoryList(products)
  {
    var d := Dedup(CategoryList(products));
    assert (["all"] + d)[1..] == d;
    forall c | c in CategoryList(products) ensures c in d {
      var i :| 0 <= i < |CategoryList(products)| && CategoryList(products)[i] == c;
    }
    ["all"] + d
  }

  /** The categories follow the order in which each first appears in the catalogue. */
  lemma CategoriesInFirstOccurrenceOrder(products: seq<Product>)
    ensures var cs, r := CategoryList(products), Categories(products)[1..];
      forall i, j :: 0 <= i < j < |r| ==> r[i] in cs && r[j] in cs && FirstIndex(cs, r[i]) < FirstIndex(cs, r[j])
  {
    var cs := CategoryList(products);
    DedupFirstOccurrenceOrder(cs);
    assert Categories(products)[1..] == Dedup(cs);
  }

  /** Unless a product's category is itself "all", no option is listed twice. */
  lemma CategoriesDistinct(products: seq<Product>)
    requires forall i :: 0 <= i < |products| ==> products[i].category != "all"
    ensures Distinct(Categories(products))
  {
    var r := Categories(products);
    forall i, j | 0 <= i < j < |r|
      ensures r[i] != r[j]
    {
      if i == 0 {
        assert r[j] == r[1..][j - 1];
        assert r[j] in CategoryList(products);
      } else {
        assert r[i] == r[1..][i - 1] && r[j] == r[1..][j - 1];
      }
    }
  }

  // ---------------------------------------------------------------------------
  // Quantity selector.
  // ---------------------------------------------------------------------------

  /** `Math.max(0, n)`. */
  function Clamp0(n: int): (r: nat)
    ensures r >= 0 && r >= n && (r == 0 || r == n)
  {
    if n < 0 then 0 else n
  }

  /** `parseInt(text) || 0`: `None` stands for NaN. */
  function InputValue(parsed: Option<int>): int
  {
    parsed.GetOr(0)
  }

  /** The selected entries: `Object.entries(quantities).filter(([, qty]) => qty > 0)` over `order`. */
  function Selected(quantities: map<string, int>, order: seq<string>): (r: seq<(string, int)>)
    ensures |r| <= |order|
    ensures forall i :: 0 <= i < |r| ==>
      r[i].0 in order && r[i].1 > 0 && r[i].1 == MapGet(quantities, r[i].0)
    ensures forall i :: 0 <= i < |order| && MapGet(quantities, order[i]) > 0 ==>
      (order[i], MapGet(quantities, order[i])) in r
  {
    if order == [] then []
    else
      var k := order[|order| - 1];
      var q := MapGet(quantities, k);
      Selected(quantities, order[..|order| - 1]) + if q > 0 then [(k, q)] else []
  }

  /** No id occurs twice among the entries. */
  predicate DistinctIds(entries: seq<(string, int)>)
  {
    forall i, j :: 0 <= i < j < |entries| ==> entries[i].0 != entries[j].0
  }

  /** Over distinct keys, no id is selected twice. */
  lemma {:induction false} SelectedDistinct(quantities: map<string, int>, order: seq<string>)
    requires Distinct(order)
    ensures DistinctIds(Selected(quantities, order))
  {
    if order != [] {
      var p, k := order[..|order| - 1], order[|order| - 1];
      assert Distinct(p);
      SelectedDistinct(quantities, p);
      assert k !in p;
      var rp := Selected(quantities, p);
      forall i | 0 <= i < |rp| ensures rp[i].0 != k {
        assert rp[i].0 in p;
      }
    }
  }

  /** What looking a product up by id finds: `products.find(p => p.id === id)`. */
  function FindProduct(products: seq<Product>, id: string): (r: Option<Product>)
    ensures r.Some? ==> r.value in products && r.value.id == id
    ensures r.None? ==> forall i :: 0 <= i < |products| ==> products[i].id != id
    ensures r.Some? ==> exists i :: 0 <= i < |products| && products[i] == r.value
                          && forall j :: 0 <= j < i ==> products[j].id != id
  {
    if products == [] then None
    else if products[0].id == id then Some(products[0])
    else
      var r := FindProduct(products[1..], id);
      if r.Some? then
        var i :| 0 <= i < |products[1..]| && products[1..][i] == r.value
                 && forall j :: 0 <= j < i ==> products[1..][j].id != id;
        assert products[i + 1] == r.value;
        r
      else r
  }

  /** The cart lines after adding each selected entry with a catalogue product, in order. */
  function AddAll(items: seq<CartItem>, selected: seq<(string, int)>, products: seq<Product>): seq<CartItem>
  {
    if selected == [] then items
    else
      var prev := AddAll(items, selected[..|selected| - 1], products);
      var (id, qty) := selected[|selected| - 1];
      match FindProduct(products, id)
      case Some(p) => Added(prev, p, qty)
      case None => prev
  }

  /** How many selected entries have a catalogue product. */
  function Matched(selected: seq<(string, int)>, products: seq<Product>): (n: nat)
    ensures n <= |selected|
  {
    if selected == [] then 0
    else Matched(selected[..|selected| - 1], products)
         + if FindProduct(products, selected[|selected| - 1].0).Some? then 1 else 0
  }

  /** The pieces of the selected entries that have a catalogue product. */
  function MatchedQty(selected: seq<(string, int)>, products: seq<Product>): int
  {
    if selected == [] then 0
    else MatchedQty(selected[..|selected| - 1], products)
         + if FindProduct(products, selected[|selected| - 1].0).Some? then selected[|selected| - 1].1 else 0
  }

  /** Adding a selection keeps the cart's ids unique. */
  lemma {:induction false} AddAllKeepsIdsUnique(items: seq<CartItem>, selected: seq<(string, int)>, products: seq<Product>)
    requires UniqueIds(items)
    ensures UniqueIds(AddAll(items, selected, products))
  {
    if selected != [] {
      var prev := AddAll(items, selected[..|selected| - 1], products);
      AddAllKeepsIdsUnique(items, selected[..|selected| - 1], products);
      var (id, qty) := selected[|selected| - 1];
      match FindProduct(products, id)
      case Some(p) => AddedKeepsIdsUnique(prev, p, qty);
      case None =>
    }
  }

  /** Adding a selection raises the cart's piece count by the pieces of the matched entries. */
  lemma {:induction false} AddAllTotals(items: seq<CartItem>, selected: seq<(string, int)>, products: seq<Product>)
    requires UniqueIds(items)
    ensures QuantitySum(AddAll(items, selected, products)) == QuantitySum(items) + MatchedQty(selected, products)
  {
    if selected != [] {
      var prev := AddAll(items, selected[..|selected| - 1], products);
      AddAllTotals(items, selected[..|selected| - 1], products);
      AddAllKeepsIdsUnique(items, selected[..|selected| - 1], products);
      var (id, qty) := selected[|selected| - 1];
      match FindProduct(products, id)
      case Some(p) => AddedTotals(prev, p, qty);
      case None =>
    }
  }

  /** Adding never drops a line's product id. */
  lemma AddedKeepsIds(items: seq<CartItem>, product: Product, quantity: int)
    ensures forall x :: x in Ids(items) ==> x in Ids(Added(items, product, quantity))
    ensures product.id in Ids(Added(items, product, quantity))
  {
    var r := Added(items, product, quantity);
    match FindIndex(items, product.id)
    case Some(k) =>
      assert Ids(items)[k] == product.id;
    case None =>
      assert Ids(r)[|items|] == product.id;
      forall x | x in Ids(items) ensures x in Ids(r) {
        var i :| 0 <= i < |items| && Ids(items)[i] == x;
        assert Ids(r)[i] == x;
      }
  }

  /** Every selected id with a catalogue product ends up with a cart line, and no line is lost. */
  lemma {:induction false} AddAllContains(items: seq<CartItem>, selected: seq<(string, int)>, products: seq<Product>)
    ensures forall x :: x in Ids(items) ==> x in Ids(AddAll(items, selected, products))
    ensures forall i :: 0 <= i < |selected| && FindProduct(products, selected[i].0).Some? ==>
      selected[i].0 in Ids(AddAll(items, selected, products))
  {
    if selected != [] {
      var front, last := selected[..|selected| - 1], selected[|selected| - 1];
      var prev, r := AddAll(items, front, products), AddAll(items, selected, products);
      AddAllContains(items, front, products);
      assert forall i :: 0 <= i < |front| ==> selected[i] == front[i];
      match FindProduct(products, last.0)
      case Some(p) =>
        assert r == Added(prev, p, last.1);
        AddedKeepsIds(prev, p, last.1);
      case None =>
        assert r == prev;
    }
  }

  /**
   * The loop of `handleAddToCart`: each selected entry that names a catalogue
   * product is added to the cart, in selection order, and counted.
   */
  method AddSelected(cart: CartStore, selected: seq<(string, int)>, products: seq<Product>) returns (added: nat)
    modifies cart
    ensures cart.items == AddAll(old(cart.items), selected, products)
    ensures added == Matched(selected, products)
    ensures cart.isOpen == old(cart.isOpen)
  {
    added := 0;
    ghost var start := cart.items;
    for n := 0 to |selected|
      invariant AddedSoFar(cart.items, added, start, selected, n, products)
      invariant cart.isOpen == old(cart.isOpen)
    {
      var (id, qty) := selected[n];
      var product := FindProduct(products, id);
      ghost var before, count := cart.items, added;
      if product.Some? {
        cart.AddItem(product.value, qty);
        added := added + 1;
      }
      AddedStep(before, count, cart.items, added, start, selected, n, products);
    }
    AddedAll(cart.items, added, start, selected, products);
  }

  /** The loop of `handleAddToCart` after `n` entries. */
  ghost predicate AddedSoFar(items: seq<CartItem>, added: nat, start: seq<CartItem>,
                             selected: seq<(string, int)>, n: nat, products: seq<Product>)
  {
    n <= |selected| && items == AddAll(start, selected[..n], products) && added == Matched(selected[..n], products)
  }

  lemma AddedStep(before: seq<CartItem>, count: nat, items: seq<CartItem>, added: nat, start: seq<CartItem>,
                  selected: seq<(string, int)>, n: nat, products: seq<Product>)
    requires n < |selected| && AddedSoFar(before, count, start, selected, n, products)
    requires FindProduct(products, selected[n].0).Some? ==>
      items == Added(before, FindProduct(products, selected[n].0).value, selected[n].1) && added == count + 1
    requires FindProduct(products, selected[n].0).None? ==> items == before && added == count
    ensures AddedSoFar(items, added, start, selected, n + 1, products)
  {
    assert selected[..n + 1][..n] == selected[..n];
  }

  lemma AddedAll(items: seq<CartItem>, added: nat, start: seq<CartItem>,
                 selected: seq<(string, int)>, products: seq<Product>)
    requires AddedSoFar(items, added, start, selected, |selected|, products)
    ensures items == AddAll(start, selected, products) && added == Matched(selected, products)
  {
    assert selected[..|selected|] == selected;
  }

  // ---------------------------------------------------------------------------
  // The page state.
  // ---------------------------------------------------------------------------

  class CatalogueState {
    var products: seq<Product>
    var quantities: map<string, int>
    var keys: seq<string>

    /** The keys are the record's properties, each once, and every quantity is at least zero. */
    ghost predicate Valid()
      reads this
    {
      && Distinct(keys)
      && (forall k :: k in quantities <==> k in keys)
      && (forall k :: k in quantities ==> quantities[k] >= 0)
    }

    /** The page after `fetchProducts` resolved with `products`, nothing selected yet. */
    constructor(products: seq<Product>)
      ensures this.products == products && quantities == map[] && keys == []
      ensures Valid()
    {
      this.products, quantities, keys := products, map[], [];
    }

    /** `quantities[id] || 0`: the selector's displayed value. */
    function Qty(id: string): (q: int)
      reads this
      ensures Valid() ==> q >= 0
      ensures id !in quantities ==> q == 0
    {
      MapGet(quantities, id)
    }

    /** `updateQty`: the ± buttons, never below zero. */
    method UpdateQty(id: string, delta: int)
      modifies this
      ensures quantities == old(quantities)[id := Clamp0(MapGet(old(quantities), id) + delta)]
      ensures keys == if id in old(keys) then old(keys) else old(keys) + [id]
      ensures products == old(products)
      ensures old(Valid()) ==> Valid()
    {
      Store(id, Clamp0(MapGet(quantities, id) + delta));
    }

    /** `setQty(id, parseInt(text) || 0)`: typed input, never below zero. */
    method SetQty(id: string, parsed: Option<int>)
      modifies this
      ensures quantities == old(quantities)[id := Clamp0(InputValue(parsed))]
      ensures keys == if id in old(keys) then old(keys) else old(keys) + [id]
      ensures products == old(products)
      ensures old(Valid()) ==> Valid()
    {
      Store(id, Clamp0(InputValue(parsed)));
    }

    /** `{ ...prev, [id]: v }`. */
    method Store(id: string, v: nat)
      modifies this
      ensures quantities == old(quantities)[id := v]
      ensures keys == if id in old(keys) then old(keys) else old(keys) + [id]
      ensures products == old(products)
      ensures old(Valid()) ==> Valid()
    {
      quantities := quantities[id := v];
      if id !in keys {
        keys := keys + [id];
      }
    }

    /** `selectedItems`. */
    function SelectedItems(): seq<(string, int)>
      reads this
    {
      Selected(quantities, JsKeyOrder(keys))
    }

    /** An entry is selected exactly when its id holds a positive quantity, and then with that quantity. */
    lemma SelectedExactly(id: string, q: int)
      requires Valid()
      ensures (id, q) in SelectedItems() <==> id in quantities && quantities[id] > 0 && q == quantities[id]
    {
      JsKeyOrderPermutes(keys);
      var order := JsKeyOrder(keys);
      if id in quantities && quantities[id] > 0 {
        var i :| 0 <= i < |order| && order[i] == id;
      }
    }

    /** No id is selected twice. */
    lemma SelectedIdsDistinct()
      requires Valid()
      ensures DistinctIds(SelectedItems())
    {
      JsKeyOrderDistinct(keys);
      SelectedDistinct(quantities, JsKeyOrder(keys));
    }

    /**
     * `handleAddToCart`: adds each selected entry that names a catalogue
     * product to the cart, in selection order, counts those, and empties the
     * selection.
     */
    method HandleAddToCart(cart: CartStore) returns (added: nat)
      modifies this, cart
      ensures cart.items == AddAll(old(cart.items), old(SelectedItems()), products)
      ensures added == Matched(old(SelectedItems()), products) && added <= |old(SelectedItems())|
      ensures quantities == map[] && keys == [] && products == old(products)
      ensures cart.isOpen == old(cart.isOpen)
      ensures Valid()
    {
      added := AddSelected(cart, SelectedItems(), products);
      quantities, keys := map[], [];
    }
  }

  /** The − button at zero stays at zero; typed text that does not parse, or a negative number, stores zero. */
  lemma SelectorExamples()
    ensures Clamp0(0 + -1) == 0 && Clamp0(3 + 1) == 4
    ensures Clamp0(InputValue(None)) == 0 && Clamp0(InputValue(Some(-5))) == 0 && Clamp0(InputValue(Some(12))) == 12
  {
  }
}

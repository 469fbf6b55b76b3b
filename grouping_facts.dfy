/**
 * What the product cards of an order document promise: one card per distinct
 * title, the first item of a title supplies the card's image, SKU and unit
 * price, and no piece or cent is lost or counted twice.
 */
module GroupingFacts {
  import opened Wrappers
  import opened Seqs
  import opened KeyOrder
  import opened Sizes
  import opened Grouping
  import opened Text

  function Qty(x: OrderItem): int { x.quantity }

  function Eur(x: OrderItem): int { x.totalPrice }

  /** Items are grouped by exact product-title equality. */
  function TitleKey(x: OrderItem): Option<string> { Some(x.productTitle) }

  /** The size bucket an item lands in, if any. */
  function SizeKey(x: OrderItem): Option<string> { ExtractSize(x.variantTitle) }

  function CardPcs(g: GroupedProduct): int { g.totalPcs }

  function CardEur(g: GroupedProduct): int { g.totalEur }

  /** The distinct sizes of a list of items, in order of first appearance. */
  function SizeKeys(xs: seq<OrderItem>): seq<string>
  {
    Dedup(KeyList(SizeKey, xs))
  }

  /** `sizes[k] || 0` as a function of the size. */
  function SizeCount(m: map<string, int>): string -> int
  {
    k => MapGet(m, k)
  }

  // ---------------------------------------------------------------------------
  // Titles and order of the cards.
  // ---------------------------------------------------------------------------

  /** Card `i` is the card of the `i`-th key in the object's enumeration order. */
  lemma CardTitles(items: seq<OrderItem>)
    ensures var g, ts := Grouped(items), JsKeyOrder(Titles(items));
      |g| == |ts| == |Titles(items)| && forall i :: 0 <= i < |g| ==> g[i].productTitle == ts[i]
  {
    GroupableKeys(items, Titles(items));
    JsKeyOrderPermutes(Titles(items));
  }

  /** There is exactly one card per distinct product title of the items. */
  lemma GroupedTitles(items: seq<OrderItem>)
    ensures var g := Grouped(items);
      && |g| == |Titles(items)|
      && (forall i, j :: 0 <= i < j < |g| ==> g[i].productTitle != g[j].productTitle)
      && (forall i :: 0 <= i < |g| ==> g[i].productTitle in TitleList(items))
      && (forall i :: 0 <= i < |items| ==> exists j :: 0 <= j < |g| && g[j].productTitle == items[i].productTitle)
  {
    var g, ts := Grouped(items), JsKeyOrder(Titles(items));
    CardTitles(items);
    JsKeyOrderDistinct(Titles(items));
    assert Distinct(ts);
    JsKeyOrderPermutes(Titles(items));
    forall i | 0 <= i < |g|
      ensures g[i].productTitle in TitleList(items)
    {
      assert ts[i] in Titles(items);
    }
    forall i | 0 <= i < |items|
      ensures exists j :: 0 <= j < |g| && g[j].productTitle == items[i].productTitle
    {
      var t := items[i].productTitle;
      assert TitleList(items)[i] == t;
      assert t in ts;
      var j :| 0 <= j < |ts| && ts[j] == t;
      assert g[j].productTitle == t;
    }
  }

  /**
   * When no title is an array index ("123"), the cards come in the order in
   * which their titles first appear among the items.
   */
  lemma GroupedFirstAppearance(items: seq<OrderItem>)
    requires forall i :: 0 <= i < |items| ==> !IsArrayIndex(items[i].productTitle)
    ensures var g := Grouped(items);
      && |g| == |Titles(items)|
      && (forall i :: 0 <= i < |g| ==> g[i].productTitle == Titles(items)[i])
      && (forall i, j :: 0 <= i < j < |g| ==>
            FirstIndex(TitleList(items), g[i].productTitle) < FirstIndex(TitleList(items), g[j].productTitle))
  {
    var ts := Titles(items);
    TitlesNotIndices(items);
    JsKeyOrderNoIndexKeys(ts);
    GroupableKeys(items, ts);
    var g := Grouped(items);
    assert g == GroupsFor(items, ts);
    assert forall i :: 0 <= i < |g| ==> g[i].productTitle == ts[i];
    DedupFirstOccurrenceOrder(TitleList(items));
  }

  lemma TitlesNotIndices(items: seq<OrderItem>)
    requires forall i :: 0 <= i < |items| ==> !IsArrayIndex(items[i].productTitle)
    ensures forall i :: 0 <= i < |Titles(items)| ==> !IsArrayIndex(Titles(items)[i])
  {
    var ts := Titles(items);
    forall i | 0 <= i < |ts|
      ensures !IsArrayIndex(ts[i])
    {
      var k :| 0 <= k < |items| && TitleList(items)[k] == ts[i];
    }
  }

  // ---------------------------------------------------------------------------
  // The first item of a title supplies the card's fixed fields.
  // ---------------------------------------------------------------------------

  /** `FirstWith` finds the item at the first index carrying the title. */
  lemma {:induction false} FirstWithIsFirst(items: seq<OrderItem>, t: string)
    ensures FirstWith(items, t) ==
      if t in TitleList(items) then Some(items[FirstIndex(TitleList(items), t)]) else None
  {
    if items != [] {
      var p, x := items[..|items| - 1], items[|items| - 1];
      FirstWithIsFirst(p, t);
      var tl := TitleList(items);
      assert tl == TitleList(p) + [x.productTitle];
      if t in TitleList(p) {
        FirstIndexSnoc(TitleList(p), x.productTitle, t);
      } else if x.productTitle == t {
        assert tl[..|p|] == TitleList(p);
        assert FirstIndex(tl, t) == |p|;
      }
    }
  }

  // ---------------------------------------------------------------------------
  // Totals.
  // ---------------------------------------------------------------------------

  /** A card's pieces and value are the sums over exactly the items of its title. */
  lemma {:induction false} ItemsWithBuckets(items: seq<OrderItem>, t: string)
    ensures SumQty(ItemsWith(items, t)) == Bucket(TitleKey, Qty, items, t)
    ensures SumEur(ItemsWith(items, t)) == Bucket(TitleKey, Eur, items, t)
  {
    if items != [] {
      var p, x := items[..|items| - 1], items[|items| - 1];
      ItemsWithBuckets(p, t);
      var xs := ItemsWith(items, t);
      if x.productTitle == t {
        assert xs == ItemsWith(p, t) + [x];
        assert xs[..|xs| - 1] == ItemsWith(p, t);
      } else {
        assert xs == ItemsWith(p, t);
      }
    }
  }

  lemma {:induction false} TitleKeyList(items: seq<OrderItem>)
    ensures KeyList(TitleKey, items) == TitleList(items)
  {
    if items != [] {
      TitleKeyList(items[..|items| - 1]);
    }
  }

  lemma {:induction false} SumsAreSumBy(xs: seq<OrderItem>)
    ensures SumQty(xs) == SumBy(Qty, xs)
    ensures SumEur(xs) == SumBy(Eur, xs)
  {
    if xs != [] {
      SumsAreSumBy(xs[..|xs| - 1]);
    }
  }

  /** The cards' pieces add up to the pieces of all items. */
  lemma GroupedPieces(items: seq<OrderItem>)
    ensures SumBy(CardPcs, Grouped(items)) == SumQty(items)
  {
    var g, ts, f := Grouped(items), JsKeyOrder(Titles(items)), BucketOf(TitleKey, Qty, items);
    GroupableKeys(items, Titles(items));
    forall i | 0 <= i < |g|
      ensures CardPcs(g[i]) == f(ts[i])
    {
      ItemsWithBuckets(items, ts[i]);
    }
    SumByMatch(CardPcs, g, f, ts);
    JsKeyOrderSum(f, Titles(items));
    TitleKeyList(items);
    BucketsPartition(TitleKey, Qty, items);
    SumByAgree(KeyedWeight(TitleKey, Qty), Qty, items);
    SumsAreSumBy(items);
  }

  /** The cards' values add up to the value of all items. */
  lemma GroupedValue(items: seq<OrderItem>)
    ensures SumBy(CardEur, Grouped(items)) == SumEur(items)
  {
    var g, ts, f := Grouped(items), JsKeyOrder(Titles(items)), BucketOf(TitleKey, Eur, items);
    GroupableKeys(items, Titles(items));
    forall i | 0 <= i < |g|
      ensures CardEur(g[i]) == f(ts[i])
    {
      ItemsWithBuckets(items, ts[i]);
    }
    SumByMatch(CardEur, g, f, ts);
    JsKeyOrderSum(f, Titles(items));
    TitleKeyList(items);
    BucketsPartition(TitleKey, Eur, items);
    SumByAgree(KeyedWeight(TitleKey, Eur), Eur, items);
    SumsAreSumBy(items);
  }

  // ---------------------------------------------------------------------------
  // Size buckets.
  // ---------------------------------------------------------------------------

  /**
   * A size bucket holds the total quantity of the items whose variant yields
   * that size, and a bucket exists exactly for the sizes some item yields.
   */
  lemma {:induction false} SizeTallyBuckets(xs: seq<OrderItem>)
    ensures forall k :: MapGet(SizeTally(xs), k) == Bucket(SizeKey, Qty, xs, k)
    ensures forall k :: k in SizeTally(xs) <==> k in KeyList(SizeKey, xs)
  {
    if xs != [] {
      SizeTallyBuckets(xs[..|xs| - 1]);
    }
  }

  /** An item with a size adds its quantity to that size's bucket. */
  lemma SizeTallySnoc(xs: seq<OrderItem>, x: OrderItem, k: string)
    requires ExtractSize(x.variantTitle) == Some(k)
    ensures SizeTally(xs + [x]) == SizeTally(xs)[k := MapGet(SizeTally(xs), k) + x.quantity]
  {
    assert (xs + [x])[..|xs|] == xs;
  }

  /**
   * The size buckets add up to the quantity of the sized items; with
   * non-negative quantities that is at most the card's piece count, and all of
   * it when every item has a size.
   */
  lemma SizesAddUp(xs: seq<OrderItem>)
    ensures SumBy(SizeCount(SizeTally(xs)), SizeKeys(xs)) == SumBy(KeyedWeight(SizeKey, Qty), xs)
    ensures (forall i :: 0 <= i < |xs| ==> xs[i].quantity >= 0) ==>
              SumBy(SizeCount(SizeTally(xs)), SizeKeys(xs)) <= SumQty(xs)
    ensures (forall i :: 0 <= i < |xs| ==> SizeKey(xs[i]).Some?) ==>
              SumBy(SizeCount(SizeTally(xs)), SizeKeys(xs)) == SumQty(xs)
  {
    SizeTallyBuckets(xs);
    SumByAgree(SizeCount(SizeTally(xs)), BucketOf(SizeKey, Qty, xs), SizeKeys(xs));
    BucketsPartition(SizeKey, Qty, xs);
    SumsAreSumBy(xs);
    if forall i :: 0 <= i < |xs| ==> xs[i].quantity >= 0 {
      SumByMono(KeyedWeight(SizeKey, Qty), Qty, xs);
    }
    if forall i :: 0 <= i < |xs| ==> SizeKey(xs[i]).Some? {
      SumByAgree(KeyedWeight(SizeKey, Qty), Qty, xs);
    }
  }

  // ---------------------------------------------------------------------------
  // One card.
  // ---------------------------------------------------------------------------

  /**
   * Card `j`: image, SKU and unit price of the first item with its title;
   * pieces and value summed over the items with its title; each size bucket
   * summed over the items with its title and that size.
   */
  lemma GroupedCard(items: seq<OrderItem>, j: int)
    requires 0 <= j < |Grouped(items)|
    ensures var c := Grouped(items)[j];
      && c.productTitle in TitleList(items)
      && var first := items[FirstIndex(TitleList(items), c.productTitle)];
      && first.productTitle == c.productTitle
      && c.imageUrl == first.imageUrl && c.sku == first.sku && c.unitPrice == first.unitPrice
      && c.totalPcs == Bucket(TitleKey, Qty, items, c.productTitle)
      && c.totalEur == Bucket(TitleKey, Eur, items, c.productTitle)
      && (forall k :: MapGet(c.sizes, k) == Bucket(SizeKey, Qty, ItemsWith(items, c.productTitle), k))
      && (forall k :: k in c.sizes <==> k in KeyList(SizeKey, ItemsWith(items, c.productTitle)))
  {
    var ts := JsKeyOrder(Titles(items));
    GroupableKeys(items, Titles(items));
    var t := ts[j];
    FirstWithIsFirst(items, t);
    ItemsWithBuckets(items, t);
    SizeTallyBuckets(ItemsWith(items, t));
  }

  /** With non-negative quantities a card's size buckets never exceed its piece count. */
  lemma CardSizesWithinPieces(items: seq<OrderItem>, j: int)
    requires 0 <= j < |Grouped(items)|
    requires forall i :: 0 <= i < |items| ==> items[i].quantity >= 0
    ensures var c := Grouped(items)[j];
      SumBy(SizeCount(c.sizes), SizeKeys(ItemsWith(items, c.productTitle))) <= c.totalPcs
  {
    var ts := JsKeyOrder(Titles(items));
    GroupableKeys(items, Titles(items));
    var xs := ItemsWith(items, ts[j]);
    ItemsWithAreFrom(items, ts[j]);
    SizesAddUp(xs);
  }

  /** The items of a title are items of the order. */
  lemma {:induction false} ItemsWithAreFrom(items: seq<OrderItem>, t: string)
    ensures forall x :: x in ItemsWith(items, t) ==> x in items && x.productTitle == t
  {
    if items != [] {
      ItemsWithAreFrom(items[..|items| - 1], t);
    }
  }

  // ---------------------------------------------------------------------------
  // Worked examples.
  // ---------------------------------------------------------------------------

  /** Two sizes of one shoe make one card with both size buckets. */
  lemma RunnerExample()
    ensures var a := OrderItem("a", "Runner X", Some("41"), None, 2, 5000, 10000, None);
            var b := OrderItem("b", "Runner X", Some("42"), None, 3, 5000, 15000, None);
            Grouped([a, b]) == [GroupedProduct("Runner X", None, None, 5000, 5, 25000, map["41" := 2, "42" := 3])]
  {
    var a := OrderItem("a", "Runner X", Some("41"), None, 2, 5000, 10000, None);
    var b := OrderItem("b", "Runner X", Some("42"), None, 3, 5000, 15000, None);
    var items := [a, b];
    RunnerItems(a, b);
    RunnerSizes(a, b);
    JsKeyOrderNoIndexKeys(["Runner X"]);
    assert Grouped(items) == [GroupFor(items, "Runner X")];
  }

  lemma RunnerItems(a: OrderItem, b: OrderItem)
    requires a == OrderItem("a", "Runner X", Some("41"), None, 2, 5000, 10000, None)
    requires b == OrderItem("b", "Runner X", Some("42"), None, 3, 5000, 15000, None)
    ensures Titles([a, b]) == ["Runner X"]
    ensures ItemsWith([a, b], "Runner X") == [a, b]
    ensures FirstWith([a, b], "Runner X") == Some(a)
    ensures SumQty([a, b]) == 5 && SumEur([a, b]) == 25000
  {
    SameTitlePair(a, b, "Runner X");
    PairSums(a, b);
  }

  /** Two items with one title: one title, both items in the group, seeded by the first. */
  lemma SameTitlePair(a: OrderItem, b: OrderItem, t: string)
    requires a.productTitle == t && b.productTitle == t
    ensures Titles([a, b]) == [t]
    ensures ItemsWith([a, b], t) == [a, b]
    ensures FirstWith([a, b], t) == Some(a)
  {
    var items := [a, b];
    assert items[..1] == [a];
    assert [a][..0] == [];
    SameTitleList(a, b, t);
    assert ItemsWith([a], t) == [a];
    assert FirstWith([a], t) == Some(a);
  }

  lemma SameTitleList(a: OrderItem, b: OrderItem, t: string)
    requires a.productTitle == t && b.productTitle == t
    ensures Titles([a, b]) == [t]
  {
    var items := [a, b];
    assert items[..1] == [a];
    assert [a][..0] == [];
    assert TitleList(items) == [t] + [t];
    DedupSnoc([], t);
    DedupSnoc([t], t);
  }

  lemma PairSums(a: OrderItem, b: OrderItem)
    ensures SumQty([a, b]) == a.quantity + b.quantity
    ensures SumEur([a, b]) == a.totalPrice + b.totalPrice
  {
    var items := [a, b];
    assert items[..1] == [a];
    assert [a][..0] == [];
    assert SumQty([a]) == a.quantity && SumEur([a]) == a.totalPrice;
  }

  lemma RunnerSizes(a: OrderItem, b: OrderItem)
    requires a == OrderItem("a", "Runner X", Some("41"), None, 2, 5000, 10000, None)
    requires b == OrderItem("b", "Runner X", Some("42"), None, 3, 5000, 15000, None)
    ensures SizeTally([a, b]) == map["41" := 2, "42" := 3]
  {
    assert ExtractSize(Some("41")) == Some("41") by {
      assert "41"[0..2] == "41";
    }
    assert ExtractSize(Some("42")) == Some("42") by {
      assert "42"[0..2] == "42";
    }
    SizeTallySnoc([], a, "41");
    assert [] + [a] == [a];
    assert SizeTally([a]) == map["41" := 2];
    SizeTallySnoc([a], b, "42");
    assert [a] + [b] == [a, b];
  }

  /** A title that is an array index is enumerated ahead of the others. */
  lemma NumericTitleFirstExample()
    ensures var a := OrderItem("a", "Runner X", None, None, 1, 5000, 5000, None);
            var b := OrderItem("b", "2024", None, None, 1, 7000, 7000, None);
            var g := Grouped([a, b]);
            |g| == 2 && g[0].productTitle == "2024" && g[1].productTitle == "Runner X"
  {
    var a := OrderItem("a", "Runner X", None, None, 1, 5000, 5000, None);
    var b := OrderItem("b", "2024", None, None, 1, 7000, 7000, None);
    TwoTitles(a, b);
    MixedKeyOrder(["Runner X", "2024"]);
    CardTitles([a, b]);
  }

  /** Two items with different titles give both titles, in order. */
  lemma TwoTitles(a: OrderItem, b: OrderItem)
    requires a.productTitle != b.productTitle
    ensures Titles([a, b]) == [a.productTitle, b.productTitle]
  {
    var items := [a, b];
    assert items[..1] == [a];
    assert [a][..0] == [];
    assert TitleList(items) == [a.productTitle] + [b.productTitle];
    DedupSnoc([], a.productTitle);
    DedupSnoc([a.productTitle], b.productTitle);
  }

  lemma MixedKeyOrder(ts: seq<string>)
    requires ts == ["Runner X", "2024"]
    ensures JsKeyOrder(ts) == ["2024", "Runner X"]
  {
    YearIsIndex("2024");
    assert !IsArrayIndex("Runner X") by {
      assert !IsDigit("Runner X"[0]);
    }
    assert ts[..1] == ["Runner X"];
    assert ["Runner X"][..0] == [];
    assert IndexKeys(["Runner X"]) == [] && OtherKeys(["Runner X"]) == ["Runner X"];
    assert IndexKeys(ts) == ["2024"];
    assert OtherKeys(ts) == ["Runner X"];
    assert SortByIndex(["2024"]) == ["2024"];
  }

  lemma YearIsIndex(k: string)
    requires k == "2024"
    ensures IsArrayIndex(k)
  {
    assert DigitsValue(k) == 2024 by {
      assert k[..3] == "202" && "202"[..2] == "20" && "20"[..1] == "2" && "2"[..0] == "";
    }
  }
}

/**
 * The size bar under a product card: a fixed header row of the shoe sizes
 * 36 to 47 and, below it, the quantity of each size from the card's size map
 * or a placeholder.
 */
module SizeBar {
  import opened Text
  import opened Seqs
  import opened Grouping

  /** `ALL_SIZES`. */
  const AllSizes: seq<nat> := [36, 37, 38, 39, 40, 41, 42, 43, 44, 45, 46, 47]

  /** A cell of the quantity row. The placeholder glyph itself is left abstract. */
  datatype Cell = Qty(n: int) | Placeholder

  /** `String(sz)`: the key a column looks up. */
  function ColumnKey(sz: nat): string
  {
    NatToString(sz)
  }

  /** `sizes[String(sz)] || placeholder`: a missing or zero quantity shows the placeholder. */
  function QtyCell(sizes: map<string, int>, sz: nat): (c: Cell)
    ensures c.Qty? <==> MapGet(sizes, ColumnKey(sz)) != 0
    ensures c.Qty? ==> c.n == sizes[ColumnKey(sz)]
  {
    var key := ColumnKey(sz);
    if key in sizes && sizes[key] != 0 then Qty(sizes[key]) else Placeholder
  }

  /** The header row: the column labels. */
  function HeaderRow(): (labels: seq<nat>)
    ensures |labels| == 12
    ensures forall i :: 0 <= i < 12 ==> labels[i] == 36 + i
  {
    AllSizes
  }

  /** The quantity row: one cell per column, in column order. */
  function QtyRow(sizes: map<string, int>): (row: seq<Cell>)
    ensures |row| == |HeaderRow()|
    ensures forall i :: 0 <= i < |row| ==> row[i] == QtyCell(sizes, HeaderRow()[i])
  {
    seq(|AllSizes|, i requires 0 <= i < |AllSizes| => QtyCell(sizes, AllSizes[i]))
  }

  /** The column of size `sz` shows how many of that size the map holds, or the placeholder. */
  lemma QtyRowAt(sizes: map<string, int>, sz: nat)
    requires 36 <= sz <= 47
    ensures var c := QtyRow(sizes)[sz - 36];
      && (c == Placeholder <==> MapGet(sizes, ColumnKey(sz)) == 0)
      && (c != Placeholder ==> c == Qty(sizes[ColumnKey(sz)]))
  {
  }

  /**
   * Only the twelve column keys matter: two size maps that agree on them give
   * the same bar, so sizes such as "35", "48" to "50" or verbatim variant titles
   * are never shown.
   */
  lemma QtyRowOnlyReadsColumns(m1: map<string, int>, m2: map<string, int>)
    requires forall sz :: 36 <= sz <= 47 ==> MapGet(m1, ColumnKey(sz)) == MapGet(m2, ColumnKey(sz))
    ensures QtyRow(m1) == QtyRow(m2)
  {
    var r1, r2 := QtyRow(m1), QtyRow(m2);
    forall i | 0 <= i < |r1|
      ensures r1[i] == r2[i]
    {
      assert HeaderRow()[i] == 36 + i;
    }
  }

  /**
   * Writing a key that is not the decimal form of a size 36 to 47 (such as
   * "35", "48", "50" or "One Size") does not change the bar.
   */
  lemma NonColumnKeyHidden(m: map<string, int>, k: string, v: int)
    requires !(AllDigits(k) && 36 <= DigitsValue(k) <= 47)
    ensures QtyRow(m[k := v]) == QtyRow(m)
  {
    forall sz | 36 <= sz <= 47
      ensures MapGet(m[k := v], ColumnKey(sz)) == MapGet(m, ColumnKey(sz))
    {
      NatToStringValue(sz);
    }
    QtyRowOnlyReadsColumns(m[k := v], m);
  }

  /** An empty size map gives a row of placeholders. */
  lemma EmptyBar()
    ensures forall i :: 0 <= i < |QtyRow(map[])| ==> QtyRow(map[])[i] == Placeholder
  {
  }
}

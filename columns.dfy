/**
 * The props of a leaf column as the cell group and the column selectors
 * read them, and the running sum of their widths.
 */
module Columns {

  /** A column's props, as far as the selector and the cell group read
      them (the width helper works on column elements instead). An empty `columnKey` stands for a missing key, which
      is falsy in the same way. */
  datatype ColumnProps = ColumnProps(
    columnKey: string,
    width: real,
    allowCellsRecycling: bool)

  /** The sum of the widths, added from left to right (sumPropWidths, and the
      running totals the selector and the render loop keep). These read the
      plain props of leaf columns; WidthHelper.TotalWidth is the same fold
      over column elements, which the width helper rebuilds as a tree. */
  function SumWidths(cs: seq<ColumnProps>): real {
    if cs == [] then 0.0 else SumWidths(cs[..|cs| - 1]) + cs[|cs| - 1].width
  }

  /** Appending a column adds exactly its width. */
  lemma SumWidthsSnoc(cs: seq<ColumnProps>, c: ColumnProps)
    ensures SumWidths(cs + [c]) == SumWidths(cs) + c.width
  {
    assert (cs + [c])[..|cs|] == cs;
  }

  /** The sum over a concatenation is the sum of the sums. */
  lemma {:induction false} SumWidthsAppend(a: seq<ColumnProps>, b: seq<ColumnProps>)
    ensures SumWidths(a + b) == SumWidths(a) + SumWidths(b)
    decreases |b|
  {
    if b == [] {
      assert a + b == a;
    } else {
      assert (a + b)[..|a + b| - 1] == a + b[..|b| - 1];
      SumWidthsAppend(a, b[..|b| - 1]);
    }
  }

  /** Non-negative widths have a non-negative sum. */
  lemma {:induction false} SumWidthsNonNeg(cs: seq<ColumnProps>)
    requires forall i :: 0 <= i < |cs| ==> cs[i].width >= 0.0
    ensures SumWidths(cs) >= 0.0
    decreases |cs|
  {
    if cs != [] {
      SumWidthsNonNeg(cs[..|cs| - 1]);
    }
  }

  /** With non-negative widths, a longer prefix never sums to less. */
  lemma {:induction false} SumWidthsPrefixMonotone(cs: seq<ColumnProps>, i: nat, j: nat)
    requires i <= j <= |cs|
    requires forall k :: 0 <= k < |cs| ==> cs[k].width >= 0.0
    ensures SumWidths(cs[..i]) <= SumWidths(cs[..j])
  {
    assert cs[..j] == cs[..i] + cs[i..j];
    SumWidthsAppend(cs[..i], cs[i..j]);
    SumWidthsNonNeg(cs[i..j]);
  }
}

/**
 * The fixed-columns-width selector: the combined width of the columns
 * pinned to the left of the table, which do not scroll horizontally.
 */
module FixedColumnsWidth {
  import opened Columns

  /** The part of the columns selector's result this selector reads: the
      pinned columns and the scrollable ones, as the upstream partition
      hands them over. */
  datatype ColumnsResult = ColumnsResult(
    fixedColumns: seq<ColumnProps>,
    scrollableColumns: seq<ColumnProps>)

  /** The selector body: a loop that adds up the pinned columns' widths.
      The result depends on `fixedColumns` alone. */
  method TotalFixedColumnsWidth(columns: ColumnsResult) returns (totalFixedColumnsWidth: real)
    ensures totalFixedColumnsWidth == SumWidths(columns.fixedColumns)
    ensures columns.fixedColumns == [] ==> totalFixedColumnsWidth == 0.0
    ensures (forall i :: 0 <= i < |columns.fixedColumns| ==> columns.fixedColumns[i].width >= 0.0) ==>
              totalFixedColumnsWidth >= 0.0
  {
    var fixedColumns := columns.fixedColumns;
    totalFixedColumnsWidth := 0.0;
    for columnIdx := 0 to |fixedColumns|
      invariant totalFixedColumnsWidth == SumWidths(fixedColumns[..columnIdx])
    {
      assert fixedColumns[..columnIdx + 1] == fixedColumns[..columnIdx] + [fixedColumns[columnIdx]];
      SumWidthsSnoc(fixedColumns[..columnIdx], fixedColumns[columnIdx]);
      totalFixedColumnsWidth := totalFixedColumnsWidth + fixedColumns[columnIdx].width;
    }
    assert fixedColumns[..|fixedColumns|] == fixedColumns;
    if forall i :: 0 <= i < |fixedColumns| ==> fixedColumns[i].width >= 0.0 {
      SumWidthsNonNeg(fixedColumns);
    }
  }
}

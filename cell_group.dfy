/**
 * The non-rendering logic of a table cell group: which cells of a row are
 * materialised for the current horizontal scroll position, the column keys
 * and widths a header group reports, the per-column recycling override a
 * reordering gesture sets, and when the wrapper re-renders.
 */
module FixedDataTableCellGroup {
  import opened Columns

  datatype Option<T> = None | Some(value: T)

  /** The props a cell group reads. */
  datatype CellGroupProps = CellGroupProps(
    columns: seq<ColumnProps>,
    isScrolling: bool,
    left: real,
    width: real,
    rowIndex: int,
    rowHeight: real,
    isHeader: bool)

  /** The arguments _renderCell receives for one materialised cell. */
  datatype Cell = Cell(
    rowIndex: int,
    height: real,
    column: ColumnProps,
    left: real,
    key: string,
    columnGroupWidth: real)

  /** What getCellGroupWidth returns. */
  datatype CellGroupWidths = CellGroupWidths(keys: seq<string>, widths: seq<real>)

  // ---------------------------------------------------------------------
  // Cell keys
  // ---------------------------------------------------------------------

  function Digit(d: nat): (c: char)
    requires d < 10
    ensures '0' <= c <= '9'
  {
    ('0' as int + d) as char
  }

  /** The decimal digits of `n`, as JavaScript prints a non-negative integer. */
  function DecimalString(n: nat): (s: string)
    ensures |s| >= 1
    ensures forall k :: 0 <= k < |s| ==> '0' <= s[k] <= '9'
  {
    if n < 10 then [Digit(n)] else DecimalString(n / 10) + [Digit(n % 10)]
  }

  /** Reads a string of decimal digits back as a number. */
  function ParseDecimal(s: string): nat
    requires forall k :: 0 <= k < |s| ==> '0' <= s[k] <= '9'
  {
    if s == [] then 0
    else ParseDecimal(s[..|s| - 1]) * 10 + (s[|s| - 1] as int - '0' as int)
  }

  lemma {:induction false} DecimalRoundTrip(n: nat)
    ensures ParseDecimal(DecimalString(n)) == n
  {
    if n >= 10 {
      var s := DecimalString(n);
      assert s[..|s| - 1] == DecimalString(n / 10);
      DecimalRoundTrip(n / 10);
    }
  }

  /** `columnKey || 'cell_' + i`: the key of the cell in column `i`. */
  function CellKey(columnKey: string, i: nat): string {
    if columnKey != "" then columnKey else "cell_" + DecimalString(i)
  }

  /** Columns without a key of their own get pairwise distinct keys. */
  lemma DefaultKeysDistinct(i: nat, j: nat)
    requires i != j
    ensures CellKey("", i) != CellKey("", j)
  {
    if CellKey("", i) == CellKey("", j) {
      assert CellKey("", i)[5..] == DecimalString(i);
      assert CellKey("", j)[5..] == DecimalString(j);
      DecimalRoundTrip(i);
      DecimalRoundTrip(j);
    }
  }

  // ---------------------------------------------------------------------
  // Windowing
  // ---------------------------------------------------------------------

  /** `_.get(recycling, [columnKey], allowCellsRecycling)`: the override for
      the column's key when there is one, else the column's own setting.
      The empty key stands for a missing one here, so a keyless column and
      a column keyed "" share one override; the source stores the keyless
      column's override under "undefined". */
  function IsRecyclable(recycling: map<string, bool>, column: ColumnProps): bool {
    if column.columnKey in recycling then recycling[column.columnKey] else column.allowCellsRecycling
  }

  /** The left edge of column `i`: the widths of the columns before it. */
  function ColumnOffset(columns: seq<ColumnProps>, i: nat): real
    requires i <= |columns|
  {
    SumWidths(columns[..i])
  }

  /** The render loop's visibility test for a column at `position` in a
      group scrolled to `left` and `width` wide. */
  predicate InWindow(position: real, left: real, width: real, columnWidth: real) {
    position - left <= width && position - left + columnWidth >= 0.0
  }

  /** Whether the render loop materialises column `i`: always when it is not
      recyclable, otherwise only when it lies in the window. */
  predicate IsMaterialised(props: CellGroupProps, recycling: map<string, bool>, i: nat)
    requires i < |props.columns|
  {
    !IsRecyclable(recycling, props.columns[i])
    || InWindow(ColumnOffset(props.columns, i), props.left, props.width, props.columns[i].width)
  }

  /** The slot the render loop fills for column `i`: the cell when the
      column is materialised, nothing otherwise. */
  function RenderedSlot(props: CellGroupProps, recycling: map<string, bool>, i: nat, contentWidth: real): Option<Cell>
    requires i < |props.columns|
  {
    if IsMaterialised(props, recycling, i)
    then Some(Cell(props.rowIndex, props.rowHeight, props.columns[i], ColumnOffset(props.columns, i),
                   CellKey(props.columns[i].columnKey, i), contentWidth))
    else None
  }

  predicate InSpan(x: real, lo: real, hi: real) {
    lo <= x <= hi
  }

  /** Two closed spans share a point. */
  ghost predicate Overlaps(lo1: real, hi1: real, lo2: real, hi2: real) {
    exists x :: InSpan(x, lo1, hi1) && InSpan(x, lo2, hi2)
  }

  /** The visibility test holds exactly when the column's span meets the
      visible span [left, left + width]. */
  lemma InWindowIffOverlaps(position: real, left: real, width: real, columnWidth: real)
    requires width >= 0.0 && columnWidth >= 0.0
    ensures InWindow(position, left, width, columnWidth)
            <==> Overlaps(position, position + columnWidth, left, left + width)
  {
    if InWindow(position, left, width, columnWidth) {
      var x := if position >= left then position else left;
      assert InSpan(x, position, position + columnWidth) && InSpan(x, left, left + width);
    }
  }

  /** With non-negative widths, the columns in the window form one run: any
      column between two columns in the window is in the window too. */
  lemma WindowIsContiguous(props: CellGroupProps, i: nat, k: nat, j: nat)
    requires i < k < j < |props.columns|
    requires forall m :: 0 <= m < |props.columns| ==> props.columns[m].width >= 0.0
    requires InWindow(ColumnOffset(props.columns, i), props.left, props.width, props.columns[i].width)
    requires InWindow(ColumnOffset(props.columns, j), props.left, props.width, props.columns[j].width)
    ensures InWindow(ColumnOffset(props.columns, k), props.left, props.width, props.columns[k].width)
  {
    var cs := props.columns;
    SumWidthsPrefixMonotone(cs, i + 1, k);
    SumWidthsPrefixMonotone(cs, k, j);
    assert cs[..i + 1] == cs[..i] + [cs[i]];
    SumWidthsSnoc(cs[..i], cs[i]);
  }

  /** The cell group: its props and the recycling override state. */
  class CellGroupImpl {
    var props: CellGroupProps
    var recycling: map<string, bool>

    constructor (props: CellGroupProps)
      ensures this.props == props && recycling == map[]
    {
      this.props := props;
      recycling := map[];
    }

    /** getCellGroupWidth: for a header group, the key and width of every
        column in order; for any other group, nothing. */
    method GetCellGroupWidth() returns (r: CellGroupWidths)
      ensures !props.isHeader ==> r.keys == [] && r.widths == []
      ensures props.isHeader ==> |r.keys| == |props.columns| && |r.widths| == |props.columns|
      ensures props.isHeader ==> forall i :: 0 <= i < |props.columns| ==>
                r.widths[i] == props.columns[i].width && r.keys[i] == CellKey(props.columns[i].columnKey, i)
    {
      var columns := props.columns;
      var keys, widths := [], [];
      if props.isHeader {
        for i := 0 to |columns|
          invariant |keys| == i && |widths| == i
          invariant forall k :: 0 <= k < i ==> widths[k] == columns[k].width && keys[k] == CellKey(columns[k].columnKey, k)
        {
          var key := CellKey(columns[i].columnKey, i);
          keys := keys + [key];
          widths := widths + [columns[i].width];
        }
      }
      r := CellGroupWidths(keys, widths);
    }

    /** The render loop: walks the columns keeping the running left offset,
        and fills slot `i` of `cells` with the cell of column `i` when that
        column is materialised, leaving the slot empty otherwise. Returns the
        cells and the group's content width. */
    method Render() returns (cells: array<Option<Cell>>, contentWidth: real)
      ensures fresh(cells) && cells.Length == |props.columns|
      ensures contentWidth == SumWidths(props.columns)
      ensures forall i :: 0 <= i < cells.Length ==>
                (cells[i].Some? <==> IsMaterialised(props, recycling, i))
      ensures forall i :: 0 <= i < cells.Length && cells[i].Some? ==>
                cells[i].value == Cell(props.rowIndex, props.rowHeight, props.columns[i],
                                       ColumnOffset(props.columns, i),
                                       CellKey(props.columns[i].columnKey, i), contentWidth)
    {
      var p, rec := props, recycling;
      var columns := p.columns;
      cells := new Option<Cell>[|columns|](_ => None);
      contentWidth := SumWidths(columns);
      var currentPosition := 0.0;
      for i := 0 to |columns|
        invariant currentPosition == ColumnOffset(columns, i)
        invariant forall k :: 0 <= k < i ==> cells[k] == RenderedSlot(p, rec, k, contentWidth)
        invariant forall k :: i <= k < |columns| ==> cells[k] == None
      {
        var columnProps := columns[i];
        var recyclable := IsRecyclable(rec, columnProps);
        if !recyclable || InWindow(currentPosition, p.left, p.width, columnProps.width) {
          var key := CellKey(columnProps.columnKey, i);
          cells[i] := Some(Cell(p.rowIndex, p.rowHeight, columnProps, currentPosition, key, contentWidth));
        }
        assert cells[i] == RenderedSlot(p, rec, i, contentWidth);
        assert columns[..i + 1] == columns[..i] + [columnProps];
        SumWidthsSnoc(columns[..i], columnProps);
        currentPosition := currentPosition + columnProps.width;
      }
    }

    /** toggleCellsRecycling: `false` (a reorder has started) pins recycling
        off for that one column and drops any other override; `true` clears
        every override. */
    method ToggleCellsRecycling(value: bool, columnKey: string)
      modifies this
      ensures props == old(props)
      ensures recycling == if !value then map[columnKey := false] else map[]
      ensures forall c :: IsRecyclable(recycling, c) == (c.allowCellsRecycling && (value || c.columnKey != columnKey))
    {
      if !value {
        recycling := map[columnKey := false];
      } else {
        recycling := map[];
      }
    }
  }

  /** While a column is being reordered its cells are materialised wherever
      the group is scrolled. */
  lemma ReorderedColumnAlwaysMaterialised(props: CellGroupProps, columnKey: string, i: nat)
    requires i < |props.columns| && props.columns[i].columnKey == columnKey
    ensures IsMaterialised(props, map[columnKey := false], i)
  {
  }

  /** The wrapper component around CellGroupImpl. */
  class CellGroup {
    var props: CellGroupProps

    constructor (props: CellGroupProps)
      ensures this.props == props
    {
      this.props := props;
    }

    /** shouldComponentUpdate: re-render unless scrolling with the same row
        and the same horizontal offset. */
    predicate ShouldComponentUpdate(nextProps: CellGroupProps)
      reads this
    {
      !nextProps.isScrolling || props.rowIndex != nextProps.rowIndex || props.left != nextProps.left
    }
  }

  /** A skipped update is safe when the props the window and the cells
      depend on are unchanged: with the same columns, width and row height,
      every slot of the render loop holds the same cell (or none) under the
      old props as under the new ones. Scrolling in place keeps the row and
      the offset by itself; the other three are what the skip takes on trust. */
  lemma SkippedUpdateKeepsWindow(group: CellGroup, nextProps: CellGroupProps, recycling: map<string, bool>,
                                 contentWidth: real)
    requires !group.ShouldComponentUpdate(nextProps)
    requires nextProps.columns == group.props.columns && nextProps.width == group.props.width
    requires nextProps.rowHeight == group.props.rowHeight
    ensures forall i :: 0 <= i < |nextProps.columns| ==>
              IsMaterialised(group.props, recycling, i) == IsMaterialised(nextProps, recycling, i) &&
              RenderedSlot(group.props, recycling, i, contentWidth) == RenderedSlot(nextProps, recycling, i, contentWidth)
  {
  }
}

/**
 * Column-width resolution: flattening a tree of column and column-group
 * elements into its leaf columns, summing widths and flex-grow weights,
 * and spreading the width left over below an expected total across the
 * columns in proportion to their flex-grow weight.
 *
 * Widths and weights are exact reals; a missing flexGrow is 0.
 */
module WidthHelper {

  /** A column element (a leaf, rendered as cells) or a column-group element
      (an interior node whose children are columns or further groups). */
  datatype Column =
    | Leaf(width: real, flexGrow: real)
    | Group(width: real, flexGrow: real, children: seq<Column>)

  /** What distributeFlexWidth returns: the new columns and their total width. */
  datatype Distribution = Distribution(columns: seq<Column>, width: real)

  /** What adjustColumnGroupWidths returns: the rebuilt tree and its leaves. */
  datatype GroupAdjustment = GroupAdjustment(columnGroups: seq<Column>, columns: seq<Column>)

  /** Every column of `cs` has a non-negative flex-grow weight. */
  predicate NonNegFlex(cs: seq<Column>) {
    forall i :: 0 <= i < |cs| ==> cs[i].flexGrow >= 0.0
  }

  /** React.cloneElement(column, {width}): the same element with a new width. */
  function WithWidth(c: Column, width: real): Column {
    match c
    case Leaf(_, flexGrow) => Leaf(width, flexGrow)
    case Group(_, flexGrow, children) => Group(width, flexGrow, children)
  }

  /** Math.max on two numbers. */
  function Max(a: real, b: real): (r: real)
    ensures r >= a && r >= b
    ensures r == a || r == b
  {
    if a >= b then a else b
  }

  // ---------------------------------------------------------------------
  // Flattening
  // ---------------------------------------------------------------------

  /** Reference definition of flattening: the leaf columns of a forest,
      depth-first and left-to-right. */
  function Leaves(cs: seq<Column>): (r: seq<Column>)
    ensures forall i :: 0 <= i < |r| ==> r[i].Leaf?
    decreases cs
  {
    if cs == [] then []
    else (if cs[0].Leaf? then [cs[0]] else Leaves(cs[0].children)) + Leaves(cs[1..])
  }

  /** getNestedColumns: a left fold over `columns` that appends each leaf to
      the accumulator and descends into each group with the accumulator so far. */
  function NestedColumns(columns: seq<Column>, initial: seq<Column>): (r: seq<Column>)
    ensures r == initial + Leaves(columns)
    decreases columns
  {
    if columns == [] then initial
    else
      var prev :=
        if columns[0].Leaf? then initial + [columns[0]]
        else NestedColumns(columns[0].children, initial);
      NestedColumns(columns[1..], prev)
  }

  /** Starting from no columns, getNestedColumns is the flattening. */
  lemma FlattenIsLeaves(cs: seq<Column>)
    ensures NestedColumns(cs, []) == Leaves(cs)
  {
    assert [] + Leaves(cs) == Leaves(cs);
  }

  /** A list that holds only leaf columns flattens to itself. */
  lemma {:induction false} FlattenLeavesOnly(cs: seq<Column>)
    requires forall i :: 0 <= i < |cs| ==> cs[i].Leaf?
    ensures NestedColumns(cs, []) == cs
  {
    LeavesOfLeaves(cs);
  }

  lemma {:induction false} LeavesOfLeaves(cs: seq<Column>)
    requires forall i :: 0 <= i < |cs| ==> cs[i].Leaf?
    ensures Leaves(cs) == cs
  {
    if cs != [] {
      LeavesOfLeaves(cs[1..]);
    }
  }

  // ---------------------------------------------------------------------
  // Sums
  // ---------------------------------------------------------------------

  /** getTotalWidth: the sum of the widths, folded from the left. This is the
      sum over column elements (`column.props.width`); Columns.SumWidths is
      the same fold over the plain column props the selector and the cell
      group read (`fixedColumns[i].width`, `columnProps.width`). */
  function TotalWidth(cs: seq<Column>): (r: real)
  {
    if cs == [] then 0.0 else TotalWidth(cs[..|cs| - 1]) + cs[|cs| - 1].width
  }

  /** Widths that are all non-negative have a non-negative total. */
  lemma {:induction false} TotalWidthNonNeg(cs: seq<Column>)
    requires forall i :: 0 <= i < |cs| ==> cs[i].width >= 0.0
    ensures TotalWidth(cs) >= 0.0
    decreases |cs|
  {
    if cs != [] {
      TotalWidthNonNeg(cs[..|cs| - 1]);
    }
  }

  lemma {:induction false} TotalWidthAppend(a: seq<Column>, b: seq<Column>)
    ensures TotalWidth(a + b) == TotalWidth(a) + TotalWidth(b)
    decreases |b|
  {
    if b == [] {
      assert a + b == a;
    } else {
      assert (a + b)[..|a + b| - 1] == a + b[..|b| - 1];
      TotalWidthAppend(a, b[..|b| - 1]);
    }
  }

  /** getTotalFlexGrow: the sum of the weights that are strictly positive;
      zero, negative and missing weights are skipped. */
  function TotalFlexGrow(cs: seq<Column>): (r: real)
    ensures r >= 0.0
  {
    if cs == [] then 0.0
    else
      var prev := TotalFlexGrow(cs[..|cs| - 1]);
      var g := cs[|cs| - 1].flexGrow;
      if g > 0.0 then prev + g else prev
  }

  /** The positive weights sum to zero exactly when no weight is positive. */
  lemma {:induction false} TotalFlexGrowZero(cs: seq<Column>)
    ensures TotalFlexGrow(cs) == 0.0 <==> forall i :: 0 <= i < |cs| ==> cs[i].flexGrow <= 0.0
    decreases |cs|
  {
    if cs != [] {
      var init := cs[..|cs| - 1];
      TotalFlexGrowZero(init);
      assert forall i :: 0 <= i < |init| ==> init[i] == cs[i];
    }
  }

  /** The positive weights of a concatenation sum to the sums of its parts. */
  lemma {:induction false} TotalFlexGrowAppend(a: seq<Column>, b: seq<Column>)
    ensures TotalFlexGrow(a + b) == TotalFlexGrow(a) + TotalFlexGrow(b)
    decreases |b|
  {
    if b == [] {
      assert a + b == a;
    } else {
      assert (a + b)[..|a + b| - 1] == a + b[..|b| - 1];
      TotalFlexGrowAppend(a, b[..|b| - 1]);
    }
  }

  /** getUnitFlexWidth: the width one unit of flex-grow weight receives. */
  function UnitFlexWidth(columns: seq<Column>, totalFlexWidth: real): (r: real)
    ensures TotalFlexGrow(columns) == 0.0 ==> r == 0.0
    ensures totalFlexWidth >= 0.0 ==> r >= 0.0
  {
    var totalFlexGrow := TotalFlexGrow(columns);
    if totalFlexGrow != 0.0 then totalFlexWidth / totalFlexGrow else 0.0
  }

  /** With some positive weight, the units times the total weight give back
      exactly the width being distributed. */
  lemma UnitFlexWidthSpreads(columns: seq<Column>, totalFlexWidth: real)
    requires TotalFlexGrow(columns) > 0.0
    ensures UnitFlexWidth(columns, totalFlexWidth) * TotalFlexGrow(columns) == totalFlexWidth
  {
  }

  /** addFlexWidth: a column's width after it takes its share of flex width. */
  function AddFlexWidth(width: real, flexGrow: real, unitFlexWidth: real): (r: real)
    ensures flexGrow == 0.0 || unitFlexWidth == 0.0 ==> r == width
    ensures flexGrow >= 0.0 && unitFlexWidth >= 0.0 ==> r >= width
  {
    width + flexGrow * unitFlexWidth
  }

  // ---------------------------------------------------------------------
  // Flat distribution (distributeFlexWidth, adjustColumnWidths)
  // ---------------------------------------------------------------------

  /** One step of distributeFlexWidth's map: a column without a (truthy)
      weight is kept as it is, any other gets a copy with its grown width. */
  function FlexColumn(c: Column, unitFlexWidth: real): Column {
    if c.flexGrow == 0.0 then c
    else WithWidth(c, AddFlexWidth(c.width, c.flexGrow, unitFlexWidth))
  }

  /** The columns distributeFlexWidth builds for a given unit flex width. */
  function FlexColumns(columns: seq<Column>, unitFlexWidth: real): seq<Column> {
    seq(|columns|, i requires 0 <= i < |columns| => FlexColumn(columns[i], unitFlexWidth))
  }

  /** The flat distribution adds exactly one unit per unit of positive weight. */
  lemma FlexColumnsTotal(cs: seq<Column>, unitFlexWidth: real)
    requires NonNegFlex(cs)
    ensures TotalWidth(FlexColumns(cs, unitFlexWidth))
            == TotalWidth(cs) + unitFlexWidth * TotalFlexGrow(cs)
  {
    FlexColumnsGrowth(cs, unitFlexWidth);
    GrowthIsUnitTimesWeight(cs, unitFlexWidth);
  }

  /** The width the flat distribution adds, column by column. */
  function Growth(cs: seq<Column>, unitFlexWidth: real): real {
    if cs == [] then 0.0
    else Growth(cs[..|cs| - 1], unitFlexWidth) + cs[|cs| - 1].flexGrow * unitFlexWidth
  }

  lemma {:induction false} FlexColumnsGrowth(cs: seq<Column>, unitFlexWidth: real)
    ensures TotalWidth(FlexColumns(cs, unitFlexWidth)) == TotalWidth(cs) + Growth(cs, unitFlexWidth)
    decreases |cs|
  {
    if cs == [] {
      assert FlexColumns(cs, unitFlexWidth) == [];
    } else {
      FlexColumnsGrowth(cs[..|cs| - 1], unitFlexWidth);
      FlexColumnsSnoc(cs, unitFlexWidth);
    }
  }

  lemma {:induction false} GrowthIsUnitTimesWeight(cs: seq<Column>, unitFlexWidth: real)
    requires NonNegFlex(cs)
    ensures Growth(cs, unitFlexWidth) == unitFlexWidth * TotalFlexGrow(cs)
    decreases |cs|
  {
    if cs != [] {
      var init, g := cs[..|cs| - 1], cs[|cs| - 1].flexGrow;
      assert NonNegFlex(init);
      GrowthIsUnitTimesWeight(init, unitFlexWidth);
      assert TotalFlexGrow(cs) == TotalFlexGrow(init) + g;
      MulDistributes(unitFlexWidth, TotalFlexGrow(init), g);
    }
  }

  lemma FlexColumnsSnoc(cs: seq<Column>, unitFlexWidth: real)
    requires cs != []
    ensures TotalWidth(FlexColumns(cs, unitFlexWidth))
            == TotalWidth(FlexColumns(cs[..|cs| - 1], unitFlexWidth))
               + cs[|cs| - 1].width + cs[|cs| - 1].flexGrow * unitFlexWidth
  {
    var flexed := FlexColumns(cs, unitFlexWidth);
    assert flexed[..|cs| - 1] == FlexColumns(cs[..|cs| - 1], unitFlexWidth);
  }

  /** With unit width 0 the flat distribution changes nothing. */
  lemma FlexColumnsZeroUnit(cs: seq<Column>)
    ensures FlexColumns(cs, 0.0) == cs
  {
  }

  /** The flat distribution keeps the length and order of the columns and
      changes nothing but widths; columns without weight are kept as they
      are, and with no negative weight and a non-negative unit no column
      narrows. */
  lemma FlexColumnsShape(cs: seq<Column>, unitFlexWidth: real)
    ensures |FlexColumns(cs, unitFlexWidth)| == |cs|
    ensures forall i :: 0 <= i < |cs| ==>
              FlexColumns(cs, unitFlexWidth)[i] == WithWidth(cs[i], FlexColumns(cs, unitFlexWidth)[i].width)
    ensures forall i :: 0 <= i < |cs| && cs[i].flexGrow == 0.0 ==> FlexColumns(cs, unitFlexWidth)[i] == cs[i]
    ensures NonNegFlex(cs) && unitFlexWidth >= 0.0 ==>
              forall i :: 0 <= i < |cs| ==> FlexColumns(cs, unitFlexWidth)[i].width >= cs[i].width
  {
  }

  lemma FlexColumnsPrefix(cs: seq<Column>, i: nat, unitFlexWidth: real)
    requires i < |cs|
    ensures FlexColumns(cs[..i + 1], unitFlexWidth)
            == FlexColumns(cs[..i], unitFlexWidth) + [FlexColumn(cs[i], unitFlexWidth)]
  {
  }

  lemma TotalWidthSnoc(cs: seq<Column>, c: Column)
    ensures TotalWidth(cs + [c]) == TotalWidth(cs) + c.width
  {
    assert (cs + [c])[..|cs|] == cs;
  }

  /** distributeFlexWidth: with no positive room, the columns come back as
      they are; otherwise each weighted column grows by its share, and the
      running `totalWidth` sums the new widths as the map goes. */
  method DistributeFlexWidth(columns: seq<Column>, totalFlexWidth: real) returns (r: Distribution)
    ensures totalFlexWidth <= 0.0 ==> r.columns == columns
    ensures totalFlexWidth > 0.0 ==>
              r.columns == FlexColumns(columns, UnitFlexWidth(columns, totalFlexWidth))
    ensures r.width == TotalWidth(r.columns)
    ensures |r.columns| == |columns|
    ensures forall i :: 0 <= i < |columns| ==>
              r.columns[i] == WithWidth(columns[i], r.columns[i].width)
    ensures forall i :: 0 <= i < |columns| && columns[i].flexGrow == 0.0 ==>
              r.columns[i] == columns[i]
    ensures NonNegFlex(columns) ==>
              forall i :: 0 <= i < |columns| ==> r.columns[i].width >= columns[i].width
    ensures NonNegFlex(columns) && totalFlexWidth > 0.0 && TotalFlexGrow(columns) > 0.0 ==>
              r.width == TotalWidth(columns) + totalFlexWidth
    ensures TotalFlexGrow(columns) == 0.0 ==> r.columns == columns
  {
    if totalFlexWidth <= 0.0 {
      FlexColumnsZeroUnit(columns);
      FlexColumnsShape(columns, 0.0);
      return Distribution(columns, TotalWidth(columns));
    }

    var totalWidth := 0.0;
    var unitFlexWidth := UnitFlexWidth(columns, totalFlexWidth);
    var newColumns := [];
    for i := 0 to |columns|
      invariant newColumns == FlexColumns(columns[..i], unitFlexWidth)
      invariant totalWidth == TotalWidth(newColumns)
    {
      var column := columns[i];
      var newColumn;
      if column.flexGrow == 0.0 {
        newColumn := column;
      } else {
        var newColumnWidth := AddFlexWidth(column.width, column.flexGrow, unitFlexWidth);
        newColumn := WithWidth(column, newColumnWidth);
      }
      totalWidth := totalWidth + newColumn.width;
      TotalWidthSnoc(newColumns, newColumn);
      FlexColumnsPrefix(columns, i, unitFlexWidth);
      newColumns := newColumns + [newColumn];
    }
    assert columns[..|columns|] == columns;
    FlexColumnsShape(columns, unitFlexWidth);
    if NonNegFlex(columns) && TotalFlexGrow(columns) > 0.0 {
      FlexColumnsTotal(columns, unitFlexWidth);
      UnitFlexWidthSpreads(columns, totalFlexWidth);
    }
    if TotalFlexGrow(columns) == 0.0 {
      FlexColumnsZeroUnit(columns);
    }
    r := Distribution(newColumns, totalWidth);
  }

  /** adjustColumnWidths: columns that already fill the expected width are
      returned untouched; otherwise the shortfall is distributed by weight,
      so that with some positive weight the result fills it exactly. */
  method AdjustColumnWidths(columns: seq<Column>, expectedWidth: real) returns (r: seq<Column>)
    ensures TotalWidth(columns) >= expectedWidth ==> r == columns
    ensures TotalWidth(columns) < expectedWidth ==>
              r == FlexColumns(columns, UnitFlexWidth(columns, expectedWidth - TotalWidth(columns)))
    ensures NonNegFlex(columns) && TotalFlexGrow(columns) > 0.0 ==>
              TotalWidth(r) == Max(expectedWidth, TotalWidth(columns))
    ensures |r| == |columns|
    ensures NonNegFlex(columns) ==>
              forall i :: 0 <= i < |columns| ==> r[i].width >= columns[i].width
    ensures TotalFlexGrow(columns) == 0.0 ==> r == columns
  {
    var columnsWidth := TotalWidth(columns);
    if columnsWidth < expectedWidth {
      var distribution := DistributeFlexWidth(columns, expectedWidth - columnsWidth);
      return distribution.columns;
    }
    return columns;
  }

  // ---------------------------------------------------------------------
  // Tree rebuilding (iterateNestedColumns, adjustColumnGroupWidths)
  // ---------------------------------------------------------------------

  /** The tree iterateNestedColumns builds: a leaf takes its flex share, a
      group takes the rebuilt children and their summed width. */
  function RebuildColumns(cs: seq<Column>, unitFlexWidth: real): seq<Column>
    decreases cs
  {
    seq(|cs|, i requires 0 <= i < |cs| => RebuildColumn(cs[i], unitFlexWidth))
  }

  function RebuildColumn(c: Column, unitFlexWidth: real): Column
    decreases c
  {
    match c
    case Leaf(width, flexGrow) => Leaf(AddFlexWidth(width, flexGrow, unitFlexWidth), flexGrow)
    case Group(_, flexGrow, children) =>
      var inner := RebuildColumns(children, unitFlexWidth);
      Group(TotalWidth(inner), flexGrow, inner)
  }

  /** Every group's width is the sum of its direct children's widths, at
      every level of the tree. */
  ghost predicate Conserved(cs: seq<Column>)
    decreases cs
  {
    forall i :: 0 <= i < |cs| ==>
      cs[i].Group? ==> cs[i].width == TotalWidth(cs[i].children) && Conserved(cs[i].children)
  }

  /** Two forests with the same structure: leaves against leaves, groups
      against groups with equally shaped children, weights the same. */
  ghost predicate SameShape(a: seq<Column>, b: seq<Column>)
    decreases a
  {
    |a| == |b| &&
    forall i :: 0 <= i < |a| ==>
      a[i].Leaf? == b[i].Leaf? && a[i].flexGrow == b[i].flexGrow &&
      (a[i].Group? ==> SameShape(a[i].children, b[i].children))
  }

  /** iterateNestedColumns: maps over `columns`, rebuilding each; a group
      recurses with its own accumulator as the counter, and every rebuilt
      element charges its width to the counter of its parent (`counted`). */
  method IterateNestedColumns(columns: seq<Column>, unitFlexWidth: real)
    returns (newColumns: seq<Column>, counted: real)
    ensures newColumns == RebuildColumns(columns, unitFlexWidth)
    ensures counted == TotalWidth(newColumns)
    decreases columns
  {
    newColumns := [];
    counted := 0.0;
    for i := 0 to |columns|
      invariant newColumns == RebuildColumns(columns[..i], unitFlexWidth)
      invariant counted == TotalWidth(newColumns)
    {
      var column := columns[i];
      var newColumn;
      match column {
        case Leaf(width, flexGrow) =>
          newColumn := Leaf(AddFlexWidth(width, flexGrow, unitFlexWidth), flexGrow);
        case Group(_, flexGrow, children) =>
          var innerColumns, width := IterateNestedColumns(children, unitFlexWidth);
          newColumn := Group(width, flexGrow, innerColumns);
      }
      counted := counted + newColumn.width;
      assert (newColumns + [newColumn])[..|newColumns|] == newColumns;
      newColumns := newColumns + [newColumn];
      assert newColumns == RebuildColumns(columns[..i + 1], unitFlexWidth);
    }
    assert columns[..|columns|] == columns;
  }

  /** Rebuilding keeps group widths equal to the sum of their children. */
  lemma {:induction false} RebuildConserves(cs: seq<Column>, unitFlexWidth: real)
    ensures Conserved(RebuildColumns(cs, unitFlexWidth))
    decreases cs
  {
    var r := RebuildColumns(cs, unitFlexWidth);
    forall i | 0 <= i < |r|
      ensures r[i].Group? ==> r[i].width == TotalWidth(r[i].children) && Conserved(r[i].children)
    {
      assert r[i] == RebuildColumn(cs[i], unitFlexWidth);
      if cs[i].Group? {
        RebuildConserves(cs[i].children, unitFlexWidth);
      }
    }
  }

  /** Rebuilding keeps the shape of the tree and every weight. */
  lemma {:induction false} RebuildSameShape(cs: seq<Column>, unitFlexWidth: real)
    ensures SameShape(cs, RebuildColumns(cs, unitFlexWidth))
    decreases cs
  {
    var r := RebuildColumns(cs, unitFlexWidth);
    forall i | 0 <= i < |cs| && cs[i].Group?
      ensures SameShape(cs[i].children, r[i].children)
    {
      RebuildSameShape(cs[i].children, unitFlexWidth);
    }
  }

  lemma RebuildColumnsAppend(a: seq<Column>, b: seq<Column>, unitFlexWidth: real)
    ensures RebuildColumns(a + b, unitFlexWidth)
            == RebuildColumns(a, unitFlexWidth) + RebuildColumns(b, unitFlexWidth)
  {
  }

  /** Flattening commutes with rebuilding: the leaves of the rebuilt tree are
      the rebuilt leaves of the original tree, in the same order. */
  lemma {:induction false} FlattenRebuilt(cs: seq<Column>, unitFlexWidth: real)
    ensures Leaves(RebuildColumns(cs, unitFlexWidth)) == RebuildColumns(Leaves(cs), unitFlexWidth)
    decreases cs
  {
    if cs != [] {
      var r := RebuildColumns(cs, unitFlexWidth);
      assert r[1..] == RebuildColumns(cs[1..], unitFlexWidth);
      FlattenRebuilt(cs[1..], unitFlexWidth);
      var head := if cs[0].Leaf? then [cs[0]] else Leaves(cs[0].children);
      if cs[0].Group? {
        FlattenRebuilt(cs[0].children, unitFlexWidth);
      }
      RebuildColumnsAppend(head, Leaves(cs[1..]), unitFlexWidth);
    }
  }

  /** In a conserved tree the top-level widths add up to the leaf widths. */
  lemma {:induction false} ConservedTotal(cs: seq<Column>)
    requires Conserved(cs)
    ensures TotalWidth(cs) == TotalWidth(Leaves(cs))
    decreases cs
  {
    if cs != [] {
      assert cs == [cs[0]] + cs[1..];
      TotalWidthAppend([cs[0]], cs[1..]);
      assert Conserved(cs[1..]) by {
        forall i | 0 <= i < |cs[1..]| ensures cs[1..][i] == cs[i + 1] { }
      }
      ConservedTotal(cs[1..]);
      var head := if cs[0].Leaf? then [cs[0]] else Leaves(cs[0].children);
      TotalWidthAppend(head, Leaves(cs[1..]));
      if cs[0].Group? {
        ConservedTotal(cs[0].children);
      } else {
        assert TotalWidth([cs[0]]) == TotalWidth([]) + cs[0].width;
      }
      assert TotalWidth([cs[0]]) == cs[0].width by {
        assert [cs[0]][..0] == [];
      }
    }
  }

  /** A unit of zero gives back a tree whose groups already sum their
      children, unchanged at every level. */
  lemma {:induction false} ConservedZeroUnit(cs: seq<Column>)
    requires Conserved(cs)
    ensures RebuildColumns(cs, 0.0) == cs
    decreases cs
  {
    forall i | 0 <= i < |cs|
      ensures RebuildColumn(cs[i], 0.0) == cs[i]
    {
      if cs[i].Group? {
        ConservedZeroUnit(cs[i].children);
      }
    }
  }

  /** On a list of leaves the tree rebuild and the flat distribution agree. */
  lemma RebuildLeavesIsFlex(ls: seq<Column>, unitFlexWidth: real)
    requires forall i :: 0 <= i < |ls| ==> ls[i].Leaf?
    ensures RebuildColumns(ls, unitFlexWidth) == FlexColumns(ls, unitFlexWidth)
  {
  }

  /** The unit flex width adjustColumnGroupWidths computes from the leaf
      columns: the room left below `expectedWidth` (never negative) over
      their total positive weight. */
  function FillUnitFlexWidth(columns: seq<Column>, expectedWidth: real): (r: real)
    ensures r >= 0.0
    ensures TotalWidth(columns) >= expectedWidth ==> r == 0.0
    ensures TotalFlexGrow(columns) == 0.0 ==> r == 0.0
  {
    UnitFlexWidth(columns, Max(expectedWidth - TotalWidth(columns), 0.0))
  }

  /** adjustColumnGroupWidths: the tree rebuilt with the unit flex width of
      its leaves, and the flattening of the rebuilt tree. */
  method AdjustColumnGroupWidths(columnGroups: seq<Column>, expectedWidth: real)
    returns (r: GroupAdjustment)
    ensures r.columnGroups == RebuildColumns(columnGroups, FillUnitFlexWidth(Leaves(columnGroups), expectedWidth))
    ensures r.columns == Leaves(r.columnGroups)
    ensures Conserved(r.columnGroups)
    ensures SameShape(columnGroups, r.columnGroups)
    ensures r.columns == RebuildColumns(Leaves(columnGroups), FillUnitFlexWidth(Leaves(columnGroups), expectedWidth))
    ensures TotalWidth(r.columnGroups) == TotalWidth(r.columns)
    ensures NonNegFlex(Leaves(columnGroups)) && TotalFlexGrow(Leaves(columnGroups)) > 0.0 ==>
              TotalWidth(r.columns) == Max(expectedWidth, TotalWidth(Leaves(columnGroups)))
    ensures TotalFlexGrow(Leaves(columnGroups)) == 0.0 || TotalWidth(Leaves(columnGroups)) >= expectedWidth ==>
              r.columns == Leaves(columnGroups)
  {
    var allColumns := NestedColumns(columnGroups, []);
    var totalColumnsWidth := TotalWidth(allColumns);
    var totalFlexWidth := Max(expectedWidth - totalColumnsWidth, 0.0);
    var unitFlexWidth := UnitFlexWidth(allColumns, totalFlexWidth);
    var newColumnGroups, _ := IterateNestedColumns(columnGroups, unitFlexWidth);
    var newColumns := NestedColumns(newColumnGroups, []);

    FillUnitOf(allColumns, expectedWidth);
    FlattenIsLeaves(columnGroups);
    FlattenIsLeaves(newColumnGroups);
    AdjustedTree(columnGroups, expectedWidth);
    r := GroupAdjustment(newColumnGroups, newColumns);
  }

  /** The fill unit is getUnitFlexWidth of the room left below the expected
      width, which is never negative. */
  lemma FillUnitOf(columns: seq<Column>, expectedWidth: real)
    ensures UnitFlexWidth(columns, Max(expectedWidth - TotalWidth(columns), 0.0))
            == FillUnitFlexWidth(columns, expectedWidth)
  {
  }

  /** The tree adjustColumnGroupWidths builds: every group sums its rebuilt
      children, the shape and weights are kept, its leaves are the original
      leaves rebuilt with the same unit, and its top-level total is its leaf
      total; with no negative and some positive weight the leaves fill the
      expected width, and with nothing to distribute they are unchanged. */
  lemma AdjustedTree(columnGroups: seq<Column>, expectedWidth: real)
    ensures var unit := FillUnitFlexWidth(Leaves(columnGroups), expectedWidth);
            var tree := RebuildColumns(columnGroups, unit);
            Conserved(tree) && SameShape(columnGroups, tree) &&
            Leaves(tree) == RebuildColumns(Leaves(columnGroups), unit) &&
            TotalWidth(tree) == TotalWidth(Leaves(tree)) &&
            (NonNegFlex(Leaves(columnGroups)) && TotalFlexGrow(Leaves(columnGroups)) > 0.0 ==>
               TotalWidth(Leaves(tree)) == Max(expectedWidth, TotalWidth(Leaves(columnGroups)))) &&
            (TotalFlexGrow(Leaves(columnGroups)) == 0.0 || TotalWidth(Leaves(columnGroups)) >= expectedWidth ==>
               Leaves(tree) == Leaves(columnGroups))
  {
    var unit := FillUnitFlexWidth(Leaves(columnGroups), expectedWidth);
    RebuildConserves(columnGroups, unit);
    RebuildSameShape(columnGroups, unit);
    FlattenRebuilt(columnGroups, unit);
    ConservedTotal(RebuildColumns(columnGroups, unit));
    FillLeaves(Leaves(columnGroups), expectedWidth);
  }

  /** When there is nothing to distribute, adjustColumnGroupWidths returns a
      tree whose groups already sum their children exactly as it was. */
  lemma NoRoomKeepsConservedTree(columnGroups: seq<Column>, expectedWidth: real)
    requires Conserved(columnGroups)
    requires TotalFlexGrow(Leaves(columnGroups)) == 0.0 || TotalWidth(Leaves(columnGroups)) >= expectedWidth
    ensures RebuildColumns(columnGroups, FillUnitFlexWidth(Leaves(columnGroups), expectedWidth)) == columnGroups
  {
    ConservedZeroUnit(columnGroups);
  }

  /** Leaf columns rebuilt with their fill unit: with some positive weight
      and none negative they reach the expected width, or keep their total
      when it was already reached; with no positive weight or no room left
      they come back unchanged. */
  lemma FillLeaves(columns: seq<Column>, expectedWidth: real)
    requires forall i :: 0 <= i < |columns| ==> columns[i].Leaf?
    ensures NonNegFlex(columns) && TotalFlexGrow(columns) > 0.0 ==>
              TotalWidth(RebuildColumns(columns, FillUnitFlexWidth(columns, expectedWidth)))
              == Max(expectedWidth, TotalWidth(columns))
    ensures TotalFlexGrow(columns) == 0.0 || TotalWidth(columns) >= expectedWidth ==>
              RebuildColumns(columns, FillUnitFlexWidth(columns, expectedWidth)) == columns
  {
    if NonNegFlex(columns) && TotalFlexGrow(columns) > 0.0 {
      FillReachesExpected(columns, expectedWidth);
    }
    if TotalFlexGrow(columns) == 0.0 || TotalWidth(columns) >= expectedWidth {
      ZeroUnitKeepsLeaves(columns);
    }
  }

  /** With some positive weight and none negative, the rebuilt leaves fill
      the expected width exactly, or keep their total when it was already
      reached. */
  lemma FillReachesExpected(columns: seq<Column>, expectedWidth: real)
    requires forall i :: 0 <= i < |columns| ==> columns[i].Leaf?
    requires NonNegFlex(columns) && TotalFlexGrow(columns) > 0.0
    ensures TotalWidth(RebuildColumns(columns, FillUnitFlexWidth(columns, expectedWidth)))
            == Max(expectedWidth, TotalWidth(columns))
  {
    FillAddsRoom(columns, expectedWidth);
    MaxShift(expectedWidth, TotalWidth(columns));
  }

  /** The rebuilt leaves gain exactly the room left below the expected width. */
  lemma FillAddsRoom(columns: seq<Column>, expectedWidth: real)
    requires forall i :: 0 <= i < |columns| ==> columns[i].Leaf?
    requires NonNegFlex(columns) && TotalFlexGrow(columns) > 0.0
    ensures TotalWidth(RebuildColumns(columns, FillUnitFlexWidth(columns, expectedWidth)))
            == TotalWidth(columns) + Max(expectedWidth - TotalWidth(columns), 0.0)
  {
    RebuildLeavesTotal(columns, FillUnitFlexWidth(columns, expectedWidth));
    FillUnitSpreads(columns, expectedWidth);
  }

  /** Rebuilding leaf columns with a unit adds the unit times their weight. */
  lemma RebuildLeavesTotal(columns: seq<Column>, unitFlexWidth: real)
    requires forall i :: 0 <= i < |columns| ==> columns[i].Leaf?
    requires NonNegFlex(columns)
    ensures TotalWidth(RebuildColumns(columns, unitFlexWidth))
            == TotalWidth(columns) + unitFlexWidth * TotalFlexGrow(columns)
  {
    RebuildLeavesIsFlex(columns, unitFlexWidth);
    FlexColumnsTotal(columns, unitFlexWidth);
  }


  lemma MaxShift(a: real, b: real)
    ensures b + Max(a - b, 0.0) == Max(a, b)
  {
  }

  /** The fill unit times the total weight is the room left. */
  lemma FillUnitSpreads(columns: seq<Column>, expectedWidth: real)
    requires TotalFlexGrow(columns) > 0.0
    ensures FillUnitFlexWidth(columns, expectedWidth) * TotalFlexGrow(columns)
            == Max(expectedWidth - TotalWidth(columns), 0.0)
  {
    UnitFlexWidthSpreads(columns, Max(expectedWidth - TotalWidth(columns), 0.0));
  }

  /** Each rebuilt leaf is the leaf grown by its weight times the unit, and
      with no negative weight and a non-negative unit no leaf narrows. */
  lemma RebuiltLeaves(ls: seq<Column>, unitFlexWidth: real)
    requires forall i :: 0 <= i < |ls| ==> ls[i].Leaf?
    ensures |RebuildColumns(ls, unitFlexWidth)| == |ls|
    ensures forall i :: 0 <= i < |ls| ==>
              RebuildColumns(ls, unitFlexWidth)[i]
              == Leaf(ls[i].width + ls[i].flexGrow * unitFlexWidth, ls[i].flexGrow)
    ensures NonNegFlex(ls) && unitFlexWidth >= 0.0 ==>
              forall i :: 0 <= i < |ls| ==> RebuildColumns(ls, unitFlexWidth)[i].width >= ls[i].width
  {
  }

  /** A unit of zero leaves every leaf column as it was. */
  lemma ZeroUnitKeepsLeaves(ls: seq<Column>)
    requires forall i :: 0 <= i < |ls| ==> ls[i].Leaf?
    ensures RebuildColumns(ls, 0.0) == ls
  {
    RebuildLeavesIsFlex(ls, 0.0);
    FlexColumnsZeroUnit(ls);
  }

  /** With no negative weight, raising the expected width never narrows a
      leaf column. */
  lemma MoreRoomNeverNarrows(columns: seq<Column>, narrower: real, wider: real)
    requires narrower <= wider
    requires forall i :: 0 <= i < |columns| ==> columns[i].Leaf?
    requires NonNegFlex(columns)
    ensures FillUnitFlexWidth(columns, narrower) <= FillUnitFlexWidth(columns, wider)
    ensures forall i :: 0 <= i < |columns| ==>
              RebuildColumns(columns, FillUnitFlexWidth(columns, narrower))[i].width
              <= RebuildColumns(columns, FillUnitFlexWidth(columns, wider))[i].width
  {
    var u1 := FillUnitFlexWidth(columns, narrower);
    var u2 := FillUnitFlexWidth(columns, wider);
    UnitFlexWidthMonotone(columns, Max(narrower - TotalWidth(columns), 0.0), Max(wider - TotalWidth(columns), 0.0));
    forall i | 0 <= i < |columns|
      ensures columns[i].flexGrow * u1 <= columns[i].flexGrow * u2
    {
      assert columns[i].flexGrow * (u2 - u1) >= 0.0;
    }
  }

  /** More width to distribute never lowers the unit flex width. */
  lemma UnitFlexWidthMonotone(columns: seq<Column>, less: real, more: real)
    requires less <= more
    ensures UnitFlexWidth(columns, less) <= UnitFlexWidth(columns, more)
  {
    var total := TotalFlexGrow(columns);
    if total > 0.0 {
      ScaleCancels(UnitFlexWidth(columns, less), UnitFlexWidth(columns, more), total);
    }
  }

  lemma MulDistributes(k: real, a: real, b: real)
    ensures k * (a + b) == k * a + b * k
  {
  }

  lemma ScaleCancels(a: real, b: real, scale: real)
    requires scale > 0.0 && a * scale <= b * scale
    ensures a <= b
  {
    assert (b - a) * scale >= 0.0;
  }

  /** Two growing leaves gain width in the ratio of their weights. */
  lemma FlexSharesProportional(ls: seq<Column>, unitFlexWidth: real, i: nat, j: nat)
    requires i < |ls| && j < |ls|
    requires ls[i].Leaf? && ls[j].Leaf?
    ensures (RebuildColumns(ls, unitFlexWidth)[i].width - ls[i].width) * ls[j].flexGrow
            == (RebuildColumns(ls, unitFlexWidth)[j].width - ls[j].width) * ls[i].flexGrow
  {
  }

  /** Three columns of width 50, weights 0, 1 and 1, adjusted to 250: the
      100 missing is split 50 and 50 between the weighted columns. */
  lemma FlatScenario()
    ensures var cs := [Leaf(50.0, 0.0), Leaf(50.0, 1.0), Leaf(50.0, 1.0)];
            TotalWidth(cs) == 150.0 && UnitFlexWidth(cs, 250.0 - 150.0) == 50.0 &&
            FlexColumns(cs, UnitFlexWidth(cs, 250.0 - 150.0))
            == [Leaf(50.0, 0.0), Leaf(100.0, 1.0), Leaf(100.0, 1.0)]
  {
    var cs := [Leaf(50.0, 0.0), Leaf(50.0, 1.0), Leaf(50.0, 1.0)];
    var one, two := [Leaf(50.0, 0.0)], [Leaf(50.0, 0.0), Leaf(50.0, 1.0)];
    assert cs[..2] == two && two[..1] == one && one[..0] == [];
    assert TotalWidth(one) == 50.0 && TotalFlexGrow(one) == 0.0;
    assert TotalWidth(two) == 100.0 && TotalFlexGrow(two) == 1.0;
    assert TotalFlexGrow(cs) == 2.0;
  }

  /** A group of two leaves of width 30 and weight 1, adjusted to the 60 it
      already has: nothing is distributed and the group stays 60 wide. */
  lemma GroupScenario()
    ensures var tree := [Group(60.0, 0.0, [Leaf(30.0, 1.0), Leaf(30.0, 1.0)])];
            FillUnitFlexWidth(Leaves(tree), 60.0) == 0.0 &&
            RebuildColumns(tree, FillUnitFlexWidth(Leaves(tree), 60.0)) == tree
  {
    var leaves := [Leaf(30.0, 1.0), Leaf(30.0, 1.0)];
    var tree := [Group(60.0, 0.0, leaves)];
    assert Leaves(tree) == leaves by {
      assert tree[1..] == [];
      LeavesOfLeaves(leaves);
    }
    assert leaves[..1] == [Leaf(30.0, 1.0)];
    assert TotalWidth(leaves) == 60.0;
    var inner := RebuildColumns(leaves, 0.0);
    assert inner == leaves;
    assert TotalWidth(inner) == 60.0;
  }

  /** A weight below zero narrows its column: getTotalFlexGrow skips it, but
      addFlexWidth applies it. Widths 50 and 50 with weights -1 and 1 given
      10 to distribute: the unit is 10, and the first column shrinks to 40. */
  lemma NegativeWeightNarrows()
    ensures var cs := [Leaf(50.0, -1.0), Leaf(50.0, 1.0)];
            UnitFlexWidth(cs, 10.0) == 10.0 &&
            FlexColumns(cs, UnitFlexWidth(cs, 10.0))[0].width == 40.0 &&
            TotalWidth(FlexColumns(cs, UnitFlexWidth(cs, 10.0))) == TotalWidth(cs)
  {
    var cs := [Leaf(50.0, -1.0), Leaf(50.0, 1.0)];
    var one := [Leaf(50.0, -1.0)];
    assert cs[..1] == one && one[..0] == [];
    assert TotalFlexGrow(one) == 0.0;
    assert TotalFlexGrow(cs) == 1.0;
    assert TotalWidth(cs) == 100.0;
    var flexed := FlexColumns(cs, 10.0);
    assert flexed == [Leaf(40.0, -1.0), Leaf(60.0, 1.0)];
    assert flexed[..1] == [Leaf(40.0, -1.0)];
    assert TotalWidth(flexed) == 100.0;
  }
}

# Fixed data table: column width resolution and the cell group window

This project models the layout logic at the centre of a React data-table
component.

Width helper (`width_helper.dfy`, module `WidthHelper`):

- It flattens a tree of column and column-group elements into its leaf columns.
- It sums widths and positive flex-grow weights.
- It works out the width one unit of weight receives.
- It spreads the width missing below an expected total across the columns in proportion to their weights. This works on a flat list (`distributeFlexWidth`, `adjustColumnWidths`) and on a tree (`iterateNestedColumns`, `adjustColumnGroupWidths`). In the tree, every group is rebuilt with the sum of its rebuilt children's widths.

Fixed-columns selector (`fixed_columns_width.dfy`): it adds up the widths of the columns pinned to the left.

Cell group (`cell_group.dfy`):

- The render loop keeps a running left offset. It materialises a column's cell only when the column is not recyclable or when the column lies inside the horizontal window.
- A header group reports its column keys and widths.
- A per-column recycling override is set while a column is being reordered.
- The wrapper skips re-rendering while scrolling in place.

`columns.dfy` holds the column props the cell group and the selector read, and the left-to-right sum of their widths.

Modelling choices:

- Widths and weights are exact reals.
- A missing `flexGrow` is 0, because `undefined` and `null` behave like 0 in every expression that reads it.
- An empty `columnKey` stands for a missing key, which is falsy in the same way.
- Column and group elements are a two-case datatype. A leaf is an element whose type carries the column marker.
- Steps that the source performs step by step are methods with loops and invariants. These are the `totalWidth` accumulator of `distributeFlexWidth`, the counter callback of `iterateNestedColumns`, the selector's `for` loop, the render loop over `cells` and the `push` loop of `getCellGroupWidth`. Each method is proved against a function that specifies it, and the properties are lemmas about that function.
- The cell group component is a class whose `props` and `recycling` state are fields.

Two behaviours of the code worth knowing:

- A leaf with a negative `flexGrow` narrows: `getTotalFlexGrow` skips it but `addFlexWidth` applies it (`NegativeWeightNarrows` shows 50 becoming 40). Every no-shrink and exact-fill property therefore carries the condition that no weight is negative (`NonNegFlex`).
- `adjustColumnGroupWidths` returns the rebuilt tree and its leaves but no grand total; the model proves that the tree's top-level total equals the total of its leaves (`ConservedTotal`).

## Model

| member | source | states |
|---|---|---|
| WidthHelper.Leaves | src/FixedDataTableWidthHelper.js:20-33 | the reference flattening: the leaf columns of a forest, depth-first and left to right; every element it returns is a leaf column |
| WidthHelper.NestedColumns | src/FixedDataTableWidthHelper.js:20-33 | the reduce-based flattening yields the accumulator followed by the leaf columns in depth-first, left-to-right order; every element of the reference flattening is a leaf |
| WidthHelper.FlattenIsLeaves | src/FixedDataTableWidthHelper.js:184 | flattening with no initial accumulator gives exactly the leaf columns |
| WidthHelper.FlattenLeavesOnly | src/FixedDataTableWidthHelper.js:20-33 | a list that already holds only leaf columns flattens to itself |
| WidthHelper.LeavesOfLeaves | src/FixedDataTableWidthHelper.js:23-25 | the leaves of a list of leaves are that list |
| WidthHelper.TotalWidth | src/FixedDataTableWidthHelper.js:38-42 | getTotalWidth as a left fold of the widths; its properties are TotalWidthNonNeg, TotalWidthAppend and TotalWidthSnoc |
| WidthHelper.TotalWidthNonNeg | src/FixedDataTableWidthHelper.js:38-42 | non-negative widths have a non-negative total |
| WidthHelper.TotalWidthAppend | src/FixedDataTableWidthHelper.js:38-42 | the total width of a concatenation is the sum of the two totals |
| WidthHelper.TotalFlexGrow | src/FixedDataTableWidthHelper.js:47-55 | the sum of the positive weights is never negative |
| WidthHelper.TotalFlexGrowZero | src/FixedDataTableWidthHelper.js:47-55 | the total weight is zero if and only if no column has a positive weight |
| WidthHelper.TotalFlexGrowAppend | src/FixedDataTableWidthHelper.js:47-55 | the total weight of a concatenation is the sum of the two totals |
| WidthHelper.UnitFlexWidth | src/FixedDataTableWidthHelper.js:60-67 | with no positive weight the unit is 0; a non-negative width to distribute gives a non-negative unit |
| WidthHelper.UnitFlexWidthSpreads | src/FixedDataTableWidthHelper.js:60-67 | with some positive weight, the unit times the total weight is exactly the width distributed |
| WidthHelper.UnitFlexWidthMonotone | src/FixedDataTableWidthHelper.js:60-67 | more width to distribute never lowers the unit |
| WidthHelper.AddFlexWidth | src/FixedDataTableWidthHelper.js:72-79 | a zero weight or a zero unit leaves the width as it is; non-negative weight and unit never narrow it |
| WidthHelper.Max | src/FixedDataTableWidthHelper.js:186 | the result is at least both arguments and is one of them |
| WidthHelper.WithWidth | src/FixedDataTableWidthHelper.js:107-110 | `React.cloneElement(column, {width})`: the same element, leaf or group, with the same weight and children and the new width |
| WidthHelper.FlexColumn | src/FixedDataTableWidthHelper.js:95-110 | one step of the map: a column with a falsy weight is returned as it is, any other is a copy whose width is AddFlexWidth of its width, weight and the unit |
| WidthHelper.FlexColumns | src/FixedDataTableWidthHelper.js:94-111 | the columns the map builds, in order, one per input column; DistributeFlexWidth is proved to return them and FlexColumnsShape, FlexColumnsTotal state their properties |
| WidthHelper.FlexColumnsTotal | src/FixedDataTableWidthHelper.js:94-111 | with no negative weight, the flat distribution adds exactly the unit times the total weight to the total width |
| WidthHelper.FlexColumnsShape | src/FixedDataTableWidthHelper.js:94-111 | the flat distribution keeps length, order, kind and weight of every column; only widths change, zero-weight columns are returned as they are, and with no negative weight no column narrows under a non-negative unit |
| WidthHelper.FlexColumnsZeroUnit | src/FixedDataTableWidthHelper.js:94-111 | a zero unit changes no column |
| WidthHelper.FlexColumnsGrowth | src/FixedDataTableWidthHelper.js:94-111 | the new total is the old total plus each column's weight times the unit |
| WidthHelper.GrowthIsUnitTimesWeight | src/FixedDataTableWidthHelper.js:77 | with no negative weight, the added widths sum to the unit times the total weight |
| WidthHelper.DistributeFlexWidth | src/FixedDataTableWidthHelper.js:81-117 | no positive room returns the columns unchanged; otherwise each weighted column grows by weight times unit and the others are returned as they are; the reported width is the new total; lengths and all but widths are kept; with no negative weight nothing narrows and, with some positive weight, the new total is the old total plus the room; with no positive weight nothing changes |
| WidthHelper.AdjustColumnWidths | src/FixedDataTableWidthHelper.js:205-216 | columns that already reach the expected width come back unchanged; otherwise the shortfall is distributed; with no negative and some positive weight the total becomes the larger of expected and current; with no negative weight nothing narrows; with no positive weight nothing changes |
| WidthHelper.IterateNestedColumns | src/FixedDataTableWidthHelper.js:122-178 | the mapped tree is the rebuilt tree, and the width charged to the caller's counter is its top-level total |
| WidthHelper.RebuildColumn | src/FixedDataTableWidthHelper.js:131-176 | one element of the map: a leaf gets width plus weight times unit, a group gets its rebuilt children and their summed width; both keep their weight |
| WidthHelper.RebuildColumns | src/FixedDataTableWidthHelper.js:127-177 | the tree the map builds; IterateNestedColumns is proved to return it and RebuildConserves, RebuildSameShape, FlattenRebuilt state its properties |
| WidthHelper.RebuildConserves | src/FixedDataTableWidthHelper.js:140-170 | in the rebuilt tree every group's width is the sum of its direct children's widths, at every level |
| WidthHelper.RebuildSameShape | src/FixedDataTableWidthHelper.js:127-177 | rebuilding keeps the tree's shape and every weight |
| WidthHelper.RebuildColumnsAppend | src/FixedDataTableWidthHelper.js:127 | rebuilding a concatenation rebuilds each part |
| WidthHelper.FlattenRebuilt | src/FixedDataTableWidthHelper.js:193-197 | the leaves of the rebuilt tree are the rebuilt leaves of the original tree, in order |
| WidthHelper.ConservedTotal | src/FixedDataTableWidthHelper.js:163-170 | in a tree whose groups sum their children, the top-level total equals the total of the leaves |
| WidthHelper.RebuildLeavesIsFlex | src/FixedDataTableWidthHelper.js:131-139 | on a list of leaves, the tree rebuild and the flat distribution agree |
| WidthHelper.ConservedZeroUnit | src/FixedDataTableWidthHelper.js:140-176 | a unit of zero gives back a tree whose groups already sum their children unchanged, at every level |
| WidthHelper.FillUnitFlexWidth | src/FixedDataTableWidthHelper.js:184-191 | the unit for the tree is never negative, and it is 0 when the leaves already reach the expected width or have no positive weight |
| WidthHelper.AdjustColumnGroupWidths | src/FixedDataTableWidthHelper.js:180-203 | the returned tree is the input rebuilt with the leaves' unit, its groups sum their children, its shape and weights are kept, and the returned columns are its leaves, which are the rebuilt original leaves; tree and columns have the same total; with no negative and some positive weight that total is the larger of expected and current; with no positive weight or no room the columns are the original leaves |
| WidthHelper.AdjustedTree | src/FixedDataTableWidthHelper.js:180-203 | the tree the adjustment builds from the leaves' unit: its groups sum their children, shape and weights are kept, its leaves are the rebuilt original leaves, its top-level total is its leaf total, it fills the expected width with no negative and some positive weight, and its leaves are unchanged with nothing to distribute |
| WidthHelper.NoRoomKeepsConservedTree | src/FixedDataTableWidthHelper.js:180-203 | with no positive weight or no room, a tree whose groups already sum their children comes back unchanged |
| WidthHelper.FillLeaves | src/FixedDataTableWidthHelper.js:184-197 | leaves rebuilt with their fill unit reach the larger of expected and current total when no weight is negative and some is positive, and are unchanged with no positive weight or no room |
| WidthHelper.FillReachesExpected | src/FixedDataTableWidthHelper.js:184-197 | with no negative and some positive weight, the rebuilt leaves total the larger of the expected width and their current total |
| WidthHelper.FillAddsRoom | src/FixedDataTableWidthHelper.js:184-197 | for a list of leaves with some positive weight and none negative, the rebuilt leaves gain exactly the room left below the expected width |
| WidthHelper.RebuildLeavesTotal | src/FixedDataTableWidthHelper.js:131-139 | for a list of leaves with no negative weight, rebuilding with a unit adds the unit times their total weight |
| WidthHelper.FillUnitSpreads | src/FixedDataTableWidthHelper.js:186-191 | with some positive weight, the tree's unit times the total weight is the room left |
| WidthHelper.RebuiltLeaves | src/FixedDataTableWidthHelper.js:131-139 | every rebuilt leaf has its width plus weight times unit and keeps its weight; with no negative weight and a non-negative unit no leaf narrows |
| WidthHelper.ZeroUnitKeepsLeaves | src/FixedDataTableWidthHelper.js:131-139 | a zero unit leaves every leaf as it was |
| WidthHelper.MoreRoomNeverNarrows | src/FixedDataTableWidthHelper.js:184-197 | with no negative weight, raising the expected width never lowers the unit nor narrows any leaf |
| WidthHelper.FlexSharesProportional | src/FixedDataTableWidthHelper.js:77 | two leaves gain width in the ratio of their weights |
| WidthHelper.FlatScenario | src/FixedDataTableWidthHelper.js:205-216 | widths 50, 50, 50 with weights 0, 1, 1 adjusted to 250 become 50, 100, 100 |
| WidthHelper.GroupScenario | src/FixedDataTableWidthHelper.js:180-203 | a group of two 30-wide leaves adjusted to its own 60 is unchanged |
| WidthHelper.NegativeWeightNarrows | src/FixedDataTableWidthHelper.js:47-79 | widths 50 and 50 with weights -1 and 1 given 10 to distribute: the unit is 10, the first column narrows to 40 and the total stays 100 |
| Columns.SumWidths | src/selectors/fixedColumnsWidth.js:31-34 | the widths added from left to right; TotalFixedColumnsWidth is proved to return it, and it is the running offset and content width of the render loop |
| Columns.SumWidthsSnoc | src/selectors/fixedColumnsWidth.js:33 | adding a column to the sum adds exactly its width |
| Columns.SumWidthsAppend | src/selectors/fixedColumnsWidth.js:31-34 | the sum over a concatenation is the sum of the sums |
| Columns.SumWidthsNonNeg | src/selectors/fixedColumnsWidth.js:31-34 | non-negative widths sum to a non-negative total |
| Columns.SumWidthsPrefixMonotone | src/FixedDataTableCellGroup.js:166-187 | with non-negative widths, the running offset never decreases along the columns |
| FixedColumnsWidth.TotalFixedColumnsWidth | src/selectors/fixedColumnsWidth.js:26-36 | the selector returns the sum of the pinned columns' widths, 0 for none, never negative for non-negative widths |
| FixedDataTableCellGroup.DecimalString | src/FixedDataTableCellGroup.js:151 | the decimal form of an index is non-empty and made of digits |
| FixedDataTableCellGroup.DecimalRoundTrip | src/FixedDataTableCellGroup.js:151 | reading the decimal form back gives the index |
| FixedDataTableCellGroup.CellKey | src/FixedDataTableCellGroup.js:176 | a column's own key when it has one, else `cell_` followed by its index in decimal; DefaultKeysDistinct proves the defaults distinct |
| FixedDataTableCellGroup.DefaultKeysDistinct | src/FixedDataTableCellGroup.js:176 | columns without a key of their own get distinct default cell keys |
| FixedDataTableCellGroup.IsRecyclable | src/FixedDataTableCellGroup.js:172 | the recycling override for the column's key when there is one, else the column's own `allowCellsRecycling` |
| FixedDataTableCellGroup.InWindow | src/FixedDataTableCellGroup.js:173-175 | the visibility test: the column starts no further right than the group width past `left` and ends no further left than `left`; InWindowIffOverlaps gives its meaning |
| FixedDataTableCellGroup.ColumnOffset | src/FixedDataTableCellGroup.js:166-187 | `currentPosition` when the loop reaches column `i`: the sum of the widths of the columns before it |
| FixedDataTableCellGroup.IsMaterialised | src/FixedDataTableCellGroup.js:172-175 | a column is materialised when it is not recyclable or passes the visibility test at its running offset; Render is proved to fill exactly these slots |
| FixedDataTableCellGroup.RenderedSlot | src/FixedDataTableCellGroup.js:173-186 | what slot `i` of `cells` holds: when the column is materialised, a cell with the row index, row height, column props, its offset, its key and the content width; otherwise nothing |
| FixedDataTableCellGroup.InWindowIffOverlaps | src/FixedDataTableCellGroup.js:173-175 | the render loop's visibility test holds exactly when the column's span meets the visible span |
| FixedDataTableCellGroup.WindowIsContiguous | src/FixedDataTableCellGroup.js:166-188 | with non-negative widths, any column between two columns in the window is in the window too |
| FixedDataTableCellGroup.CellGroupImpl.constructor | src/FixedDataTableCellGroup.js:126-128 | a new group keeps its props and has no recycling override |
| FixedDataTableCellGroup.CellGroupImpl.GetCellGroupWidth | src/FixedDataTableCellGroup.js:143-157 | a header group reports each column's key (its own or the default) and width, in order; any other group reports nothing |
| FixedDataTableCellGroup.CellGroupImpl.Render | src/FixedDataTableCellGroup.js:160-188 | one slot per column; a slot holds a cell exactly when its column is materialised, and that cell carries the row, the column, its left offset (the widths before it), its key and the group's content width (the sum of all widths) |
| FixedDataTableCellGroup.CellGroupImpl.ToggleCellsRecycling | src/FixedDataTableCellGroup.js:268-277 | `false` pins recycling off for that one column and drops other overrides, `true` clears every override; afterwards a column is recyclable exactly when it allows recycling and is not the reordered one |
| FixedDataTableCellGroup.ReorderedColumnAlwaysMaterialised | src/FixedDataTableCellGroup.js:170-175 | while a column is being reordered, its cell is materialised wherever the group is scrolled |
| FixedDataTableCellGroup.CellGroup.ShouldComponentUpdate | src/FixedDataTableCellGroup.js:303-309 | re-render unless the next props are scrolling with the same row index and the same `left`; SkippedUpdateKeepsWindow states when a skip is safe |
| FixedDataTableCellGroup.SkippedUpdateKeepsWindow | src/FixedDataTableCellGroup.js:303-309 | when an update is skipped and columns, width and row height are unchanged, every render slot holds the same cell (or none) under the old props as under the next ones |

## Left out

- React element cloning, JSX, DOM styles and `_renderCell`'s extra props are left out. `React.Children.toArray` (src/FixedDataTableWidthHelper.js:28 and :156) is taken to be the identity: a group's children are already a sequence of column elements, so the null and boolean children it drops and the nested arrays it flattens cannot be expressed. A rebuilt element is its width, weight and children. A rendered cell is the arguments that decide which cell it is and where it goes.
- The cell template is left out. It is passed through unchanged and does not affect the window.
- `reselect` memoisation of the selector is left out, because a cache does not change the returned value.
- CellGroup.ShouldComponentUpdate skips an update while scrolling on the same row at the same `left` even when `columns`, `width` or `rowHeight` change; the model does the same, and SkippedUpdateKeepsWindow promises an unchanged window only when those three are unchanged.
- `setState` is modelled as an immediate field update. React's asynchronous state batching and the lifecycle methods (`componentDidMount`, the initial-render flag) are left out.
- `_.get` is reduced to a map lookup with a default.
- IEEE-754 rounding is left out: widths are exact reals. The exact-fill properties hold only up to rounding in the source.
- NaN and non-numeric widths or weights are left out. Falsy weights (`undefined`, `null`, 0) are all the real 0.
- A `columnKey` that is itself an empty string is indistinguishable from a missing key. For CellKey this matches the source's `||` default.
- IsRecyclable: a keyless column and a column keyed `""` share one recycling override in the model. In the source they do not: `_.get(recycling, [undefined], …)` and `toggleCellsRecycling(false, undefined)` use the key `"undefined"` (src/FixedDataTableCellGroup.js:172 and :271), which differs from `""`.
- FixedDataTableRoot.js only re-exports components and holds no logic, so it is not part of this model.
- The upstream `columns` selector that partitions fixed and scrollable columns is not part of this model. Its result is an input.
- DistributeFlexWidth: the no-shrink and exact-fill clauses are stated only for columns without negative weights, because the source narrows columns whose weight is negative.
- AdjustColumnWidths: the exact-fill and no-shrink clauses are stated only for columns without negative weights, because the source narrows a column whose weight is negative (with widths 50 and 50, weights -1 and 1 and expected width 110, the first becomes 40).
- AdjustColumnGroupWidths: the exact-fill and no-shrink properties are stated only for leaves without negative weights, for the same reason. NoRoomKeepsConservedTree, which says the tree comes back unchanged, is stated only for trees whose groups already sum their children, because the source always recomputes a group's width from its children (a group declared 7 wide with no children comes back 0 wide).

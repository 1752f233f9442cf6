# A model of the FlexboxLayout engine

This project models `FlexboxLayout`, a flexbox layout engine written in Java. The engine has no
UI dependency. A container holds a list of flex items and five settings:

- direction
- wrap
- justify-content
- align-items
- align-content

`layoutSubViews(mainSize, crossSize)` runs six stages in a fixed order:

1. It resets every item's results to -1.
2. It sorts the items by their `order` key. The sort is stable, and the list is reversed for the two reverse directions.
3. It breaks the items into flex lines. This uses each item's hypothetical sizes, and WRAP_REVERSE reverses the lines.
4. It places the lines on the cross axis (align-content).
5. It lays out each line:
   - it hands out the line's free main space to growing or shrinking items;
   - it places the items on the main axis (justify-content);
   - it places them on the cross axis of the line (align-items and align-self).
6. It writes each item's bounds, which exclude its margins.

## How the model is built

Items are identified by their position in the container's list of added items. Each per-item
result lives in a `seq` indexed by that position:

- the main and cross target sizes;
- the main and cross start positions;
- the bounds.

An item that appears in two lists is the same item, so sharing it is modelled by sharing its index.

Each stage has two parts:

- a value-level specification, written as a prefix fold that mirrors the Java loop;
- an imperative `method` with the same loops, proved equal to that specification.

The methods live in `layout.dfy`: the class `Flexbox.FlexboxLayout` and the loop methods of
module `Flexbox`. The class has the fields of the Java class, and its methods update them in
place. The properties are lemmas about the specification functions.

Modules:

- `types.dfy` (`FlexTypes`): the enums, the item record, bounds, flex lines, margins and hypothetical sizes.
- `ordering.dfy` (`Ordering`): the stable sort by `order` and the reversal.
- `lines.dfy` (`LineBreaking`): `calculateFlexLines`.
- `content.dfy` (`CrossLines`): `alignContent`.
- `distribute.dfy` (`MainSpace`): `distributeMainLineSpace`, covering both the grow and the shrink rounds.
- `justify.dfy` (`MainAxis`): `applyJustifyContent`.
- `alignitems.dfy` (`CrossItems`): `applyAlignItems` and `applyAlignSelf`.
- `bounds.dfy` (`Placement`): `applyLayout`.
- `pipeline.dfy` (`Pipeline`): `layoutSubViews` as one function, with what holds of its result.
- `layout.dfy` (`Flexbox`): the container class and its loop methods.
- `scenarios.dfy` (`Scenarios`): the margin example followed through the whole pipeline.

Java `double` and `float` values are modelled as `real`.

Some behaviours are kept exactly as the code has them, even where they depart from the CSS
flexbox algorithm:

- The shrink pass runs at most one round. Its "rest" never becomes positive.
- The shrink pass compares the running shrink total, not the item's factor, with 1 when it decides to skip an item. Once the total is 1, the pass skips (and freezes) every item whose turn comes after that. Items handled before the total reached 1 have already shrunk.
- For an item that is not self-aligned, STRETCH under align-items sets the cross target size to the whole line cross size. STRETCH under align-self subtracts the item's margins first.
- The hypothetical cross size is computed with the main size as the percentage basis.
- Under FLEX_START, align-content sets the minimum cross size to the final cursor. That equals the sum of the line cross sizes, as it does for the other modes.
- `clearItems` empties only the list of added items. The sorted list and the lines keep their old contents.

## Model

| member | source | states |
|---|---|---|
| FlexTypes.HypotheticalWidthBounds | flexbox/src/main/java/com/dukescript/layouts/flexbox/FlexboxLayout.java:1188-1194 | A fixed width gives margins plus width. Otherwise the size lies between margins plus min, and margins plus the larger of min and max. A percentage basis inside [min, max] is taken exactly. |
| FlexTypes.HypotheticalHeightBounds | flexbox/src/main/java/com/dukescript/layouts/flexbox/FlexboxLayout.java:1195-1200 | The same three facts for the height, which columns use on the main axis and rows on the cross axis: a fixed height gives margins plus height; otherwise the size lies between margins plus min and margins plus the larger of min and max; a percentage basis inside [min, max] is taken exactly. |
| FlexTypes.DefaultHypotheticalSizeNegative | flexbox/src/main/java/com/dukescript/layouts/flexbox/FlexboxLayout.java:1188-1200 | A default item (width -1, min -1) has the negative hypothetical size max(-1, -mainSize/100) in either direction. |
| Ordering.Reverse | flexbox/src/main/java/com/dukescript/layouts/flexbox/FlexboxLayout.java:234-237 | The result has the same length, and element i is element n-1-i of the input. |
| Ordering.ReverseReverse | flexbox/src/main/java/com/dukescript/layouts/flexbox/FlexboxLayout.java:604-606 | Reversing twice gives back the original list. |
| Ordering.SortRangeCorrect | flexbox/src/main/java/com/dukescript/layouts/flexbox/FlexboxLayout.java:224-233 | Sorting the positions 0..n-1 by `order` gives a permutation of them, ordered by the key. |
| Ordering.SortedItemsPermutes | flexbox/src/main/java/com/dukescript/layouts/flexbox/FlexboxLayout.java:224-238 | `sortChildren` yields every item position exactly once, as multisets, in either direction. |
| Ordering.SortedItemsOrdered | flexbox/src/main/java/com/dukescript/layouts/flexbox/FlexboxLayout.java:224-238 | Keys are non-decreasing for the forward directions. For the two reverse directions the reversed list is ordered. |
| Ordering.SortedItemsIsPermutation | flexbox/src/main/java/com/dukescript/layouts/flexbox/FlexboxLayout.java:224-238 | The sorted list has one entry per item, contains every position and has no repetition. |
| Ordering.OrderMovesItemToFront | flexbox/src/test/java/com/dukescript/layouts/flexbox/FlexBoxLayoutTest.java:125-143 | With orders 0, 0, -1 the sorted order is [2, 0, 1]. Under ROW_REVERSE it is [1, 0, 2], which shows the stable sort followed by the reversal. |
| LineBreaking.MaxCrossAttained | flexbox/src/main/java/com/dukescript/layouts/flexbox/FlexboxLayout.java:810-814 | A line's cross size, as raised by `adjustCrossSize` from 0, is 0 or the cross size of one of its members. |
| LineBreaking.MaxMainAttained | flexbox/src/main/java/com/dukescript/layouts/flexbox/FlexboxLayout.java:578-580 | The layout's minimum main size under wrapping is 0 or the main size of one of the items. |
| LineBreaking.NoWrapYieldsOneLine | flexbox/src/main/java/com/dukescript/layouts/flexbox/FlexboxLayout.java:550-570 | NOWRAP makes exactly one line that holds every item in order. Its aggregates are the sum of main sizes, the largest cross size and the grow and shrink totals. The layout minimum main size is the sum. |
| LineBreaking.WrapPrefixInvariant | flexbox/src/main/java/com/dukescript/layouts/flexbox/FlexboxLayout.java:573-603 | After k items the lines concatenate to the first k sorted items. Every line has its members' aggregates, and every line of two or more items fits the main size. A line was closed only because the next item overflowed it. The minimum main size is the largest item. |
| LineBreaking.WrapPartitionsItems | flexbox/src/main/java/com/dukescript/layouts/flexbox/FlexboxLayout.java:543-608 | WRAP and WRAP_REVERSE partition the sorted items into non-empty lines, in order (reversed for WRAP_REVERSE). The lines are greedy and fit, and the minimum main size is the largest item. |
| LineBreaking.ThreeItemsBreak | flexbox/src/test/java/com/dukescript/layouts/flexbox/FlexBoxLayoutTest.java:54-94 | Three 50-wide items make one line of 150 under NOWRAP. Under WRAP they make lines [0, 1] of 100 and [2] of 50. |
| LineBreaking.OverflowingItemsBreak | flexbox/src/test/java/com/dukescript/layouts/flexbox/FlexBoxLayoutTest.java:54-94 | Three 51-wide items make three lines in 100. A single 151-wide item keeps a line with minimum main size 151. |
| LineBreaking.WrapReverseFlipsLines | flexbox/src/test/java/com/dukescript/layouts/flexbox/FlexBoxLayoutTest.java:147-163 | Under WRAP the first line holds two items. Under WRAP_REVERSE the one-item line comes first. |
| LineBreaking.AutoSizedMeasure | flexbox/src/main/java/com/dukescript/layouts/flexbox/FlexboxLayout.java:1188-1200 | An auto-sized item with the default basis measures its margins plus the larger of its minimum and -mainSize/100, on both axes. |
| LineBreaking.MeasureMinSized | flexbox/src/main/java/com/dukescript/layouts/flexbox/FlexboxLayout.java:1188-1200 | A 50 by 50 minimum-sized item measures 50 by 50 with growth 0 and shrink 1. |
| LineBreaking.MeasureMinWidth50 | flexbox/src/main/java/com/dukescript/layouts/flexbox/FlexboxLayout.java:1188-1200 | A default item with minimum width 50 measures 50 on the main axis and -1 across. |
| LineBreaking.MeasureMinWidth51 | flexbox/src/main/java/com/dukescript/layouts/flexbox/FlexboxLayout.java:1188-1200 | A default item with minimum width 51 measures 51 on the main axis and -1 across. |
| LineBreaking.MeasureMinWidth151 | flexbox/src/main/java/com/dukescript/layouts/flexbox/FlexboxLayout.java:1188-1200 | A default item with minimum width 151 measures 151 on the main axis and -1 across. |
| CrossLines.ContentSpacing | flexbox/src/main/java/com/dukescript/layouts/flexbox/FlexboxLayout.java:254-298 | Only STRETCH grows the lines, and no mode starts before 0. |
| CrossLines.LinePositions | flexbox/src/main/java/com/dukescript/layouts/flexbox/FlexboxLayout.java:302-311 | The first line starts at the mode's start plus its leading gap. Each next line starts after the previous line's cross size and both gaps. Lines keep every other field, and only STRETCH adds to their cross size. |
| CrossLines.MinCrossSizeIsTotal | flexbox/src/main/java/com/dukescript/layouts/flexbox/FlexboxLayout.java:240-261 | For every mode the layout's minimum cross size is the sum of the line cross sizes (0 with no lines), and the line count is kept. |
| CrossLines.FlexStartPacksLines | flexbox/src/main/java/com/dukescript/layouts/flexbox/FlexboxLayout.java:256-261 | FLEX_START puts the first line at 0, and each line starts where the previous one ends. |
| CrossLines.FlexEndAlignsLastLine | flexbox/src/main/java/com/dukescript/layouts/flexbox/FlexboxLayout.java:262-267 | FLEX_END packs the lines so that the last one ends at crossSize, or starts them at 0 when they overflow. |
| CrossLines.CenterBalancesLines | flexbox/src/main/java/com/dukescript/layouts/flexbox/FlexboxLayout.java:268-273 | CENTER packs the lines with equal space before the first and after the last, or starts them at 0 when they overflow. |
| CrossLines.SpaceBetweenSpansCross | flexbox/src/main/java/com/dukescript/layouts/flexbox/FlexboxLayout.java:274-279 | SPACE_BETWEEN puts the first line at 0 and, with two or more lines, the end of the last one at crossSize. |
| CrossLines.SpaceBetweenLastLine | flexbox/src/main/java/com/dukescript/layouts/flexbox/FlexboxLayout.java:274-279 | With two or more lines under SPACE_BETWEEN, the last line ends exactly at crossSize. |
| CrossLines.SpaceAroundGaps | flexbox/src/main/java/com/dukescript/layouts/flexbox/FlexboxLayout.java:292-298 | SPACE_AROUND leaves half a share before the first line and after the last, and a whole share between lines. |
| CrossLines.SpaceAroundLastLine | flexbox/src/main/java/com/dukescript/layouts/flexbox/FlexboxLayout.java:292-298 | The space after the last line under SPACE_AROUND is the mode's trailing gap. |
| CrossLines.SpaceAroundFinalCursor | flexbox/src/main/java/com/dukescript/layouts/flexbox/FlexboxLayout.java:292-298 | The SPACE_AROUND cursor ends exactly at crossSize. |
| CrossLines.StretchFillsCross | flexbox/src/main/java/com/dukescript/layouts/flexbox/FlexboxLayout.java:280-291 | STRETCH grows the lines so that their cross sizes add up to crossSize, and packs them from 0. |
| CrossLines.AlignContentThreeLines | flexbox/src/test/java/com/dukescript/layouts/flexbox/FlexBoxLayoutTest.java:219-252 | Three lines of 20 in 500: the minimum cross size is 60. The third line starts at 40, 480, 260, 1220/3 and 480 under FLEX_START, FLEX_END, CENTER, SPACE_AROUND and SPACE_BETWEEN. |
| MainSpace.ResizeItem | flexbox/src/main/java/com/dukescript/layouts/flexbox/FlexboxLayout.java:459-476 | One item step can only add this item to the frozen set. Every other size stays. The line's running main size moves by exactly this item's change, and the rest changes only when the item is frozen by the clamp. |
| MainSpace.Round | flexbox/src/main/java/com/dukescript/layouts/flexbox/FlexboxLayout.java:457-477 | A round only adds members of the line to the frozen set. When it gives back rest, it froze one more item. |
| MainSpace.RoundFreezes | flexbox/src/main/java/com/dukescript/layouts/flexbox/FlexboxLayout.java:457-483 | A round that gives back rest leaves strictly fewer unfrozen members, so the grow loop terminates. |
| MainSpace.NewGrowUnit | flexbox/src/main/java/com/dukescript/layouts/flexbox/FlexboxLayout.java:521-530 | With a positive total the new unit times the total is the rest, and it is positive when the rest is. Otherwise it is 0. |
| MainSpace.DistributeFrame | flexbox/src/main/java/com/dukescript/layouts/flexbox/FlexboxLayout.java:448-519 | Items outside the line keep their main target size, and so do non-growing members of a line with no negative free space. |
| MainSpace.DistributeBalance | flexbox/src/main/java/com/dukescript/layouts/flexbox/FlexboxLayout.java:448-519 | The line's new minimum main size changes by exactly the change in its members' target sizes. |
| MainSpace.DistributeGrow | flexbox/src/main/java/com/dukescript/layouts/flexbox/FlexboxLayout.java:452-484 | With positive free space, and grow factors that are non-negative and add up to the line total, no member exceeds its maximum. Either the line exactly fills mainSize or every growing member is at its maximum. |
| MainSpace.DistributeShrink | flexbox/src/main/java/com/dukescript/layouts/flexbox/FlexboxLayout.java:486-517 | With negative free space, exactly one round runs. A member is skipped and keeps its size exactly when the running shrink total at its turn is 1; otherwise it ends at max(flexShrink * unit + size, min). The running total after the first j members equals the line's shrink total less `ClampedShrink`: the shrink factors of those members that were not skipped and whose shrunk starting size fell below their minimum. |
| MainSpace.ShrinkRunningTotal | flexbox/src/main/java/com/dukescript/layouts/flexbox/FlexboxLayout.java:490-509 | Over a shrink round that starts with nothing frozen, the running total after j members is the starting total less `ClampedShrink`. That function is defined on the sizes the round starts from, not by running the loop. |
| MainSpace.DistributeShrinkNoSkip | flexbox/src/main/java/com/dukescript/layouts/flexbox/FlexboxLayout.java:486-517 | When the running shrink total is never 1 at a member's turn, every member ends at its clamped shrunk size. |
| MainSpace.ShrinkSkipsAfterClamp | flexbox/src/main/java/com/dukescript/layouts/flexbox/FlexboxLayout.java:486-531 | Factors 2, 0.5, 0.5 in a line of 300 shrunk to 240: the first item is clamped at 90, the total drops to 1, and the other two keep 100. |
| MainSpace.RoundPrefixEffect | flexbox/src/main/java/com/dukescript/layouts/flexbox/FlexboxLayout.java:459-510 | In a pass with no member frozen at the start, each visited member keeps its size exactly when the skip test holds at its turn, and ends at its clamped target otherwise. |
| MainSpace.RoundsShrinkOnce | flexbox/src/main/java/com/dukescript/layouts/flexbox/FlexboxLayout.java:490-516 | The shrink loop ends after one round, because its rest is never positive. |
| MainSpace.DistributeShrinkTotalOne | flexbox/src/main/java/com/dukescript/layouts/flexbox/FlexboxLayout.java:493-495 | When the line's shrink total is 1, the skip check freezes every item and nothing shrinks. |
| MainSpace.GrowClampsAndRedistributes | flexbox/src/test/java/com/dukescript/layouts/flexbox/FlexBoxLayoutTest.java:199-216 | Two growing items of 50 in 200, the first with maximum 60, end at 60 and 140, and the line is 200. |
| MainAxis.JustifyGaps | flexbox/src/main/java/com/dukescript/layouts/flexbox/FlexboxLayout.java:394-430 | No position is written exactly for SPACE_BETWEEN with a single item. Every written gap is non-negative. |
| MainAxis.JustifyPrefixWrites | flexbox/src/main/java/com/dukescript/layouts/flexbox/FlexboxLayout.java:432-446 | Each visited member's main start is its main start margin plus the cursor plus the leading gap. Other positions are unchanged. |
| MainAxis.ItemPositions | flexbox/src/main/java/com/dukescript/layouts/flexbox/FlexboxLayout.java:432-446 | The first member starts at the start gap (after its margin). Each next member starts after the previous member's target size and both gaps. |
| MainAxis.LastItemEnd | flexbox/src/main/java/com/dukescript/layouts/flexbox/FlexboxLayout.java:432-446 | The last member ends where the final cursor stands, less the trailing gap. |
| MainAxis.JustifyFrame | flexbox/src/main/java/com/dukescript/layouts/flexbox/FlexboxLayout.java:394-430 | Items outside the line keep their main start position. |
| MainAxis.JustifyFlexStart | flexbox/src/main/java/com/dukescript/layouts/flexbox/FlexboxLayout.java:400-402 | FLEX_START packs the members from 0. |
| MainAxis.JustifyFlexEnd | flexbox/src/main/java/com/dukescript/layouts/flexbox/FlexboxLayout.java:403-406 | FLEX_END packs the members so that the last ends at mainSize, or starts them at 0 when they overflow. |
| MainAxis.JustifyCenter | flexbox/src/main/java/com/dukescript/layouts/flexbox/FlexboxLayout.java:407-410 | CENTER leaves equal space before the first member and after the last, or starts at 0 when they overflow. |
| MainAxis.JustifySpaceBetweenSingle | flexbox/src/main/java/com/dukescript/layouts/flexbox/FlexboxLayout.java:419-421 | SPACE_BETWEEN with one member leaves every position as it was. |
| MainAxis.JustifySpaceBetween | flexbox/src/main/java/com/dukescript/layouts/flexbox/FlexboxLayout.java:419-427 | SPACE_BETWEEN starts at 0, puts equal non-negative gaps between members and, without overflow, ends the last at mainSize. |
| MainAxis.JustifySpaceAround | flexbox/src/main/java/com/dukescript/layouts/flexbox/FlexboxLayout.java:411-418 | SPACE_AROUND leaves half a gap at each end and a whole gap between members. |
| MainAxis.JustifyThreeItems | flexbox/src/test/java/com/dukescript/layouts/flexbox/FlexBoxLayoutTest.java:166-196 | Three 50-wide items in 200 start at 50 (FLEX_END) and 0 (FLEX_START). Under SPACE_AROUND they start at 25/3 and 75, and under SPACE_BETWEEN at 0 and 75. |
| CrossItems.AlignLineEach | flexbox/src/main/java/com/dukescript/layouts/flexbox/FlexboxLayout.java:347-384 | Each member of the line is aligned from its own prior state and the line cross size. Items outside the line are unchanged. |
| CrossItems.SelfAlignedIgnoresMode | flexbox/src/main/java/com/dukescript/layouts/flexbox/FlexboxLayout.java:386-392 | An item with its own align-self is placed the same way under every align-items mode. |
| CrossItems.AlignItemPlacement | flexbox/src/main/java/com/dukescript/layouts/flexbox/FlexboxLayout.java:347-384 | For an item without its own alignment: FLEX_START starts at the margin, FLEX_END ends at margin plus line size, and CENTER and BASELINE centre it. STRETCH starts at the margin with the whole line size. Only STRETCH changes the size. |
| CrossItems.AlignSelfPlacement | flexbox/src/main/java/com/dukescript/layouts/flexbox/FlexboxLayout.java:323-345 | AUTO and BASELINE change nothing. FLEX_START, FLEX_END and CENTER place it as align-items does. STRETCH fills the line between both margins. |
| CrossItems.StretchesDiffer | flexbox/src/main/java/com/dukescript/layouts/flexbox/FlexboxLayout.java:323-368 | Under align-items STRETCH, an AUTO item gets more cross size than an align-self STRETCH item, by both cross margins, at the same start. |
| CrossItems.AlignItemsTwoItems | flexbox/src/test/java/com/dukescript/layouts/flexbox/FlexBoxLayoutTest.java:255-285 | Items of 10 and 50 in a line of 50 start at 0 and 0 (FLEX_START), 40 and 0 (FLEX_END), and 20 and 0 (CENTER). STRETCH gives the first 50. |
| CrossItems.AlignSelfFlexEnd | flexbox/src/test/java/com/dukescript/layouts/flexbox/FlexBoxLayoutTest.java:288-300 | An align-self FLEX_END item of 10 in a line of 50 starts at 40 even under align-items FLEX_START. |
| Placement.LayoutLineEach | flexbox/src/main/java/com/dukescript/layouts/flexbox/FlexboxLayout.java:730-740 | Every member of a line gets the bounds computed from the line's cross start and its own targets. Other items keep theirs. |
| Placement.ApplyLayoutEach | flexbox/src/main/java/com/dukescript/layouts/flexbox/FlexboxLayout.java:726-742 | With disjoint lines, every item of every line gets the bounds from its line, and an item in no line keeps its bounds. |
| Placement.ItemBoundsAxes | flexbox/src/main/java/com/dukescript/layouts/flexbox/FlexboxLayout.java:733-738 | On the main axis the bounds start at the main start and span the target less both margins. On the cross axis they start at the line's cross start plus the item's own, and span the cross target less both margins. |
| Placement.ColumnIsTransposedRow | flexbox/src/main/java/com/dukescript/layouts/flexbox/FlexboxLayout.java:733-738 | A column lays an item out exactly as a row lays out the item with its margins transposed, mirrored across the diagonal. |
| Pipeline.BreaksPartition | flexbox/src/main/java/com/dukescript/layouts/flexbox/FlexboxLayout.java:543-608 | For every wrap mode, the lines partition the measured items: every item is in exactly one line, and each line carries its members' aggregates. |
| Pipeline.ContentKeepsLines | flexbox/src/main/java/com/dukescript/layouts/flexbox/FlexboxLayout.java:240-300 | align-content keeps each line's members, main size and grow and shrink totals. |
| Pipeline.StepFrame | flexbox/src/main/java/com/dukescript/layouts/flexbox/FlexboxLayout.java:313-321 | Laying out one line changes only that line's main size and the results of its own members. |
| Pipeline.StartStateFacts | flexbox/src/main/java/com/dukescript/layouts/flexbox/FlexboxLayout.java:207-211 | Before the lines are laid out, the lines are disjoint and cover every item, each line's main size is its members' sum, and each target is the item's hypothetical main size. |
| Pipeline.LayoutIsStartState | flexbox/src/main/java/com/dukescript/layouts/flexbox/FlexboxLayout.java:207-214 | `layoutSubViews` yields the sorted order, the line breaker's minimum main size, the align-content minimum cross size, the laid-out lines and targets, and `applyLayout`'s bounds. |
| Pipeline.FinalLines | flexbox/src/main/java/com/dukescript/layouts/flexbox/FlexboxLayout.java:313-321 | After all lines are laid out, the lines are still disjoint and cover every item. |
| Pipeline.LayoutLineSizesAddUp | flexbox/src/main/java/com/dukescript/layouts/flexbox/FlexboxLayout.java:448-519 | After `layoutSubViews`, each line's minimum main size is the sum of its members' main target sizes. |
| Pipeline.ApplyLayoutCovers | flexbox/src/main/java/com/dukescript/layouts/flexbox/FlexboxLayout.java:726-742 | When the lines are disjoint and cover every item, every item's bounds come from its own line. |
| Pipeline.ApplyLayoutOverwrites | flexbox/src/main/java/com/dukescript/layouts/flexbox/FlexboxLayout.java:726-742 | When the lines cover every item, the bounds before `applyLayout` do not affect its result. |
| Pipeline.LayoutPlacesEveryItem | flexbox/src/main/java/com/dukescript/layouts/flexbox/FlexboxLayout.java:207-214 | After `layoutSubViews` every item has the bounds computed from the line that holds it and its final targets. |
| Pipeline.LayoutForgetsOldBounds | flexbox/src/main/java/com/dukescript/layouts/flexbox/FlexboxLayout.java:207-214 | The result of `layoutSubViews` does not depend on the bounds the items had before. |
| Pipeline.LayoutGrowFillsLines | flexbox/src/main/java/com/dukescript/layouts/flexbox/FlexboxLayout.java:452-484 | With no negative grow factor, each line that had free space and a positive grow total exactly fills mainSize, unless all its growing items reached their maximum. No growing item exceeds its maximum. |
| Flexbox.FlexboxLayout.constructor | flexbox/src/main/java/com/dukescript/layouts/flexbox/FlexboxLayout.java:166-175 | A new container has no items or lines, unset direction and wrap, FLEX_START / STRETCH / FLEX_START alignments, and both minimum sizes at Double.MIN_VALUE. |
| Flexbox.FlexboxLayout.SetFlexDirection | flexbox/src/main/java/com/dukescript/layouts/flexbox/FlexboxLayout.java:624-626 | Only the direction changes. |
| Flexbox.FlexboxLayout.SetFlexWrap | flexbox/src/main/java/com/dukescript/layouts/flexbox/FlexboxLayout.java:644-646 | Only the wrap mode changes. |
| Flexbox.FlexboxLayout.SetJustifyContent | flexbox/src/main/java/com/dukescript/layouts/flexbox/FlexboxLayout.java:664-666 | Only justify-content changes. |
| Flexbox.FlexboxLayout.SetAlignItems | flexbox/src/main/java/com/dukescript/layouts/flexbox/FlexboxLayout.java:684-686 | Only align-items changes. |
| Flexbox.FlexboxLayout.SetAlignContent | flexbox/src/main/java/com/dukescript/layouts/flexbox/FlexboxLayout.java:706-708 | Only align-content changes. |
| Flexbox.FlexboxLayout.Add | flexbox/src/main/java/com/dukescript/layouts/flexbox/FlexboxLayout.java:715-717 | The item is appended with fresh result fields. Settings, lines and the sorted list are unchanged. |
| Flexbox.FlexboxLayout.ClearItems | flexbox/src/main/java/com/dukescript/layouts/flexbox/FlexboxLayout.java:722-724 | The added items are emptied and nothing else changes: the sorted list and the lines stay. |
| Flexbox.FlexboxLayout.ResetChildren | flexbox/src/main/java/com/dukescript/layouts/flexbox/FlexboxLayout.java:744-753 | Every target size and start position becomes -1. The bounds stay. |
| Flexbox.FlexboxLayout.SortChildren | flexbox/src/main/java/com/dukescript/layouts/flexbox/FlexboxLayout.java:224-238 | The layout order becomes the stable sort by `order`, reversed for the reverse directions. |
| Flexbox.FlexboxLayout.CalculateFlexLines | flexbox/src/main/java/com/dukescript/layouts/flexbox/FlexboxLayout.java:543-608 | The lines and minimum main size are the line breaker's. Each sorted item's targets become its hypothetical sizes, and the rest stay. |
| Flexbox.FlexboxLayout.AlignContent | flexbox/src/main/java/com/dukescript/layouts/flexbox/FlexboxLayout.java:240-300 | The lines and minimum cross size become the align-content result. Item results are unchanged. |
| Flexbox.FlexboxLayout.DistributeMainLineSpace | flexbox/src/main/java/com/dukescript/layouts/flexbox/FlexboxLayout.java:448-519 | The main targets and this line's main size become the distribution result. Nothing else changes. |
| Flexbox.FlexboxLayout.ApplyJustifyContent | flexbox/src/main/java/com/dukescript/layouts/flexbox/FlexboxLayout.java:394-430 | The main start positions become the justify result for the line. Nothing else changes. |
| Flexbox.FlexboxLayout.ApplyAlignItems | flexbox/src/main/java/com/dukescript/layouts/flexbox/FlexboxLayout.java:347-384 | The cross starts and cross targets become the line's align result. Nothing else changes. |
| Flexbox.FlexboxLayout.LayoutFlexLines | flexbox/src/main/java/com/dukescript/layouts/flexbox/FlexboxLayout.java:313-321 | The lines and targets become the fold of the per-line layout over all lines. |
| Flexbox.FlexboxLayout.ApplyLayout | flexbox/src/main/java/com/dukescript/layouts/flexbox/FlexboxLayout.java:726-742 | The bounds become the `applyLayout` result from the lines and targets. |
| Flexbox.FlexboxLayout.LayoutSubViews | flexbox/src/main/java/com/dukescript/layouts/flexbox/FlexboxLayout.java:207-214 | The whole new state (order, lines, minimum sizes, targets, bounds) is the pipeline's result, and the settings and items are kept. |
| Flexbox.PlaceLinesLoop | flexbox/src/main/java/com/dukescript/layouts/flexbox/FlexboxLayout.java:255-311 | The align-content loop computes the placed lines and the final cursor of the spacing. |
| Flexbox.MainStartLoop | flexbox/src/main/java/com/dukescript/layouts/flexbox/FlexboxLayout.java:432-446 | The justify loop writes exactly the prefix-fold positions. |
| Flexbox.ApplyAlignSelf | flexbox/src/main/java/com/dukescript/layouts/flexbox/FlexboxLayout.java:323-345 | The switch computes the item's own alignment. |
| Flexbox.AlignItemsLoop | flexbox/src/main/java/com/dukescript/layouts/flexbox/FlexboxLayout.java:347-392 | The align-items loop over a line computes the line's align result. |
| Flexbox.BoundsLoop | flexbox/src/main/java/com/dukescript/layouts/flexbox/FlexboxLayout.java:726-742 | The nested loops compute the `applyLayout` bounds. |
| Flexbox.CheckSkipItem | flexbox/src/main/java/com/dukescript/layouts/flexbox/FlexboxLayout.java:532-541 | An item is skipped exactly when it is frozen or the two values are equal. It is frozen afterwards exactly when it is skipped. |
| Flexbox.ResizeStep | flexbox/src/main/java/com/dukescript/layouts/flexbox/FlexboxLayout.java:459-476 | One iteration of the grow or shrink inner loop computes one item step. |
| Flexbox.ResizeRound | flexbox/src/main/java/com/dukescript/layouts/flexbox/FlexboxLayout.java:457-477 | The inner loop computes one round. |
| Flexbox.ResizeRounds | flexbox/src/main/java/com/dukescript/layouts/flexbox/FlexboxLayout.java:452-517 | The outer loop computes the rounds until no rest is given back. |
| Flexbox.BreakLines | flexbox/src/main/java/com/dukescript/layouts/flexbox/FlexboxLayout.java:543-608 | Line breaking computes the specified lines and minimum main size, and records each item's hypothetical sizes. |
| Flexbox.NoWrapLine | flexbox/src/main/java/com/dukescript/layouts/flexbox/FlexboxLayout.java:550-570 | The NOWRAP loop computes the single accumulated line. |
| Flexbox.WrapLines | flexbox/src/main/java/com/dukescript/layouts/flexbox/FlexboxLayout.java:573-603 | The wrapping loop computes the specified lines, running size and minimum main size. |
| Scenarios.MarginWide | flexbox/src/test/java/com/dukescript/layouts/flexbox/FlexBoxLayoutTest.java:331-351 | In a row of 220, items of 100 by 20 with margins of 5 share one line. Their targets are 110 by 30, they sit at x = 5 and x = 115 with y = 5, and their bounds are 100 by 20. The container needs 30 across. |
| Scenarios.MarginNarrow | flexbox/src/test/java/com/dukescript/layouts/flexbox/FlexBoxLayoutTest.java:352-362 | In a row of 120, the second item wraps onto a line starting at 30. Both items sit at x = 5, at y = 5 and y = 35, with bounds 100 by 20. The container needs 60 across. |

## Left out

- Floating point: `double` and `float` arithmetic is modelled on reals. Rounding, NaN and infinities are not modelled, and neither are the `float` grow and shrink totals.
- Division by zero: SPACE_BETWEEN in `alignContent` with a single line divides by zero in the Java. This only affects the cursor after the last line, so the model uses a gap of 0 there. SPACE_AROUND in `applyJustifyContent` with no items divides by zero too, but writes nothing.
- Logging (`LOG.finest`) is left out. It has no effect on the layout.
- Object identity: items are positions in the list of added items. The frozen `HashSet` is a set of positions. The same item object added twice, which the Java would share, is not modelled.
- The getters, `isHorizontal` apart from its use, the builder of `DefaultFlexItem` and the `adjustBounds` hook are not modelled. The `wrapBefore` field is stored in `FlexTypes.FlexItem` but, as in the Java, never read.
- Null alignment values: the Java setters `setJustifyContent`, `setAlignItems` and `setAlignContent` accept `null`, and an item's `alignSelf` may be `null`. The `isSelfAligned` test then passes, and the `switch` in the layout, or in `applyAlignSelf`, throws a `NullPointerException`. The model's alignment values are enumerations that cannot be null, so this error path is not modelled. Null `flexDirection` and `flexWrap` are modelled, as `Option`s.
- The JavaFX pane and the iOS view that call the engine are not part of this model.
- MainAxis.JustifySpaceAround: it requires that the line does not overflow. On overflow the gap the Java clamps to 0 is covered only by `MainAxis.JustifyGaps`.
- MainSpace.DistributeGrow: it requires non-negative grow factors that add up to the line total, as line breaking leaves them. Line breaking leaves the totals so, as `Pipeline.LayoutGrowFillsLines` shows, but negative factors are not covered.
- MainSpace.DistributeShrink: it states each member's outcome of the single round, not that the line then fits. In the Java the line need not fit, for example when members are skipped (see `MainSpace.ShrinkSkipsAfterClamp`).

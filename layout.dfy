// The FlexboxLayout container: its settings, the items added to it, the
// lines of the last layout, and the per-item results of the layout. The
// items' own result fields (target sizes, start positions, bounds) are
// kept here as sequences indexed by the item's position among the added
// items; every other value an item carries is read-only input.
module Flexbox {
  import opened FlexTypes
  import opened Positions
  import opened Ordering
  import opened LineBreaking
  import opened CrossLines
  import opened MainSpace
  import opened MainAxis
  import opened CrossItems
  import opened Placement
  import opened Pipeline

  class FlexboxLayout {
    var flexDirection: Option<FlexDirection>
    var flexWrap: Option<FlexWrap>
    var justifyContent: JustifyContent
    var alignItems: AlignItems
    var alignContent: AlignContent
    var flexLines: seq<FlexLine>
    var originalItems: seq<FlexItem>
    /** The added items' positions in layout order, as the last sort left them. */
    var items: seq<nat>
    var minMainSize: real
    var minCrossSize: real
    var mainTargetSize: seq<real>
    var crossTargetSize: seq<real>
    var mainStartPos: seq<real>
    var crossStartPos: seq<real>
    var bounds: seq<Option<Bounds>>

    /** Every added item has its result fields. */
    predicate Valid()
      reads this
    {
      && |mainTargetSize| == |originalItems| && |crossTargetSize| == |originalItems|
      && |mainStartPos| == |originalItems| && |crossStartPos| == |originalItems|
      && |bounds| == |originalItems|
    }

    function Config(): Config
      reads this
    {
      Pipeline.Config(flexDirection, flexWrap, justifyContent, alignItems, alignContent)
    }

    function Targets(): (t: Targets)
      reads this
      requires Valid()
      ensures TargetsFor(t, |originalItems|)
    {
      Placement.Targets(mainTargetSize, crossTargetSize, mainStartPos, crossStartPos)
    }

    predicate IsHorizontalLayout()
      reads this
    {
      IsHorizontal(flexDirection)
    }

    /** A new layout: no items and no lines, unset direction and wrap, and the default alignments. */
    constructor()
      ensures Valid() && originalItems == [] && items == [] && flexLines == []
      ensures flexDirection == None && flexWrap == None
      ensures justifyContent == JustifyContent.FlexStart && alignItems == AlignItems.Stretch
      ensures alignContent == FlexTypes.AlignContent.FlexStart
      ensures minMainSize == DoubleMinValue && minCrossSize == DoubleMinValue
    {
      flexDirection := None;
      flexWrap := None;
      justifyContent := JustifyContent.FlexStart;
      alignItems := AlignItems.Stretch;
      alignContent := FlexTypes.AlignContent.FlexStart;
      flexLines := [];
      originalItems := [];
      items := [];
      minMainSize := DoubleMinValue;
      minCrossSize := DoubleMinValue;
      mainTargetSize := [];
      crossTargetSize := [];
      mainStartPos := [];
      crossStartPos := [];
      bounds := [];
    }

    method SetFlexDirection(d: Option<FlexDirection>)
      modifies this
      ensures flexDirection == d
      ensures Config() == old(Config()).(direction := d)
      ensures unchanged(this`originalItems, this`items, this`flexLines, this`minMainSize, this`minCrossSize)
      ensures unchanged(this`mainTargetSize, this`crossTargetSize, this`mainStartPos, this`crossStartPos, this`bounds)
    {
      flexDirection := d;
    }

    method SetFlexWrap(w: Option<FlexWrap>)
      modifies this
      ensures Config() == old(Config()).(wrap := w)
      ensures unchanged(this`originalItems, this`items, this`flexLines, this`minMainSize, this`minCrossSize)
      ensures unchanged(this`mainTargetSize, this`crossTargetSize, this`mainStartPos, this`crossStartPos, this`bounds)
    {
      flexWrap := w;
    }

    method SetJustifyContent(j: JustifyContent)
      modifies this
      ensures Config() == old(Config()).(justify := j)
      ensures unchanged(this`originalItems, this`items, this`flexLines, this`minMainSize, this`minCrossSize)
      ensures unchanged(this`mainTargetSize, this`crossTargetSize, this`mainStartPos, this`crossStartPos, this`bounds)
    {
      justifyContent := j;
    }

    method SetAlignItems(a: AlignItems)
      modifies this
      ensures Config() == old(Config()).(alignItems := a)
      ensures unchanged(this`originalItems, this`items, this`flexLines, this`minMainSize, this`minCrossSize)
      ensures unchanged(this`mainTargetSize, this`crossTargetSize, this`mainStartPos, this`crossStartPos, this`bounds)
    {
      alignItems := a;
    }

    method SetAlignContent(a: AlignContent)
      modifies this
      ensures Config() == old(Config()).(alignContent := a)
      ensures unchanged(this`originalItems, this`items, this`flexLines, this`minMainSize, this`minCrossSize)
      ensures unchanged(this`mainTargetSize, this`crossTargetSize, this`mainStartPos, this`crossStartPos, this`bounds)
    {
      alignContent := a;
    }

    /** `add`: the item joins at the end, with the initial result fields of a new item. */
    method Add(item: FlexItem)
      requires Valid()
      modifies this
      ensures Valid() && originalItems == old(originalItems) + [item]
      ensures mainTargetSize == old(mainTargetSize) + [0.0] && crossTargetSize == old(crossTargetSize) + [0.0]
      ensures mainStartPos == old(mainStartPos) + [0.0] && crossStartPos == old(crossStartPos) + [0.0]
      ensures bounds == old(bounds) + [None]
      ensures Config() == old(Config())
      ensures unchanged(this`items, this`flexLines, this`minMainSize, this`minCrossSize)
    {
      originalItems := originalItems + [item];
      mainTargetSize := mainTargetSize + [0.0];
      crossTargetSize := crossTargetSize + [0.0];
      mainStartPos := mainStartPos + [0.0];
      crossStartPos := crossStartPos + [0.0];
      bounds := bounds + [None];
    }

    /** `clearItems`: no item is left; the lines and the sorted list of the last layout stay. */
    method ClearItems()
      modifies this
      ensures Valid() && originalItems == []
      ensures Config() == old(Config())
      ensures unchanged(this`items, this`flexLines, this`minMainSize, this`minCrossSize)
    {
      originalItems := [];
      mainTargetSize := [];
      crossTargetSize := [];
      mainStartPos := [];
      crossStartPos := [];
      bounds := [];
    }

    /** `resetChildren`: every added item's target sizes and start positions become -1. */
    method ResetChildren()
      requires Valid()
      modifies this
      ensures Valid() && Targets() == ResetTargets(|originalItems|)
      ensures unchanged(this`originalItems, this`items, this`flexLines, this`minMainSize, this`minCrossSize, this`bounds)
      ensures Config() == old(Config())
    {
      var n := |originalItems|;
      var i := 0;
      while i < n
        invariant 0 <= i <= n && Valid() && originalItems == old(originalItems)
        invariant forall j :: 0 <= j < i ==>
          crossStartPos[j] == -1.0 && crossTargetSize[j] == -1.0 && mainStartPos[j] == -1.0 && mainTargetSize[j] == -1.0
        invariant unchanged(this`items, this`flexLines, this`minMainSize, this`minCrossSize, this`bounds)
        invariant Config() == old(Config())
      {
        crossStartPos := crossStartPos[i := -1.0];
        crossTargetSize := crossTargetSize[i := -1.0];
        mainStartPos := mainStartPos[i := -1.0];
        mainTargetSize := mainTargetSize[i := -1.0];
        i := i + 1;
      }
    }

    /** `sortChildren`: the items in layout order, stably by `order`, reversed for a reversed direction. */
    method SortChildren()
      requires Valid()
      modifies this
      ensures Valid() && items == SortedItems(originalItems, flexDirection)
      ensures unchanged(this`originalItems, this`flexLines, this`minMainSize, this`minCrossSize)
      ensures unchanged(this`mainTargetSize, this`crossTargetSize, this`mainStartPos, this`crossStartPos, this`bounds)
      ensures Config() == old(Config())
    {
      items := SortedItems(originalItems, flexDirection);
    }
  
    /**
     * `calculateFlexLines`: the sorted items get their hypothetical sizes as targets and are
     * broken into lines; NOWRAP keeps them on one line, WRAP_REVERSE reverses the lines.
     */
    method CalculateFlexLines(mainSize: real)
      requires Valid() && InRange(items, |originalItems|)
      modifies this
      ensures Valid()
      ensures unchanged(this`originalItems, this`items, this`minCrossSize, this`bounds)
      ensures Config() == old(Config())
      ensures var m := MeasureAll(originalItems, IsHorizontal(flexDirection), mainSize);
        var lb := FlexLines(m, items, flexWrap, mainSize);
        && flexLines == lb.lines && minMainSize == lb.minMainSize
        && Targets() == MeasuredTargets(m, items, old(Targets()))
    {
      var horizontal := IsHorizontalLayout();
      var lb, t := MeasureAndBreak(originalItems, items, flexWrap, horizontal, mainSize, Targets());
      flexLines := lb.lines;
      minMainSize := lb.minMainSize;
      mainTargetSize := t.mts;
      crossTargetSize := t.cts;
    }
  
    /**
     * `alignContent`: the layout's minimum cross size becomes the sum of the lines' cross sizes,
     * and every line gets its cross start (and under STRETCH its share of the free cross space).
     */
    method AlignContent(crossSize: real)
      modifies this
      ensures var ac := AlignContentSpec(old(flexLines), alignContent, crossSize);
        flexLines == ac.lines && minCrossSize == ac.minCrossSize
      ensures unchanged(this`originalItems, this`items, this`minMainSize)
      ensures unchanged(this`mainTargetSize, this`crossTargetSize, this`mainStartPos, this`crossStartPos, this`bounds)
      ensures Config() == old(Config())
    {
      minCrossSize := 0.0;
      if |flexLines| == 0 {
        return;
      }
      var lines := flexLines;
      var n := |lines|;
      var total := SumCrossLoop(lines);
      minCrossSize := total;
      var sp := SpacingFor(alignContent, crossSize, total, n);
      var placed, cursor := PlaceLinesLoop(lines, sp);
      if alignContent == FlexTypes.AlignContent.FlexStart {
        FinalCursor(lines, sp, 0.0);
        minCrossSize := cursor;
      }
      flexLines := placed;
    }
    /**
     * `distributeMainLineSpace` on line `k`: positive free space is handed out by the grow
     * rounds when the line's grow total is positive, negative free space taken away by the
     * shrink rounds when its shrink total is positive; the line's minMainSize follows.
     */
    method DistributeMainLineSpace(k: nat, horizontal: bool, mainSize: real)
      requires Valid() && k < |flexLines| && InRange(flexLines[k].flexItems, |originalItems|)
      modifies this
      ensures Valid()
      ensures unchanged(this`originalItems, this`items, this`minMainSize, this`minCrossSize)
      ensures var d := Distribute(originalItems, horizontal, old(flexLines[k]), old(mainTargetSize), mainSize);
        && mainTargetSize == d.mts
        && flexLines == old(flexLines)[k := old(flexLines[k]).(minMainSize := d.lineMain)]
      ensures unchanged(this`crossTargetSize, this`mainStartPos, this`crossStartPos, this`bounds)
      ensures Config() == old(Config())
    {
      var line := flexLines[k];
      var freeSpace := mainSize - line.minMainSize;
      if freeSpace > 0.0 {
        if line.grow > 0.0 {
          var p := ResizeRounds(originalItems, horizontal, Grow, line.flexItems,
            Pass(mainTargetSize, line.minMainSize, {}, line.grow, 0.0), freeSpace / line.grow);
          mainTargetSize := p.mts;
          flexLines := flexLines[k := line.(minMainSize := p.lineMain)];
        }
      } else if freeSpace < 0.0 {
        if line.shrink > 0.0 {
          var p := ResizeRounds(originalItems, horizontal, Shrink, line.flexItems,
            Pass(mainTargetSize, line.minMainSize, {}, line.shrink, 0.0), freeSpace / line.shrink);
          mainTargetSize := p.mts;
          flexLines := flexLines[k := line.(minMainSize := p.lineMain)];
        }
      }
    }

    /**
     * `applyJustifyContent` on line `k`: the members' main start positions, from a cursor
     * that starts and advances as the container's justify-content says.
     */
    method ApplyJustifyContent(k: nat, horizontal: bool, mainSize: real)
      requires Valid() && k < |flexLines| && InRange(flexLines[k].flexItems, |originalItems|)
      modifies this
      ensures Valid()
      ensures unchanged(this`originalItems, this`items, this`flexLines, this`minMainSize, this`minCrossSize)
      ensures unchanged(this`mainTargetSize, this`crossTargetSize, this`crossStartPos, this`bounds)
      ensures Config() == old(Config())
      ensures mainStartPos == Justify(originalItems, horizontal, justifyContent, flexLines[k], mainTargetSize,
                                      old(mainStartPos), mainSize)
    {
      var line := flexLines[k];
      var n := |line.flexItems|;
      var rest := mainSize - line.minMainSize;
      var gaps;
      match justifyContent {
        case FlexStart => gaps := Gaps(0.0, 0.0, 0.0);
        case FlexEnd => gaps := Gaps(Max(0.0, rest), 0.0, 0.0);
        case Center => gaps := Gaps(Max(rest / 2.0, 0.0), 0.0, 0.0);
        case SpaceAround =>
          // With no member the loop does not run, whatever the quotient.
          var extraSpacePerItem := if n == 0 then 0.0 else Max((rest / (n as real)) / 2.0, 0.0);
          gaps := Gaps(0.0, extraSpacePerItem, extraSpacePerItem);
        case SpaceBetween =>
          if n == 1 {
            return;
          }
          var extraSpaceBetweenItems := if n == 0 then 0.0 else Max(0.0, rest / ((n - 1) as real));
          gaps := Gaps(0.0, 0.0, extraSpaceBetweenItems);
      }
      assert JustifyGaps(justifyContent, rest, n) == Some(gaps);
      mainStartPos := MainStartLoop(originalItems, horizontal, mainTargetSize, line.flexItems, gaps, mainStartPos);
    }

    /**
     * `applyAlignItems` on line `k`: every member's cross start position, and under STRETCH its
     * cross target size, from the line's cross size and the member's own alignment.
     */
    method ApplyAlignItems(k: nat, horizontal: bool)
      requires Valid() && k < |flexLines| && InRange(flexLines[k].flexItems, |originalItems|)
      modifies this
      ensures Valid()
      ensures unchanged(this`originalItems, this`items, this`flexLines, this`minMainSize, this`minCrossSize)
      ensures unchanged(this`mainTargetSize, this`mainStartPos, this`bounds)
      ensures Config() == old(Config())
      ensures CrossState(crossStartPos, crossTargetSize) ==
        AlignLine(originalItems, horizontal, alignItems, flexLines[k], CrossState(old(crossStartPos), old(crossTargetSize)))
    {
      var c := AlignItemsLoop(originalItems, horizontal, alignItems, flexLines[k], CrossState(crossStartPos, crossTargetSize));
      crossStartPos := c.csp;
      crossTargetSize := c.cts;
    }

    /** `layoutFlexLines`: every line in turn is distributed, justified and has its items aligned. */
    method LayoutFlexLines(mainSize: real)
      requires Valid() && LinesInRange(flexLines, |originalItems|)
      modifies this
      ensures Valid()
      ensures unchanged(this`originalItems, this`items, this`minMainSize, this`minCrossSize, this`bounds)
      ensures Config() == old(Config())
      ensures LineState(flexLines, Targets()) ==
        LayoutLinesPrefix(originalItems, IsHorizontal(flexDirection), Config(), mainSize,
                          LineState(old(flexLines), old(Targets())), |old(flexLines)|)
    {
      var horizontal := IsHorizontalLayout();
      var k := 0;
      while k < |flexLines|
        invariant Valid() && |flexLines| == |old(flexLines)| && 0 <= k <= |flexLines|
        invariant unchanged(this`originalItems, this`items, this`minMainSize, this`minCrossSize, this`bounds)
        invariant Config() == old(Config())
        invariant LinesInRange(flexLines, |originalItems|)
        invariant LineState(flexLines, Targets()) ==
          LayoutLinesPrefix(originalItems, horizontal, Config(), mainSize, LineState(old(flexLines), old(Targets())), k)
      {
        LayoutLine(k, horizontal, mainSize);
        LayoutLinesPrefixStep(originalItems, horizontal, Config(), mainSize, LineState(old(flexLines), old(Targets())), k + 1);
        k := k + 1;
      }
    }

    /** One iteration of `layoutFlexLines`: line `k` is distributed, justified and has its items aligned. */
    method LayoutLine(k: nat, horizontal: bool, mainSize: real)
      requires Valid() && LinesInRange(flexLines, |originalItems|) && k < |flexLines|
      requires horizontal == IsHorizontal(flexDirection)
      modifies this
      ensures Valid()
      ensures unchanged(this`originalItems, this`items, this`minMainSize, this`minCrossSize, this`bounds)
      ensures Config() == old(Config())
      ensures LineState(flexLines, Targets()) ==
        LayoutLineAt(originalItems, horizontal, Config(), mainSize, LineState(old(flexLines), old(Targets())), k)
    {
      DistributeMainLineSpace(k, horizontal, mainSize);
      ApplyJustifyContent(k, horizontal, mainSize);
      ApplyAlignItems(k, horizontal);
    }

    /** `applyLayout`: every line's members get their bounds. */
    method ApplyLayout()
      requires Valid() && LinesInRange(flexLines, |originalItems|)
      modifies this
      ensures Valid()
      ensures unchanged(this`originalItems, this`items, this`flexLines, this`minMainSize, this`minCrossSize)
      ensures unchanged(this`mainTargetSize, this`crossTargetSize, this`mainStartPos, this`crossStartPos)
      ensures Config() == old(Config())
      ensures bounds == Placement.ApplyLayout(originalItems, IsHorizontal(flexDirection), flexLines, Targets(), old(bounds))
    {
      bounds := BoundsLoop(originalItems, IsHorizontalLayout(), flexLines, Targets(), bounds);
    }

    /**
     * `layoutSubViews(mainSize, crossSize)`: reset, sort, break into lines, align the lines,
     * lay every line out and compute the bounds.
     */
    method LayoutSubViews(mainSize: real, crossSize: real)
      requires Valid()
      modifies this
      ensures Valid()
      ensures unchanged(this`originalItems)
      ensures Config() == old(Config())
      ensures var r := Pipeline.LayoutSubViews(Config(), originalItems, mainSize, crossSize, old(bounds));
        && items == r.order && flexLines == r.lines
        && minMainSize == r.minMainSize && minCrossSize == r.minCrossSize
        && Targets() == r.t && bounds == r.bounds
    {
      ResetChildren();
      SortChildren();
      CalculateFlexLines(mainSize);
      ghost var lb := Breaks(Config(), originalItems, mainSize);
      assert flexLines == lb.lines;
      AlignContent(crossSize);
      ContentKeepsLines(lb.lines, alignContent, crossSize);
      LayoutFlexLines(mainSize);
      ApplyLayout();
    }
  }

  /**
   * The loops of `alignContent`'s modes: each line starts where the cursor stands after its
   * `before`, and the cursor moves on by the line's cross size and its `after`.
   */
  /** The loop summing the lines' cross sizes. */
  method SumCrossLoop(lines: seq<FlexLine>) returns (total: real)
    ensures total == SumCross(lines)
  {
    total := 0.0;
    var k := 0;
    while k < |lines|
      invariant 0 <= k <= |lines| && total == SumCross(lines[..k])
    {
      SumCrossStep(lines, k);
      total := total + lines[k].minCrossSize;
      k := k + 1;
    }
    assert lines[..|lines|] == lines;
  }

  /** The spacing `alignContent` chooses for `n` lines whose cross sizes sum to `total`. */
  method SpacingFor(mode: AlignContent, crossSize: real, total: real, n: nat) returns (sp: Spacing)
    requires n > 0
    ensures sp == ContentSpacing(mode, crossSize, total, n)
  {
    var free := crossSize - total;
    match mode {
      case FlexStart => sp := Spacing(0.0, 0.0, 0.0, false);
      case FlexEnd => sp := Spacing(Max(0.0, free), 0.0, 0.0, false);
      case Center => sp := Spacing(Max(0.0, free / 2.0), 0.0, 0.0, false);
      case SpaceBetween =>
        // One line would divide by zero; the quotient only moves the cursor past the last line.
        var extra := if n == 1 then 0.0 else free / ((n - 1) as real);
        sp := Spacing(0.0, 0.0, extra, false);
      case Stretch => sp := Spacing(0.0, 0.0, free / (n as real), true);
      case SpaceAround =>
        var extraSpace := free / (n as real) / 2.0;
        sp := Spacing(0.0, extraSpace, extraSpace, false);
    }
  }

  method PlaceLinesLoop(lines: seq<FlexLine>, sp: Spacing) returns (r: seq<FlexLine>, cursor: real)
    ensures r == PlaceLines(lines, sp) && cursor == Cursor(lines, sp, |lines|)
  {
    r := lines;
    cursor := sp.start;
    var k := 0;
    while k < |lines|
      invariant 0 <= k <= |lines| && |r| == |lines| && cursor == Cursor(lines, sp, k)
      invariant forall i :: 0 <= i < k ==> r[i] == PlacedLine(lines, sp, i)
      invariant forall i :: k <= i < |lines| ==> r[i] == lines[i]
    {
      cursor := cursor + sp.before;
      var line := r[k].(crossStartPos := cursor);
      cursor := cursor + line.minCrossSize + sp.after;
      if sp.stretch {
        line := line.(minCrossSize := line.minCrossSize + sp.after);
      }
      r := r[k := line];
      k := k + 1;
    }
    }

  /** The loop that writes the main start positions: margin plus cursor, then past the item and its gaps. */
  method MainStartLoop(items: seq<FlexItem>, horizontal: bool, mts: seq<real>, line: seq<nat>, g: Gaps,
                       msp0: seq<real>) returns (msp: seq<real>)
    requires InRange(line, |items|) && |mts| == |items| && |msp0| == |items|
    ensures msp == JustifyPrefix(items, horizontal, mts, line, g, msp0, |line|)
  {
    msp := msp0;
    var startMain := g.start;
    var k := 0;
    while k < |line|
      invariant 0 <= k <= |line| && startMain == MainCursor(mts, line, g, k)
      invariant msp == JustifyPrefix(items, horizontal, mts, line, g, msp0, k)
    {
      var idx := line[k];
      startMain := startMain + g.before;
      msp := msp[idx := MainMarginStart(items[idx], horizontal) + startMain];
      startMain := startMain + g.after + mts[idx];
      k := k + 1;
    }
  }

  /** `applyAlignSelf`: an item's own alignment in a line of cross size `lineCrossSize`. */
  method ApplyAlignSelf(item: FlexItem, horizontal: bool, lineCrossSize: real, c: Cross) returns (r: Cross)
    ensures r == AlignSelfOn(item, horizontal, lineCrossSize, c)
  {
    r := c;
    match item.alignSelf {
      case Auto =>
      case Baseline =>
      case Center => r := r.(start := CrossMarginStart(item, horizontal) + (lineCrossSize - r.size) / 2.0);
      case FlexStart => r := r.(start := CrossMarginStart(item, horizontal));
      case FlexEnd => r := r.(start := CrossMarginStart(item, horizontal) + lineCrossSize - r.size);
      case Stretch =>
        r := r.(start := CrossMarginStart(item, horizontal));
        r := r.(size := lineCrossSize - CrossMarginStart(item, horizontal) - CrossMarginEnd(item, horizontal));
    }
  }

  /** The loop of `applyAlignItems` over one line's members. */
  method AlignItemsLoop(items: seq<FlexItem>, horizontal: bool, mode: AlignItems, line: FlexLine, st: CrossState)
    returns (r: CrossState)
    requires InRange(line.flexItems, |items|) && |st.csp| == |items| && |st.cts| == |items|
    ensures r == AlignLine(items, horizontal, mode, line, st)
  {
    var lineCrossSize := line.minCrossSize;
    r := st;
    var k := 0;
    while k < |line.flexItems|
      invariant 0 <= k <= |line.flexItems| && r == AlignPrefix(items, horizontal, mode, line, st, k)
    {
      var idx := line.flexItems[k];
      var item := items[idx];
      var c := Cross(r.csp[idx], r.cts[idx]);
      var ms := CrossMarginStart(item, horizontal);
      if IsSelfAligned(item) {
        c := ApplyAlignSelf(item, horizontal, lineCrossSize, c);
      } else {
        match mode {
          case FlexStart => c := c.(start := ms);
          case FlexEnd => c := c.(start := ms + lineCrossSize - c.size);
          case Stretch => c := Cross(ms, lineCrossSize);
          case Center => c := c.(start := ms + (lineCrossSize - c.size) / 2.0);
          case Baseline => c := c.(start := ms + (lineCrossSize - c.size) / 2.0);
        }
      }
      r := CrossState(r.csp[idx := c.start], r.cts[idx := c.size]);
      k := k + 1;
    }
  }

  /** The loops of `applyLayout`: the bounds of each line's members, line after line. */
  method BoundsLoop(items: seq<FlexItem>, horizontal: bool, lines: seq<FlexLine>, t: Targets,
                    bounds0: seq<Option<Bounds>>) returns (bounds: seq<Option<Bounds>>)
    requires LinesInRange(lines, |items|) && TargetsFor(t, |items|) && |bounds0| == |items|
    ensures bounds == ApplyLayout(items, horizontal, lines, t, bounds0)
  {
    bounds := bounds0;
    var l := 0;
    while l < |lines|
      invariant 0 <= l <= |lines| && bounds == ApplyLayoutPrefix(items, horizontal, lines, t, bounds0, l)
    {
      var line := lines[l];
      var crossStartPos := line.crossStartPos;
      ghost var before := bounds;
      var j := 0;
      while j < |line.flexItems|
        invariant 0 <= j <= |line.flexItems| && |bounds| == |items|
        invariant bounds == LayoutLinePrefix(items, horizontal, line, t, before, j)
      {
        var idx := line.flexItems[j];
        var item := items[idx];
        var mainMargin := MainMarginStart(item, horizontal) + MainMarginEnd(item, horizontal);
        var crossMargin := CrossMarginStart(item, horizontal) + CrossMarginEnd(item, horizontal);
        bounds := bounds[idx := Some(Bounds(
          if horizontal then t.msp[idx] else crossStartPos + t.csp[idx],
          if horizontal then crossStartPos + t.csp[idx] else t.msp[idx],
          if horizontal then t.mts[idx] - mainMargin else t.cts[idx] - crossMargin,
          if horizontal then t.cts[idx] - crossMargin else t.mts[idx] - mainMargin))];
        j := j + 1;
      }
      l := l + 1;
    }
  }

  /** `checkSkipItem`: a frozen item is skipped; so is one whose checked value equals the other, which freezes it. */
  method CheckSkipItem(frozen: set<nat>, idx: nat, valueToCheck: real, valueToCheckAgainst: real)
    returns (skip: bool, frozen': set<nat>)
    ensures skip <==> idx in frozen || valueToCheck == valueToCheckAgainst
    ensures frozen' == if skip then frozen + {idx} else frozen
  {
    frozen' := frozen;
    if idx in frozen {
      return true, frozen';
    }
    if valueToCheck == valueToCheckAgainst {
      frozen' := frozen' + {idx};
      return true, frozen';
    }
    return false, frozen';
  }

  /** The body of the inner loop of a pass, for the member at position `idx`. */
  method ResizeStep(items: seq<FlexItem>, horizontal: bool, mode: Resize, unit: real, p: Pass, idx: nat)
    returns (r: Pass)
    requires idx < |items| == |p.mts|
    ensures r == ResizeItem(items, horizontal, mode, unit, p, idx)
  {
    var item := items[idx];
    var skip, frozen;
    if mode == Grow {
      skip, frozen := CheckSkipItem(p.frozen, idx, item.flexGrow, 0.0);
    } else {
      skip, frozen := CheckSkipItem(p.frozen, idx, p.total, 1.0);
    }
    if skip {
      return p.(frozen := frozen);
    }
    var rest, total := p.rest, p.total;
    var grownSize := Factor(item, mode) * unit + p.mts[idx];
    var clampedSize := Limit(item, horizontal, mode);
    if Clamps(mode, grownSize, clampedSize) {
      rest := rest + (grownSize - clampedSize);
      grownSize := clampedSize;
      frozen := frozen + {idx};
      total := total - Factor(item, mode);
    }
    var distributed := grownSize - p.mts[idx];
    r := Pass(p.mts[idx := grownSize], p.lineMain + distributed, frozen, total, rest);
  }

  /** One round of a grow or shrink pass: the inner loop over the line's members. */
  method ResizeRound(items: seq<FlexItem>, horizontal: bool, mode: Resize, unit: real, line: seq<nat>, p0: Pass)
    returns (p: Pass)
    requires InRange(line, |items|) && |p0.mts| == |items|
    ensures p == Round(items, horizontal, mode, unit, line, p0)
  {
    p := p0.(rest := 0.0);
    var k := 0;
    while k < |line|
      invariant 0 <= k <= |line| && p == RoundPrefix(items, horizontal, mode, unit, line, p0.(rest := 0.0), k)
    {
      p := ResizeStep(items, horizontal, mode, unit, p, line[k]);
      k := k + 1;
    }
    assert line[..|line|] == line;
  }

  /** The outer loop of a pass: another round while a clamped item gave back rest. */
  method ResizeRounds(items: seq<FlexItem>, horizontal: bool, mode: Resize, line: seq<nat>, p0: Pass, unit0: real)
    returns (p: Pass)
    requires InRange(line, |items|) && |p0.mts| == |items| && p0.frozen <= Members(line)
    ensures p == Rounds(items, horizontal, mode, line, p0, unit0)
  {
    p := p0;
    var unit := unit0;
    while Continues(mode, p.total, unit)
      invariant |p.mts| == |items| && p.frozen <= Members(line)
      invariant Rounds(items, horizontal, mode, line, p, unit) == Rounds(items, horizontal, mode, line, p0, unit0)
      decreases |Members(line) - p.frozen|
    {
      var q := ResizeRound(items, horizontal, mode, unit, line, p);
      RoundFreezes(items, horizontal, mode, unit, line, p);
      if q.rest > 0.0 {
        p, unit := q, NewGrowUnit(q.total, q.rest);
      } else {
        p := q;
        break;
      }
    }
  }

  /** The body of `calculateFlexLines` on values: the lines, the layout's minimum main size and the targets. */
  /** Line breaking together with the targets it leaves. */
  method MeasureAndBreak(items: seq<FlexItem>, order: seq<nat>, wrap: Option<FlexWrap>, horizontal: bool, mainSize: real,
                         t0: Targets) returns (lb: LineBreak, t: Targets)
    requires InRange(order, |items|) && TargetsFor(t0, |items|)
    ensures lb == FlexLines(MeasureAll(items, horizontal, mainSize), order, wrap, mainSize)
    ensures t == MeasuredTargets(MeasureAll(items, horizontal, mainSize), order, t0)
  {
    var mts, cts;
    lb, mts, cts := BreakLines(items, order, wrap, horizontal, mainSize, t0.mts, t0.cts);
    MeasuredUpToAll(MeasureAll(items, horizontal, mainSize), order, t0.mts, t0.cts, mts, cts, t0.msp, t0.csp);
    t := Targets(mts, cts, t0.msp, t0.csp);
  }

  method BreakLines(items: seq<FlexItem>, order: seq<nat>, wrap: Option<FlexWrap>, horizontal: bool, mainSize: real,
                    mts0: seq<real>, cts0: seq<real>) returns (lb: LineBreak, mts: seq<real>, cts: seq<real>)
    requires InRange(order, |items|) && |mts0| == |items| && |cts0| == |items|
    ensures lb == FlexLines(MeasureAll(items, horizontal, mainSize), order, wrap, mainSize)
    ensures MeasuredUpTo(MeasureAll(items, horizontal, mainSize), order, |order|, mts0, cts0, mts, cts)
  {
    if wrap == Some(FlexWrap.NoWrap) {
      var line;
      line, mts, cts := NoWrapLine(items, order, horizontal, mainSize, mts0, cts0);
      lb := LineBreak([line], line.minMainSize);
    } else {
      var lines, minMain;
      lines, minMain, mts, cts := WrapLines(items, order, horizontal, mainSize, mts0, cts0);
      lb := LineBreak(if wrap == Some(FlexWrap.WrapReverse) then Reverse(lines) else lines, minMain);
    }
  }

  /** The first `k` entries of `order` carry their hypothetical sizes, every other item what it had. */
  predicate MeasuredUpTo(m: seq<Measured>, order: seq<nat>, k: nat, mts0: seq<real>, cts0: seq<real>,
                         mts: seq<real>, cts: seq<real>)
  {
    && k <= |order| && |mts0| == |m| && |cts0| == |m| && |mts| == |m| && |cts| == |m|
    && (forall i :: 0 <= i < |m| ==> mts[i] == if i in order[..k] then m[i].main else mts0[i])
    && (forall i :: 0 <= i < |m| ==> cts[i] == if i in order[..k] then m[i].cross else cts0[i])
  }

  lemma MeasuredUpToAll(m: seq<Measured>, order: seq<nat>, mts0: seq<real>, cts0: seq<real>,
                        mts: seq<real>, cts: seq<real>, msp: seq<real>, csp: seq<real>)
    requires MeasuredUpTo(m, order, |order|, mts0, cts0, mts, cts) && |msp| == |m| && |csp| == |m|
    ensures Targets(mts, cts, msp, csp) == MeasuredTargets(m, order, Targets(mts0, cts0, msp, csp))
  {
    assert order[..|order|] == order;
  }

  /** Measuring the next item of `order` extends the measured prefix by one. */
  lemma MeasuredUpToStep(m: seq<Measured>, order: seq<nat>, k: nat, mts0: seq<real>, cts0: seq<real>,
                         mts: seq<real>, cts: seq<real>)
    requires k < |order| && InRange(order, |m|) && MeasuredUpTo(m, order, k, mts0, cts0, mts, cts)
    ensures MeasuredUpTo(m, order, k + 1, mts0, cts0, mts[order[k] := m[order[k]].main], cts[order[k] := m[order[k]].cross])
  {
    assert order[..k + 1] == order[..k] + [order[k]];
  }

  /** The NOWRAP loop's body: the line's adjustCrossSize, setGrow and setShrink for the `k`-th item. */
  method NoWrapItem(ghost m: seq<Measured>, order: seq<nat>, k: nat, line0: FlexLine, x: Measured) returns (line: FlexLine)
    requires InRange(order, |m|) && k < |order| && line0 == NoWrapPrefix(m, order, k) && x == m[order[k]]
    ensures line == NoWrapPrefix(m, order, k + 1)
  {
    line := Account(line0, x).(minMainSize := line0.minMainSize + x.main);
  }

  /** The NOWRAP branch of `calculateFlexLines`: one line with every sorted item. */
  method NoWrapLine(items: seq<FlexItem>, order: seq<nat>, horizontal: bool, mainSize: real,
                    mts0: seq<real>, cts0: seq<real>) returns (line: FlexLine, mts: seq<real>, cts: seq<real>)
    requires InRange(order, |items|) && |mts0| == |items| && |cts0| == |items|
    ensures line == NoWrapPrefix(MeasureAll(items, horizontal, mainSize), order, |order|)
    ensures MeasuredUpTo(MeasureAll(items, horizontal, mainSize), order, |order|, mts0, cts0, mts, cts)
  {
    ghost var m := MeasureAll(items, horizontal, mainSize);
    mts, cts := mts0, cts0;
    line := EmptyLine.(flexItems := order);
    var k := 0;
    while k < |order|
      invariant 0 <= k <= |order| && MeasuredUpTo(m, order, k, mts0, cts0, mts, cts)
      invariant line == NoWrapPrefix(m, order, k)
    {
      var x := Measure(items[order[k]], horizontal, mainSize);
      assert x == m[order[k]];
      MeasuredUpToStep(m, order, k, mts0, cts0, mts, cts);
      mts := mts[order[k] := x.main];
      cts := cts[order[k] := x.cross];
      line := NoWrapItem(m, order, k, line, x);
      k := k + 1;
    }
  }

  /**
   * The wrapping branch of `calculateFlexLines`: an item that would overflow a non-empty line
   * starts the next one; the layout's minimum main size is the largest hypothetical main size.
   */
  method WrapLines(items: seq<FlexItem>, order: seq<nat>, horizontal: bool, mainSize: real,
                   mts0: seq<real>, cts0: seq<real>)
    returns (lines: seq<FlexLine>, minMainSize: real, mts: seq<real>, cts: seq<real>)
    requires InRange(order, |items|) && |mts0| == |items| && |cts0| == |items|
    ensures var b := WrapPrefix(MeasureAll(items, horizontal, mainSize), order, mainSize, |order|);
      lines == b.lines && minMainSize == b.minMainSize
    ensures MeasuredUpTo(MeasureAll(items, horizontal, mainSize), order, |order|, mts0, cts0, mts, cts)
  {
    ghost var m := MeasureAll(items, horizontal, mainSize);
    mts, cts := mts0, cts0;
    lines := [EmptyLine];
    minMainSize := 0.0;
    var minSize := 0.0;
    var k := 0;
    while k < |order|
      invariant 0 <= k <= |order| && MeasuredUpTo(m, order, k, mts0, cts0, mts, cts)
      invariant Breaking(lines, minSize, minMainSize) == WrapPrefix(m, order, mainSize, k)
    {
      var idx := order[k];
      var x := Measure(items[idx], horizontal, mainSize);
      assert x == m[idx];
      MeasuredUpToStep(m, order, k, mts0, cts0, mts, cts);
      mts := mts[idx := x.main];
      cts := cts[idx := x.cross];
      lines, minSize, minMainSize := WrapItem(m, mainSize, lines, minSize, minMainSize, idx, x);
      k := k + 1;
    }
  }

  /** One iteration of the wrapping loop for the item at `idx`, measured as `x`. */
  method WrapItem(ghost m: seq<Measured>, mainSize: real, lines0: seq<FlexLine>, minSize0: real, minMainSize0: real,
                  idx: nat, x: Measured) returns (lines: seq<FlexLine>, minSize: real, minMainSize: real)
    requires idx < |m| && m[idx] == x && |lines0| > 0
    ensures Breaking(lines, minSize, minMainSize) == WrapStep(m, mainSize, Breaking(lines0, minSize0, minMainSize0), idx)
  {
    lines, minSize, minMainSize := lines0, minSize0, minMainSize0;
    if x.main > minMainSize {
      minMainSize := x.main;
    }
    minSize := minSize + x.main;
    var startNew := false;
    if minSize > mainSize && |lines[|lines| - 1].flexItems| > 0 {
      startNew := true;
      lines := lines + [EmptyLine];
      minSize := x.main;
    }
    var line := lines[|lines| - 1];
    line := Account(line, x).(flexItems := line.flexItems + [idx], minMainSize := minSize);
    lines := lines[|lines| - 1 := line];
    WrapStepIs(m, mainSize, Breaking(lines0, minSize0, minMainSize0), idx, startNew, minSize, minMainSize, lines);
  }
}

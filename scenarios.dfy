// The margin test of the layout, followed through every stage of
// layoutSubViews: two items of minimum size 100 by 20 with margins of 5
// in a row that wraps, once in a main size of 220 (one line) and once in
// 120 (two lines).
module Scenarios {
  import opened FlexTypes
  import opened Positions
  import opened Ordering
  import opened LineBreaking
  import opened CrossLines
  import opened MainSpace
  import opened MainAxis
  import opened CrossItems
  import opened Placement
  import opened Pipeline

  /** An auto-sized item of minimum size 100 by 20 with margins of 5 and default factors. */
  predicate MarginItem(a: FlexItem) {
    && a.width == -1.0 && a.height == -1.0 && a.minWidth == 100.0 && a.minHeight == 20.0
    && a.marginLeft == 5.0 && a.marginTop == 5.0 && a.marginRight == 5.0 && a.marginBottom == 5.0
    && a.flexGrow == FlexGrowDefault && a.flexShrink == FlexShrinkDefault
    && a.flexBasisPercent == FlexBasisPercentDefault && a.alignSelf == AlignSelf.Auto
  }

  /** A wrapping row with every other setting at its default. */
  const MarginConfig: Config :=
    Config(Some(FlexDirection.Row), Some(FlexWrap.Wrap), JustifyContent.FlexStart, AlignItems.Stretch, AlignContent.FlexStart)

  const Measured110: Measured := Measured(110.0, 30.0, 0.0, 1.0)

  lemma MarginMeasure(a: FlexItem, mainSize: real)
    requires MarginItem(a) && mainSize >= 0.0
    ensures MeasureAll([a, a], true, mainSize) == [Measured110, Measured110]
  {
    assert mainSize * a.flexBasisPercent / 100.0 <= 0.0;
  }

  lemma MarginSorted(a: FlexItem)
    ensures SortedItems([a, a], MarginConfig.direction) == [0, 1]
  {
    var items := [a, a];
    assert Range(1) == [0];
    assert Range(2) == [0, 1];
    assert [0, 1][1..] == [1] && [1][1..] == [];
    assert SortByOrder(items, [1]) == [1] by {
      assert SortByOrder(items, []) == [];
    }
    assert Insert(items, 0, [1]) == [0, 1];
  }

  /** In 220 both items fit on one line of 220; in 120 the second starts a line of its own. */
  lemma MarginBreaks(a: FlexItem)
    requires MarginItem(a)
    ensures Breaks(MarginConfig, [a, a], 220.0) == LineBreak([FlexLine([0, 1], 220.0, 30.0, 0.0, 0.0, 0.0)], 110.0)
    ensures Breaks(MarginConfig, [a, a], 120.0) ==
      LineBreak([FlexLine([0], 110.0, 30.0, 0.0, 0.0, 0.0), FlexLine([1], 110.0, 30.0, 0.0, 0.0, 0.0)], 110.0)
  {
    MarginSorted(a);
    MarginMeasure(a, 220.0);
    MarginMeasure(a, 120.0);
    MarginWrapWide();
    MarginWrapNarrow();
  }

  /** The first item opens the first line, whatever room there is. */
  lemma MarginFirstLine(mainSize: real)
    requires mainSize >= 110.0
    ensures WrapPrefix([Measured110, Measured110], [0, 1], mainSize, 1) ==
      Breaking([FlexLine([0], 110.0, 30.0, 0.0, 0.0, 0.0)], 110.0, 110.0)
  {
    assert [] + [0] == [0];
    assert !StartsNewLine([Measured110, Measured110], mainSize, Breaking([EmptyLine], 0.0, 0.0), 0);
  }

  lemma MarginWrapWide()
    ensures WrapPrefix([Measured110, Measured110], [0, 1], 220.0, 2) ==
      Breaking([FlexLine([0, 1], 220.0, 30.0, 0.0, 0.0, 0.0)], 220.0, 110.0)
  {
    var m := [Measured110, Measured110];
    MarginFirstLine(220.0);
    var b1 := Breaking([FlexLine([0], 110.0, 30.0, 0.0, 0.0, 0.0)], 110.0, 110.0);
    assert [0] + [1] == [0, 1];
    assert !StartsNewLine(m, 220.0, b1, 1);
  }

  lemma MarginWrapNarrow()
    ensures WrapPrefix([Measured110, Measured110], [0, 1], 120.0, 2) ==
      Breaking([FlexLine([0], 110.0, 30.0, 0.0, 0.0, 0.0), FlexLine([1], 110.0, 30.0, 0.0, 0.0, 0.0)], 110.0, 110.0)
  {
    var m := [Measured110, Measured110];
    MarginFirstLine(120.0);
    var b1 := Breaking([FlexLine([0], 110.0, 30.0, 0.0, 0.0, 0.0)], 110.0, 110.0);
    assert [] + [1] == [1];
    assert StartsNewLine(m, 120.0, b1, 1);
  }

  /** The lines of the margin test placed by FLEX_START: one after the other from 0. */
  lemma MarginContent(a: FlexItem)
    requires MarginItem(a)
    ensures AlignContentSpec(Breaks(MarginConfig, [a, a], 220.0).lines, AlignContent.FlexStart, 400.0) ==
      ContentResult([FlexLine([0, 1], 220.0, 30.0, 0.0, 0.0, 0.0)], 30.0)
    ensures AlignContentSpec(Breaks(MarginConfig, [a, a], 120.0).lines, AlignContent.FlexStart, 400.0) ==
      ContentResult([FlexLine([0], 110.0, 30.0, 0.0, 0.0, 0.0), FlexLine([1], 110.0, 30.0, 0.0, 0.0, 0.0).(crossStartPos := 30.0)], 60.0)
  {
    MarginBreaks(a);
    var one := [FlexLine([0, 1], 220.0, 30.0, 0.0, 0.0, 0.0)];
    assert SumCross(one) == 30.0 by {
      assert one[..0] == [];
    }
    var two := [FlexLine([0], 110.0, 30.0, 0.0, 0.0, 0.0), FlexLine([1], 110.0, 30.0, 0.0, 0.0, 0.0)];
    assert SumCross(two) == 60.0 by {
      assert two[..1][..0] == [] && two[..1] == [two[0]];
    }
    var sp := Spacing(0.0, 0.0, 0.0, false);
    assert Cursor(two, sp, 1) == 30.0;
    assert PlaceLines(two, sp) == [two[0], two[1].(crossStartPos := 30.0)];
  }

  /** The targets before the lines are laid out: hypothetical sizes, start positions still -1. */
  lemma MarginStartTargets(a: FlexItem, mainSize: real)
    requires MarginItem(a) && mainSize >= 0.0
    ensures MeasuredTargets(MeasureAll([a, a], true, mainSize), [0, 1], ResetTargets(2)) ==
      Targets([110.0, 110.0], [30.0, 30.0], [-1.0, -1.0], [-1.0, -1.0])
  {
    MarginMeasure(a, mainSize);
  }

  /** In 220: no free space, the items start at 5 and 115 on the main axis and stretch to 30 across. */
  lemma MarginWideLine(a: FlexItem)
    requires MarginItem(a)
    ensures var one := [FlexLine([0, 1], 220.0, 30.0, 0.0, 0.0, 0.0)];
      var t0 := Targets([110.0, 110.0], [30.0, 30.0], [-1.0, -1.0], [-1.0, -1.0]);
      LayoutLinesPrefix([a, a], true, MarginConfig, 220.0, LineState(one, t0), 1) ==
        LineState(one, Targets([110.0, 110.0], [30.0, 30.0], [5.0, 115.0], [5.0, 5.0]))
  {
    var items := [a, a];
    var line := FlexLine([0, 1], 220.0, 30.0, 0.0, 0.0, 0.0);
    var t0 := Targets([110.0, 110.0], [30.0, 30.0], [-1.0, -1.0], [-1.0, -1.0]);
    assert Distribute(items, true, line, t0.mts, 220.0) == Distribution(t0.mts, 220.0);
    var g := Gaps(0.0, 0.0, 0.0);
    assert MainCursor(t0.mts, line.flexItems, g, 1) == 110.0;
    assert Justify(items, true, JustifyContent.FlexStart, line, t0.mts, t0.msp, 220.0) == [5.0, 115.0] by {
      assert JustifyPrefix(items, true, t0.mts, line.flexItems, g, t0.msp, 1) == [5.0, -1.0];
    }
    assert AlignLine(items, true, AlignItems.Stretch, line, CrossState(t0.csp, t0.cts)) == CrossState([5.0, 5.0], [30.0, 30.0]) by {
      assert AlignPrefix(items, true, AlignItems.Stretch, line, CrossState(t0.csp, t0.cts), 1) == CrossState([5.0, -1.0], [30.0, 30.0]);
    }
    assert [line][0 := line] == [line];
  }

  /** In 120: each line has 10 of free space but nothing grows; both items start at 5. */
  lemma MarginNarrowLines(a: FlexItem)
    requires MarginItem(a)
    ensures var two := [FlexLine([0], 110.0, 30.0, 0.0, 0.0, 0.0), FlexLine([1], 110.0, 30.0, 0.0, 0.0, 30.0)];
      var t0 := Targets([110.0, 110.0], [30.0, 30.0], [-1.0, -1.0], [-1.0, -1.0]);
      LayoutLinesPrefix([a, a], true, MarginConfig, 120.0, LineState(two, t0), 2) ==
        LineState(two, Targets([110.0, 110.0], [30.0, 30.0], [5.0, 5.0], [5.0, 5.0]))
  {
    var items := [a, a];
    var l0 := FlexLine([0], 110.0, 30.0, 0.0, 0.0, 0.0);
    var l1 := FlexLine([1], 110.0, 30.0, 0.0, 0.0, 30.0);
    var two := [l0, l1];
    var t0 := Targets([110.0, 110.0], [30.0, 30.0], [-1.0, -1.0], [-1.0, -1.0]);
    var t1 := Targets([110.0, 110.0], [30.0, 30.0], [5.0, -1.0], [5.0, -1.0]);
    var g := Gaps(0.0, 0.0, 0.0);
    assert LayoutLinesPrefix(items, true, MarginConfig, 120.0, LineState(two, t0), 1) == LineState(two, t1) by {
      assert Distribute(items, true, l0, t0.mts, 120.0) == Distribution(t0.mts, 110.0);
      assert JustifyPrefix(items, true, t0.mts, l0.flexItems, g, t0.msp, 1) == [5.0, -1.0];
      assert AlignPrefix(items, true, AlignItems.Stretch, l0, CrossState(t0.csp, t0.cts), 1) == CrossState([5.0, -1.0], [30.0, 30.0]);
      assert two[0 := l0] == two;
    }
    assert Distribute(items, true, l1, t1.mts, 120.0) == Distribution(t1.mts, 110.0);
    assert JustifyPrefix(items, true, t1.mts, l1.flexItems, g, t1.msp, 1) == [5.0, 5.0];
    assert AlignPrefix(items, true, AlignItems.Stretch, l1, CrossState(t1.csp, t1.cts), 1) == CrossState([5.0, 5.0], [30.0, 30.0]);
    assert two[1 := l1] == two;
  }

  /** The bounds of the margin test from its final lines and targets. */
  lemma MarginWideBounds(a: FlexItem, b: seq<Option<Bounds>>)
    requires MarginItem(a) && |b| == 2
    ensures ApplyLayout([a, a], true, [FlexLine([0, 1], 220.0, 30.0, 0.0, 0.0, 0.0)],
                        Targets([110.0, 110.0], [30.0, 30.0], [5.0, 115.0], [5.0, 5.0]), b) ==
      [Some(Bounds(5.0, 5.0, 100.0, 20.0)), Some(Bounds(115.0, 5.0, 100.0, 20.0))]
  {
    var items := [a, a];
    var line := FlexLine([0, 1], 220.0, 30.0, 0.0, 0.0, 0.0);
    var t := Targets([110.0, 110.0], [30.0, 30.0], [5.0, 115.0], [5.0, 5.0]);
    assert ApplyLayoutPrefix(items, true, [line], t, b, 0) == b;
    assert LayoutLinePrefix(items, true, line, t, b, 1) == b[0 := Some(Bounds(5.0, 5.0, 100.0, 20.0))];
  }

  lemma MarginNarrowBounds(a: FlexItem, b: seq<Option<Bounds>>)
    requires MarginItem(a) && |b| == 2
    ensures ApplyLayout([a, a], true, [FlexLine([0], 110.0, 30.0, 0.0, 0.0, 0.0), FlexLine([1], 110.0, 30.0, 0.0, 0.0, 30.0)],
                        Targets([110.0, 110.0], [30.0, 30.0], [5.0, 5.0], [5.0, 5.0]), b) ==
      [Some(Bounds(5.0, 5.0, 100.0, 20.0)), Some(Bounds(5.0, 35.0, 100.0, 20.0))]
  {
    var items := [a, a];
    var l0 := FlexLine([0], 110.0, 30.0, 0.0, 0.0, 0.0);
    var l1 := FlexLine([1], 110.0, 30.0, 0.0, 0.0, 30.0);
    var t := Targets([110.0, 110.0], [30.0, 30.0], [5.0, 5.0], [5.0, 5.0]);
    var b1 := b[0 := Some(Bounds(5.0, 5.0, 100.0, 20.0))];
    assert ApplyLayoutPrefix(items, true, [l0, l1], t, b, 1) == b1 by {
      assert ApplyLayoutPrefix(items, true, [l0, l1], t, b, 0) == b;
      assert LayoutLinePrefix(items, true, l0, t, b, 0) == b;
    }
    assert LayoutLinePrefix(items, true, l1, t, b1, 0) == b1;
  }

  /**
   * The margin test in a wide container: one line of 220, the items at x = 5 and x = 115, both
   * at y = 5 and 100 by 20 once their margins are taken off; the container needs 30 across.
   */
  lemma MarginWide(a: FlexItem, b: seq<Option<Bounds>>)
    requires MarginItem(a) && |b| == 2
    ensures var r := LayoutSubViews(MarginConfig, [a, a], 220.0, 400.0, b);
      && r.order == [0, 1]
      && r.lines == [FlexLine([0, 1], 220.0, 30.0, 0.0, 0.0, 0.0)]
      && r.minMainSize == 110.0 && r.minCrossSize == 30.0
      && r.t == Targets([110.0, 110.0], [30.0, 30.0], [5.0, 115.0], [5.0, 5.0])
      && r.bounds == [Some(Bounds(5.0, 5.0, 100.0, 20.0)), Some(Bounds(115.0, 5.0, 100.0, 20.0))]
  {
    var items := [a, a];
    var one := [FlexLine([0, 1], 220.0, 30.0, 0.0, 0.0, 0.0)];
    var tf := Targets([110.0, 110.0], [30.0, 30.0], [5.0, 115.0], [5.0, 5.0]);
    assert SortedItems(items, MarginConfig.direction) == [0, 1] by { MarginSorted(a); }
    var lb := Breaks(MarginConfig, items, 220.0);
    assert lb.minMainSize == 110.0 by { MarginBreaks(a); }
    var st := StartState(MarginConfig, items, 220.0, 400.0);
    assert st.t == Targets([110.0, 110.0], [30.0, 30.0], [-1.0, -1.0], [-1.0, -1.0]) by {
      MarginSorted(a);
      MarginStartTargets(a, 220.0);
    }
    var ac := AlignContentSpec(lb.lines, MarginConfig.alignContent, 400.0);
    assert ac == ContentResult(one, 30.0) by {
      MarginContent(a);
    }
    assert st.lines == one;
    var fin := LayoutLinesPrefix(items, IsHorizontal(MarginConfig.direction), MarginConfig, 220.0, st, |st.lines|);
    assert fin == LineState(one, tf) by { MarginWideLine(a); }
    assert ApplyLayout(items, true, one, tf, b) == [Some(Bounds(5.0, 5.0, 100.0, 20.0)), Some(Bounds(115.0, 5.0, 100.0, 20.0))] by { MarginWideBounds(a, b); }
    LayoutIsStartState(MarginConfig, items, 220.0, 400.0, b);
  }

  /**
   * The margin test in a narrow container: the second item wraps onto a line that starts at 30,
   * so both items sit at x = 5, the first at y = 5 and the second at y = 35; the container
   * needs 60 across.
   */
  lemma MarginNarrow(a: FlexItem, b: seq<Option<Bounds>>)
    requires MarginItem(a) && |b| == 2
    ensures var r := LayoutSubViews(MarginConfig, [a, a], 120.0, 400.0, b);
      && r.order == [0, 1]
      && r.lines == [FlexLine([0], 110.0, 30.0, 0.0, 0.0, 0.0), FlexLine([1], 110.0, 30.0, 0.0, 0.0, 30.0)]
      && r.minMainSize == 110.0 && r.minCrossSize == 60.0
      && r.t == Targets([110.0, 110.0], [30.0, 30.0], [5.0, 5.0], [5.0, 5.0])
      && r.bounds == [Some(Bounds(5.0, 5.0, 100.0, 20.0)), Some(Bounds(5.0, 35.0, 100.0, 20.0))]
  {
    var items := [a, a];
    var two := [FlexLine([0], 110.0, 30.0, 0.0, 0.0, 0.0), FlexLine([1], 110.0, 30.0, 0.0, 0.0, 30.0)];
    var tf := Targets([110.0, 110.0], [30.0, 30.0], [5.0, 5.0], [5.0, 5.0]);
    assert SortedItems(items, MarginConfig.direction) == [0, 1] by { MarginSorted(a); }
    var lb := Breaks(MarginConfig, items, 120.0);
    assert lb.minMainSize == 110.0 by { MarginBreaks(a); }
    var st := StartState(MarginConfig, items, 120.0, 400.0);
    assert st.t == Targets([110.0, 110.0], [30.0, 30.0], [-1.0, -1.0], [-1.0, -1.0]) by {
      MarginSorted(a);
      MarginStartTargets(a, 120.0);
    }
    var ac := AlignContentSpec(lb.lines, MarginConfig.alignContent, 400.0);
    assert ac == ContentResult(two, 60.0) by {
      MarginContent(a);
      assert FlexLine([1], 110.0, 30.0, 0.0, 0.0, 0.0).(crossStartPos := 30.0) == two[1];
    }
    assert st.lines == two;
    var fin := LayoutLinesPrefix(items, IsHorizontal(MarginConfig.direction), MarginConfig, 120.0, st, |st.lines|);
    assert fin == LineState(two, tf) by { MarginNarrowLines(a); }
    assert ApplyLayout(items, true, two, tf, b) == [Some(Bounds(5.0, 5.0, 100.0, 20.0)), Some(Bounds(5.0, 35.0, 100.0, 20.0))] by { MarginNarrowBounds(a, b); }
    LayoutIsStartState(MarginConfig, items, 120.0, 400.0, b);
  }
}

// justify-content: where each item of a line starts on the main axis.
// An item's main start position is its main start margin plus the
// cursor that runs along the line over the items' main target sizes.
module MainAxis {
  import opened FlexTypes
  import opened Positions
  import opened Ordering
  import opened MainSpace

  /**
   * How one justify-content mode spaces the items: the cursor starts at `start`; each item is
   * preceded by `before` and followed by `after`.
   */
  datatype Gaps = Gaps(start: real, before: real, after: real)

  /**
   * The gaps of each mode for `n` items and `free` = mainSize - the line's minMainSize.
   * SPACE_BETWEEN with a single item writes no position at all (None). With no items
   * nothing is written either, so the gaps for n == 0 are immaterial.
   */
  function JustifyGaps(mode: JustifyContent, free: real, n: nat): (g: Option<Gaps>)
    ensures g.None? <==> mode == JustifyContent.SpaceBetween && n == 1
    ensures g.Some? ==> g.value.start >= 0.0 && g.value.before >= 0.0 && g.value.after >= 0.0
  {
    match mode
    case FlexStart => Some(Gaps(0.0, 0.0, 0.0))
    case FlexEnd => Some(Gaps(Max(0.0, free), 0.0, 0.0))
    case Center => Some(Gaps(Max(free / 2.0, 0.0), 0.0, 0.0))
    case SpaceAround =>
      if n == 0 then Some(Gaps(0.0, 0.0, 0.0))
      else var e := Max((free / (n as real)) / 2.0, 0.0); Some(Gaps(0.0, e, e))
    case SpaceBetween =>
      if n == 1 then None
      else if n == 0 then Some(Gaps(0.0, 0.0, 0.0))
      else Some(Gaps(0.0, 0.0, Max(0.0, free / ((n - 1) as real))))
  }

  /** The cursor before the `j`-th member: it moves over each earlier member's gaps and main target size. */
  function MainCursor(mts: seq<real>, line: seq<nat>, g: Gaps, j: nat): real
    requires j <= |line| && InRange(line, |mts|)
  {
    if j == 0 then g.start else MainCursor(mts, line, g, j - 1) + g.before + mts[line[j - 1]] + g.after
  }

  /** The loop over the first `k` members, writing each member's main start position. */
  function JustifyPrefix(items: seq<FlexItem>, horizontal: bool, mts: seq<real>, line: seq<nat>, g: Gaps,
                         msp: seq<real>, k: nat): (r: seq<real>)
    requires k <= |line| && InRange(line, |items|) && |mts| == |items| && |msp| == |items|
    ensures |r| == |msp|
  {
    if k == 0 then msp
    else
      var idx := line[k - 1];
      JustifyPrefix(items, horizontal, mts, line, g, msp, k - 1)[idx := MainMarginStart(items[idx], horizontal) + MainCursor(mts, line, g, k - 1) + g.before]
  }

  /** `applyJustifyContent` on one line: the new main start positions of all items. */
  function Justify(items: seq<FlexItem>, horizontal: bool, mode: JustifyContent, line: FlexLine,
                   mts: seq<real>, msp: seq<real>, mainSize: real): (r: seq<real>)
    requires InRange(line.flexItems, |items|) && |mts| == |items| && |msp| == |items|
    ensures |r| == |msp|
  {
    match JustifyGaps(mode, mainSize - line.minMainSize, |line.flexItems|)
    case None => msp
    case Some(g) => JustifyPrefix(items, horizontal, mts, line.flexItems, g, msp, |line.flexItems|)
  }

  // ---------------------------------------------------------------------------
  // Properties.
  // ---------------------------------------------------------------------------

  /** Each member gets its margin plus its cursor plus `before`; nothing outside the line changes. */
  lemma {:induction false} JustifyPrefixWrites(items: seq<FlexItem>, horizontal: bool, mts: seq<real>, line: seq<nat>,
                                               g: Gaps, msp: seq<real>, k: nat)
    requires k <= |line| && InRange(line, |items|) && |mts| == |items| && |msp| == |items| && Distinct(line)
    ensures var r := JustifyPrefix(items, horizontal, mts, line, g, msp, k);
      && (forall j :: 0 <= j < k ==>
            r[line[j]] == MainMarginStart(items[line[j]], horizontal) + MainCursor(mts, line, g, j) + g.before)
      && (forall i :: 0 <= i < |msp| && i !in line[..k] ==> r[i] == msp[i])
  {
    if k > 0 {
      JustifyPrefixWrites(items, horizontal, mts, line, g, msp, k - 1);
      DistinctLast(line, k);
      assert line[..k] == line[..k - 1] + [line[k - 1]];
      var r := JustifyPrefix(items, horizontal, mts, line, g, msp, k);
      forall j | 0 <= j < k - 1
        ensures r[line[j]] == MainMarginStart(items[line[j]], horizontal) + MainCursor(mts, line, g, j) + g.before
      {
        assert line[j] != line[k - 1];
      }
    }
  }

  lemma SumAtStep(mts: seq<real>, line: seq<nat>, j: nat)
    requires j < |line| && InRange(line, |mts|)
    ensures SumAt(mts, line[..j + 1]) == SumAt(mts, line[..j]) + mts[line[j]]
  {
    assert line[..j + 1][..j] == line[..j];
  }

  /** The cursor in closed form: the start, `j` spacings `x` and the sizes of the members before. */
  lemma {:induction false} MainCursorClosedForm(mts: seq<real>, line: seq<nat>, g: Gaps, j: nat, x: real)
    requires j <= |line| && InRange(line, |mts|) && g.before + g.after == x
    ensures MainCursor(mts, line, g, j) == g.start + (j as real) * x + SumAt(mts, line[..j])
  {
    if j == 0 {
      assert line[..0] == [];
    } else {
      MainCursorClosedForm(mts, line, g, j - 1, x);
      SumAtStep(mts, line, j - 1);
      MulSucc((j - 1) as real, x);
    }
  }

  /** The cursor after the last member: the start, one spacing per member and the line's total size. */
  lemma FinalMainCursor(mts: seq<real>, line: seq<nat>, g: Gaps, x: real)
    requires InRange(line, |mts|) && g.before + g.after == x
    ensures MainCursor(mts, line, g, |line|) == g.start + (|line| as real) * x + SumAt(mts, line)
  {
    MainCursorClosedForm(mts, line, g, |line|, x);
    assert line[..|line|] == line;
  }

  /** The main offset of an item: its start position less its main start margin. */
  function MainOffset(items: seq<FlexItem>, horizontal: bool, msp: seq<real>, idx: nat): real
    requires idx < |items| && idx < |msp|
  {
    msp[idx] - MainMarginStart(items[idx], horizontal)
  }

  /**
   * The first member starts `start + before` after its margin; each next member starts the
   * previous member's size plus `after` and `before` further on.
   */
  lemma ItemPositions(items: seq<FlexItem>, horizontal: bool, mts: seq<real>, line: seq<nat>, g: Gaps, msp: seq<real>)
    requires InRange(line, |items|) && |mts| == |items| && |msp| == |items| && Distinct(line) && |line| > 0
    ensures var r := JustifyPrefix(items, horizontal, mts, line, g, msp, |line|);
      && MainOffset(items, horizontal, r, line[0]) == g.start + g.before
      && (forall j :: 0 <= j < |line| - 1 ==>
            MainOffset(items, horizontal, r, line[j + 1]) ==
            MainOffset(items, horizontal, r, line[j]) + mts[line[j]] + g.after + g.before)
  {
    JustifyPrefixWrites(items, horizontal, mts, line, g, msp, |line|);
  }

  /** The last member ends where the final cursor stands, less the trailing `after`. */
  lemma LastItemEnd(items: seq<FlexItem>, horizontal: bool, mts: seq<real>, line: seq<nat>, g: Gaps, msp: seq<real>)
    requires InRange(line, |items|) && |mts| == |items| && |msp| == |items| && Distinct(line) && |line| > 0
    ensures var r := JustifyPrefix(items, horizontal, mts, line, g, msp, |line|);
      var n := |line|;
      MainOffset(items, horizontal, r, line[n - 1]) + mts[line[n - 1]] == MainCursor(mts, line, g, n) - g.after
  {
    JustifyPrefixWrites(items, horizontal, mts, line, g, msp, |line|);
  }

  /** The line's minMainSize is the sum of its members' main target sizes. */
  predicate SizesAddUp(mts: seq<real>, line: FlexLine)
    requires InRange(line.flexItems, |mts|)
  {
    line.minMainSize == SumAt(mts, line.flexItems)
  }

  /** Positions outside the line are left as they were, in every mode. */
  lemma JustifyFrame(items: seq<FlexItem>, horizontal: bool, mode: JustifyContent, line: FlexLine,
                     mts: seq<real>, msp: seq<real>, mainSize: real, i: nat)
    requires InRange(line.flexItems, |items|) && |mts| == |items| && |msp| == |items| && Distinct(line.flexItems)
    requires i < |msp| && i !in line.flexItems
    ensures Justify(items, horizontal, mode, line, mts, msp, mainSize)[i] == msp[i]
  {
    var s := line.flexItems;
    var og := JustifyGaps(mode, mainSize - line.minMainSize, |s|);
    if og.Some? {
      JustifyPrefixFrame(items, horizontal, mts, s, og.value, msp, i);
    }
  }

  lemma JustifyPrefixFrame(items: seq<FlexItem>, horizontal: bool, mts: seq<real>, s: seq<nat>, g: Gaps, msp: seq<real>, i: nat)
    requires InRange(s, |items|) && |mts| == |items| && |msp| == |items| && Distinct(s)
    requires i < |msp| && i !in s
    ensures JustifyPrefix(items, horizontal, mts, s, g, msp, |s|)[i] == msp[i]
  {
    JustifyPrefixWrites(items, horizontal, mts, s, g, msp, |s|);
    assert s[..|s|] == s;
  }

  /** FLEX_START packs the members from the line's start, each right after the previous one. */
  lemma JustifyFlexStart(items: seq<FlexItem>, horizontal: bool, line: FlexLine, mts: seq<real>, msp: seq<real>, mainSize: real)
    requires InRange(line.flexItems, |items|) && |mts| == |items| && |msp| == |items| && Distinct(line.flexItems)
    requires |line.flexItems| > 0
    ensures var r := Justify(items, horizontal, JustifyContent.FlexStart, line, mts, msp, mainSize);
      var s := line.flexItems;
      && MainOffset(items, horizontal, r, s[0]) == 0.0
      && (forall j :: 0 <= j < |s| - 1 ==> MainOffset(items, horizontal, r, s[j + 1]) == MainOffset(items, horizontal, r, s[j]) + mts[s[j]])
  {
    ItemPositions(items, horizontal, mts, line.flexItems, Gaps(0.0, 0.0, 0.0), msp);
  }

  /**
   * FLEX_END packs the members so that the last ends at `mainSize` when they fit, and from
   * the line's start when they overflow.
   */
  lemma JustifyFlexEnd(items: seq<FlexItem>, horizontal: bool, line: FlexLine, mts: seq<real>, msp: seq<real>, mainSize: real)
    requires InRange(line.flexItems, |items|) && |mts| == |items| && |msp| == |items| && Distinct(line.flexItems)
    requires |line.flexItems| > 0 && SizesAddUp(mts, line)
    ensures var r := Justify(items, horizontal, JustifyContent.FlexEnd, line, mts, msp, mainSize);
      var s := line.flexItems;
      var n := |s|;
      && (line.minMainSize <= mainSize ==> MainOffset(items, horizontal, r, s[n - 1]) + mts[s[n - 1]] == mainSize)
      && (line.minMainSize > mainSize ==> MainOffset(items, horizontal, r, s[0]) == 0.0)
      && (forall j :: 0 <= j < n - 1 ==> MainOffset(items, horizontal, r, s[j + 1]) == MainOffset(items, horizontal, r, s[j]) + mts[s[j]])
  {
    var g := Gaps(Max(0.0, mainSize - line.minMainSize), 0.0, 0.0);
    ItemPositions(items, horizontal, mts, line.flexItems, g, msp);
    LastItemEnd(items, horizontal, mts, line.flexItems, g, msp);
    FinalMainCursor(mts, line.flexItems, g, 0.0);
  }

  /** CENTER leaves as much room before the first member as after the last when they fit. */
  lemma JustifyCenter(items: seq<FlexItem>, horizontal: bool, line: FlexLine, mts: seq<real>, msp: seq<real>, mainSize: real)
    requires InRange(line.flexItems, |items|) && |mts| == |items| && |msp| == |items| && Distinct(line.flexItems)
    requires |line.flexItems| > 0 && SizesAddUp(mts, line)
    ensures var r := Justify(items, horizontal, JustifyContent.Center, line, mts, msp, mainSize);
      var s := line.flexItems;
      var n := |s|;
      && (line.minMainSize <= mainSize ==>
            MainOffset(items, horizontal, r, s[0]) == mainSize - (MainOffset(items, horizontal, r, s[n - 1]) + mts[s[n - 1]]))
      && (line.minMainSize > mainSize ==> MainOffset(items, horizontal, r, s[0]) == 0.0)
      && (forall j :: 0 <= j < n - 1 ==> MainOffset(items, horizontal, r, s[j + 1]) == MainOffset(items, horizontal, r, s[j]) + mts[s[j]])
  {
    var g := Gaps(Max((mainSize - line.minMainSize) / 2.0, 0.0), 0.0, 0.0);
    ItemPositions(items, horizontal, mts, line.flexItems, g, msp);
    LastItemEnd(items, horizontal, mts, line.flexItems, g, msp);
    FinalMainCursor(mts, line.flexItems, g, 0.0);
  }

  /** SPACE_BETWEEN with a single member writes no position at all. */
  lemma JustifySpaceBetweenSingle(items: seq<FlexItem>, horizontal: bool, line: FlexLine, mts: seq<real>, msp: seq<real>, mainSize: real)
    requires InRange(line.flexItems, |items|) && |mts| == |items| && |msp| == |items|
    requires |line.flexItems| == 1
    ensures Justify(items, horizontal, JustifyContent.SpaceBetween, line, mts, msp, mainSize) == msp
  {
  }

  lemma SpreadOverGaps(n: nat, free: real)
    requires n >= 2
    ensures (n as real) * (free / ((n - 1) as real)) - free / ((n - 1) as real) == free
  {
    var k := (n - 1) as real;
    var a := free / k;
    assert n as real == k + 1.0;
    MulSucc(k, a);
    MulDiv(k, free);
  }

  /**
   * SPACE_BETWEEN with two or more members starts the first at the line's start and, when
   * they fit, ends the last at `mainSize`, with equal gaps between neighbours.
   */
  lemma JustifySpaceBetween(items: seq<FlexItem>, horizontal: bool, line: FlexLine, mts: seq<real>, msp: seq<real>, mainSize: real)
    requires InRange(line.flexItems, |items|) && |mts| == |items| && |msp| == |items| && Distinct(line.flexItems)
    requires |line.flexItems| >= 2 && SizesAddUp(mts, line)
    ensures var r := Justify(items, horizontal, JustifyContent.SpaceBetween, line, mts, msp, mainSize);
      var s := line.flexItems;
      var n := |s|;
      var e := Max(0.0, (mainSize - line.minMainSize) / ((n - 1) as real));
      && MainOffset(items, horizontal, r, s[0]) == 0.0
      && (line.minMainSize <= mainSize ==> MainOffset(items, horizontal, r, s[n - 1]) + mts[s[n - 1]] == mainSize)
      && (forall j :: 0 <= j < n - 1 ==> MainOffset(items, horizontal, r, s[j + 1]) == MainOffset(items, horizontal, r, s[j]) + mts[s[j]] + e)
  {
    var s := line.flexItems;
    var n := |s|;
    var free := mainSize - line.minMainSize;
    var e := Max(0.0, free / ((n - 1) as real));
    var g := Gaps(0.0, 0.0, e);
    var r := Justify(items, horizontal, JustifyContent.SpaceBetween, line, mts, msp, mainSize);
    assert r == JustifyPrefix(items, horizontal, mts, s, g, msp, n);
    if line.minMainSize <= mainSize {
      assert MainOffset(items, horizontal, r, s[n - 1]) + mts[s[n - 1]] == mainSize by {
        LastItemEnd(items, horizontal, mts, s, g, msp);
        FinalMainCursor(mts, s, g, e);
        assert e == free / ((n - 1) as real);
        SpreadOverGaps(n, free);
      }
    }
    ItemPositions(items, horizontal, mts, s, g, msp);
  }

  lemma HalfSharesAddUp(n: nat, free: real, e: real)
    requires n > 0 && e == (free / (n as real)) / 2.0
    ensures (n as real) * (e + e) == free
  {
    MulDiv(n as real, free);
  }

  /**
   * SPACE_AROUND, when the members fit, leaves a gap `e` before the first and after the last
   * member and `2e` between neighbours, where `e` is half the free space per member.
   */
  lemma JustifySpaceAround(items: seq<FlexItem>, horizontal: bool, line: FlexLine, mts: seq<real>, msp: seq<real>, mainSize: real)
    requires InRange(line.flexItems, |items|) && |mts| == |items| && |msp| == |items| && Distinct(line.flexItems)
    requires |line.flexItems| > 0 && SizesAddUp(mts, line) && line.minMainSize <= mainSize
    ensures var r := Justify(items, horizontal, JustifyContent.SpaceAround, line, mts, msp, mainSize);
      var s := line.flexItems;
      var n := |s|;
      var e := ((mainSize - line.minMainSize) / (n as real)) / 2.0;
      && MainOffset(items, horizontal, r, s[0]) == e
      && mainSize - (MainOffset(items, horizontal, r, s[n - 1]) + mts[s[n - 1]]) == e
      && (forall j :: 0 <= j < n - 1 ==> MainOffset(items, horizontal, r, s[j + 1]) == MainOffset(items, horizontal, r, s[j]) + mts[s[j]] + 2.0 * e)
  {
    var s := line.flexItems;
    var n := |s|;
    var free := mainSize - line.minMainSize;
    var e := (free / (n as real)) / 2.0;
    var g := Gaps(0.0, e, e);
    var r := Justify(items, horizontal, JustifyContent.SpaceAround, line, mts, msp, mainSize);
    assert r == JustifyPrefix(items, horizontal, mts, s, g, msp, n) by {
      assert free / (n as real) >= 0.0;
      assert JustifyGaps(JustifyContent.SpaceAround, free, n) == Some(g);
    }
    assert mainSize - (MainOffset(items, horizontal, r, s[n - 1]) + mts[s[n - 1]]) == e by {
      LastItemEnd(items, horizontal, mts, s, g, msp);
      FinalMainCursor(mts, s, g, e + e);
      HalfSharesAddUp(n, free, e);
    }
    ItemPositions(items, horizontal, mts, s, g, msp);
  }

  // ---------------------------------------------------------------------------
  // The justify-content test: three items of main size 50 on a line of 150 in 200.
  // ---------------------------------------------------------------------------

  lemma ThreeItemStarts(items: seq<FlexItem>, mts: seq<real>, g: Gaps, msp: seq<real>)
    requires |items| == 3 && mts == [50.0, 50.0, 50.0] && |msp| == 3
    requires forall i :: 0 <= i < 3 ==> items[i].marginLeft == 0.0
    ensures JustifyPrefix(items, true, mts, [0, 1, 2], g, msp, 3)[0] == g.start + g.before
    ensures JustifyPrefix(items, true, mts, [0, 1, 2], g, msp, 3)[1] == g.start + g.before + 50.0 + g.after + g.before
  {
    JustifyPrefixWrites(items, true, mts, [0, 1, 2], g, msp, 3);
    assert items[0].marginLeft == 0.0 && items[1].marginLeft == 0.0;
  }

  lemma JustifyThreeItems(items: seq<FlexItem>, line: FlexLine, msp: seq<real>)
    requires |items| == 3 && |msp| == 3 && line.flexItems == [0, 1, 2] && line.minMainSize == 150.0
    requires forall i :: 0 <= i < 3 ==> items[i].marginLeft == 0.0
    ensures Justify(items, true, JustifyContent.FlexEnd, line, [50.0, 50.0, 50.0], msp, 200.0)[0] == 50.0
    ensures Justify(items, true, JustifyContent.FlexStart, line, [50.0, 50.0, 50.0], msp, 200.0)[0] == 0.0
    ensures Justify(items, true, JustifyContent.SpaceAround, line, [50.0, 50.0, 50.0], msp, 200.0)[0] == 25.0 / 3.0
    ensures Justify(items, true, JustifyContent.SpaceAround, line, [50.0, 50.0, 50.0], msp, 200.0)[1] == 75.0
    ensures Justify(items, true, JustifyContent.SpaceBetween, line, [50.0, 50.0, 50.0], msp, 200.0)[0] == 0.0
    ensures Justify(items, true, JustifyContent.SpaceBetween, line, [50.0, 50.0, 50.0], msp, 200.0)[1] == 75.0
  {
    var mts := [50.0, 50.0, 50.0];
    ThreeItemStarts(items, mts, Gaps(50.0, 0.0, 0.0), msp);
    ThreeItemStarts(items, mts, Gaps(0.0, 0.0, 0.0), msp);
    assert JustifyGaps(JustifyContent.SpaceAround, 50.0, 3) == Some(Gaps(0.0, 25.0 / 3.0, 25.0 / 3.0));
    ThreeItemStarts(items, mts, Gaps(0.0, 25.0 / 3.0, 25.0 / 3.0), msp);
    assert JustifyGaps(JustifyContent.SpaceBetween, 50.0, 3) == Some(Gaps(0.0, 0.0, 25.0));
    ThreeItemStarts(items, mts, Gaps(0.0, 0.0, 25.0), msp);
  }
}

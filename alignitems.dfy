// align-items and align-self: where each item starts on the cross axis
// of its line, and the cross size STRETCH gives it. Each item is placed
// on its own from the line's cross size and its own cross target size
// and margins; an item with an align-self other than AUTO ignores the
// container's align-items.
module CrossItems {
  import opened FlexTypes
  import opened Positions
  import opened Ordering
  import opened MainSpace

  /** An item's cross start position and cross target size. */
  datatype Cross = Cross(start: real, size: real)

  /** `applyAlignSelf`: the item's own alignment within a line of cross size `lineCross`. */
  function AlignSelfOn(item: FlexItem, horizontal: bool, lineCross: real, c: Cross): Cross {
    var ms := CrossMarginStart(item, horizontal);
    match item.alignSelf
    case Auto => c
    case Baseline => c
    case Center => c.(start := ms + (lineCross - c.size) / 2.0)
    case FlexStart => c.(start := ms)
    case FlexEnd => c.(start := ms + lineCross - c.size)
    case Stretch => Cross(ms, lineCross - ms - CrossMarginEnd(item, horizontal))
  }

  /** `applyAlignItems` for one item: a self-aligned item goes to its own alignment. */
  function AlignItemOn(mode: AlignItems, item: FlexItem, horizontal: bool, lineCross: real, c: Cross): Cross {
    var ms := CrossMarginStart(item, horizontal);
    if IsSelfAligned(item) then AlignSelfOn(item, horizontal, lineCross, c)
    else match mode
      case FlexStart => c.(start := ms)
      case FlexEnd => c.(start := ms + lineCross - c.size)
      case Center => c.(start := ms + (lineCross - c.size) / 2.0)
      case Baseline => c.(start := ms + (lineCross - c.size) / 2.0)
      case Stretch => Cross(ms, lineCross)
  }

  /** The cross outputs of all items. */
  datatype CrossState = CrossState(csp: seq<real>, cts: seq<real>)

  /** The loop over the first `k` members of the line. */
  function AlignPrefix(items: seq<FlexItem>, horizontal: bool, mode: AlignItems, line: FlexLine,
                       st: CrossState, k: nat): (r: CrossState)
    requires k <= |line.flexItems| && InRange(line.flexItems, |items|) && |st.csp| == |items| && |st.cts| == |items|
    ensures |r.csp| == |items| && |r.cts| == |items|
  {
    if k == 0 then st
    else
      var q := AlignPrefix(items, horizontal, mode, line, st, k - 1);
      var idx := line.flexItems[k - 1];
      var c := AlignItemOn(mode, items[idx], horizontal, line.minCrossSize, Cross(q.csp[idx], q.cts[idx]));
      CrossState(q.csp[idx := c.start], q.cts[idx := c.size])
  }

  /** `applyAlignItems` on one line. */
  function AlignLine(items: seq<FlexItem>, horizontal: bool, mode: AlignItems, line: FlexLine, st: CrossState): (r: CrossState)
    requires InRange(line.flexItems, |items|) && |st.csp| == |items| && |st.cts| == |items|
    ensures |r.csp| == |items| && |r.cts| == |items|
  {
    AlignPrefix(items, horizontal, mode, line, st, |line.flexItems|)
  }

  function CrossOf(st: CrossState, idx: nat): Cross
    requires idx < |st.csp| && idx < |st.cts|
  {
    Cross(st.csp[idx], st.cts[idx])
  }

  // ---------------------------------------------------------------------------
  // Properties.
  // ---------------------------------------------------------------------------

  /** Each member is placed from its own state before the loop; nothing outside the line changes. */
  lemma {:induction false} AlignPrefixEach(items: seq<FlexItem>, horizontal: bool, mode: AlignItems, line: FlexLine,
                                           st: CrossState, k: nat)
    requires k <= |line.flexItems| && InRange(line.flexItems, |items|) && |st.csp| == |items| && |st.cts| == |items|
    requires Distinct(line.flexItems)
    ensures var r := AlignPrefix(items, horizontal, mode, line, st, k);
      var s := line.flexItems;
      && (forall j :: 0 <= j < k ==>
            CrossOf(r, s[j]) == AlignItemOn(mode, items[s[j]], horizontal, line.minCrossSize, CrossOf(st, s[j])))
      && (forall i :: 0 <= i < |items| && i !in s[..k] ==> CrossOf(r, i) == CrossOf(st, i))
  {
    if k > 0 {
      var s := line.flexItems;
      AlignPrefixEach(items, horizontal, mode, line, st, k - 1);
      AlignPrefixStep(items, horizontal, mode, line, st, k);
      DistinctLast(s, k);
      TakeOneMore(s, k);
      forall j | 0 <= j < k - 1
        ensures s[j] != s[k - 1]
      {
        assert s[j] in s[..k - 1];
      }
    }
  }

  /** One step of the loop: the `k`-th member is placed from its current state, every other item keeps its own. */
  lemma AlignPrefixStep(items: seq<FlexItem>, horizontal: bool, mode: AlignItems, line: FlexLine, st: CrossState, k: nat)
    requires 0 < k <= |line.flexItems| && InRange(line.flexItems, |items|) && |st.csp| == |items| && |st.cts| == |items|
    ensures var q := AlignPrefix(items, horizontal, mode, line, st, k - 1);
      var r := AlignPrefix(items, horizontal, mode, line, st, k);
      var idx := line.flexItems[k - 1];
      && CrossOf(r, idx) == AlignItemOn(mode, items[idx], horizontal, line.minCrossSize, CrossOf(q, idx))
      && (forall i :: 0 <= i < |items| && i != idx ==> CrossOf(r, i) == CrossOf(q, i))
  {
  }

  /** The line's loop places every member independently of the others and of their order. */
  lemma AlignLineEach(items: seq<FlexItem>, horizontal: bool, mode: AlignItems, line: FlexLine, st: CrossState)
    requires InRange(line.flexItems, |items|) && |st.csp| == |items| && |st.cts| == |items| && Distinct(line.flexItems)
    ensures var r := AlignLine(items, horizontal, mode, line, st);
      && (forall idx :: idx in line.flexItems ==>
            CrossOf(r, idx) == AlignItemOn(mode, items[idx], horizontal, line.minCrossSize, CrossOf(st, idx)))
      && (forall i :: 0 <= i < |items| && i !in line.flexItems ==> CrossOf(r, i) == CrossOf(st, i))
  {
    var s := line.flexItems;
    AlignPrefixEach(items, horizontal, mode, line, st, |s|);
    assert s[..|s|] == s;
  }

  /** An item with its own alignment is placed the same under every align-items mode. */
  lemma SelfAlignedIgnoresMode(m1: AlignItems, m2: AlignItems, item: FlexItem, horizontal: bool, lineCross: real, c: Cross)
    requires IsSelfAligned(item)
    ensures AlignItemOn(m1, item, horizontal, lineCross, c) == AlignItemOn(m2, item, horizontal, lineCross, c)
  {
  }

  /**
   * How an item that follows align-items sits in its line (cross start `ms`, cross size `size`):
   * FLEX_START at its start margin, FLEX_END ending `lineCross` past that margin, CENTER and
   * BASELINE with equal room on both sides, STRETCH at its margin and exactly `lineCross` thick.
   */
  lemma AlignItemPlacement(mode: AlignItems, item: FlexItem, horizontal: bool, lineCross: real, c: Cross)
    requires !IsSelfAligned(item)
    ensures var r := AlignItemOn(mode, item, horizontal, lineCross, c);
      var ms := CrossMarginStart(item, horizontal);
      && (mode != AlignItems.Stretch ==> r.size == c.size)
      && (mode == AlignItems.FlexStart ==> r.start == ms)
      && (mode == AlignItems.FlexEnd ==> r.start + r.size == ms + lineCross)
      && (mode == AlignItems.Center || mode == AlignItems.Baseline ==>
            r.start - ms == lineCross - (r.start - ms + r.size))
      && (mode == AlignItems.Stretch ==> r.start == ms && r.size == lineCross)
  {
  }

  /**
   * How a self-aligned item sits in its line: like the align-items modes of the same name,
   * except that STRETCH takes both cross margins off the line's cross size, and BASELINE
   * (like AUTO) leaves the item where it was.
   */
  lemma AlignSelfPlacement(item: FlexItem, horizontal: bool, lineCross: real, c: Cross)
    ensures var r := AlignSelfOn(item, horizontal, lineCross, c);
      var ms := CrossMarginStart(item, horizontal);
      var me := CrossMarginEnd(item, horizontal);
      && (item.alignSelf != AlignSelf.Stretch ==> r.size == c.size)
      && (item.alignSelf == AlignSelf.Auto || item.alignSelf == AlignSelf.Baseline ==> r == c)
      && (item.alignSelf == AlignSelf.FlexStart ==> r.start == ms)
      && (item.alignSelf == AlignSelf.FlexEnd ==> r.start + r.size == ms + lineCross)
      && (item.alignSelf == AlignSelf.Center ==> r.start - ms == lineCross - (r.start - ms + r.size))
      && (item.alignSelf == AlignSelf.Stretch ==> r.start == ms && ms + r.size + me == lineCross)
  {
  }

  /** The two STRETCHes disagree by the item's cross margins. */
  lemma StretchesDiffer(item: FlexItem, horizontal: bool, lineCross: real, c: Cross)
    ensures var auto := AlignItemOn(AlignItems.Stretch, item.(alignSelf := AlignSelf.Auto), horizontal, lineCross, c);
      var own := AlignItemOn(AlignItems.Stretch, item.(alignSelf := AlignSelf.Stretch), horizontal, lineCross, c);
      auto.start == own.start &&
      auto.size - own.size == CrossMarginStart(item, horizontal) + CrossMarginEnd(item, horizontal)
  {
  }

  // ---------------------------------------------------------------------------
  // The align-items test: items of cross size 10 and 50 in a line of 50, no margins.
  // ---------------------------------------------------------------------------

  lemma AlignItemsTwoItems(a: FlexItem, b: FlexItem)
    requires a.alignSelf == AlignSelf.Auto && b.alignSelf == AlignSelf.Auto
    requires a.marginTop == 0.0 && b.marginTop == 0.0
    ensures AlignItemOn(AlignItems.FlexStart, a, true, 50.0, Cross(-1.0, 10.0)).start == 0.0
    ensures AlignItemOn(AlignItems.FlexStart, b, true, 50.0, Cross(-1.0, 50.0)).start == 0.0
    ensures AlignItemOn(AlignItems.FlexEnd, a, true, 50.0, Cross(-1.0, 10.0)).start == 40.0
    ensures AlignItemOn(AlignItems.FlexEnd, b, true, 50.0, Cross(-1.0, 50.0)).start == 0.0
    ensures AlignItemOn(AlignItems.Center, a, true, 50.0, Cross(-1.0, 10.0)).start == 20.0
    ensures AlignItemOn(AlignItems.Center, b, true, 50.0, Cross(-1.0, 50.0)).start == 0.0
    ensures AlignItemOn(AlignItems.Stretch, a, true, 50.0, Cross(-1.0, 10.0)) == Cross(0.0, 50.0)
  {
  }

  /** align-self FLEX_END overrides align-items FLEX_START: the small item ends at the line's end. */
  lemma AlignSelfFlexEnd(a: FlexItem)
    requires a.alignSelf == AlignSelf.FlexEnd && a.marginTop == 0.0
    ensures AlignItemOn(AlignItems.FlexStart, a, true, 50.0, Cross(-1.0, 10.0)).start == 40.0
  {
  }
}

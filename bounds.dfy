// applyLayout: turning each item's main and cross start positions and
// target sizes, which include its margins, into the bounds the layout
// reports, relative to the container and without the margins.
module Placement {
  import opened FlexTypes
  import opened Positions
  import opened Ordering
  import opened MainSpace
  import opened LineBreaking

  /** The per-item outputs of the earlier steps, by item position. */
  datatype Targets = Targets(mts: seq<real>, cts: seq<real>, msp: seq<real>, csp: seq<real>)

  predicate TargetsFor(t: Targets, n: nat) {
    |t.mts| == n && |t.cts| == n && |t.msp| == n && |t.csp| == n
  }

  /** The bounds of the item at `idx` on a line that starts at `lineCross` on the cross axis. */
  function ItemBounds(item: FlexItem, horizontal: bool, lineCross: real, t: Targets, idx: nat): Bounds
    requires idx < |t.mts| && idx < |t.cts| && idx < |t.msp| && idx < |t.csp|
  {
    var mainMargin := MainMarginStart(item, horizontal) + MainMarginEnd(item, horizontal);
    var crossMargin := CrossMarginStart(item, horizontal) + CrossMarginEnd(item, horizontal);
    Bounds(
      if horizontal then t.msp[idx] else lineCross + t.csp[idx],
      if horizontal then lineCross + t.csp[idx] else t.msp[idx],
      if horizontal then t.mts[idx] - mainMargin else t.cts[idx] - crossMargin,
      if horizontal then t.cts[idx] - crossMargin else t.mts[idx] - mainMargin)
  }

  /** The inner loop over the first `k` members of one line. */
  function LayoutLinePrefix(items: seq<FlexItem>, horizontal: bool, line: FlexLine, t: Targets,
                            bounds: seq<Option<Bounds>>, k: nat): (r: seq<Option<Bounds>>)
    requires k <= |line.flexItems| && InRange(line.flexItems, |items|) && TargetsFor(t, |items|) && |bounds| == |items|
    ensures |r| == |items|
  {
    if k == 0 then bounds
    else
      var idx := line.flexItems[k - 1];
      LayoutLinePrefix(items, horizontal, line, t, bounds, k - 1)[idx := Some(ItemBounds(items[idx], horizontal, line.crossStartPos, t, idx))]
  }

  /** The outer loop over the first `k` lines. */
  function ApplyLayoutPrefix(items: seq<FlexItem>, horizontal: bool, lines: seq<FlexLine>, t: Targets,
                             bounds: seq<Option<Bounds>>, k: nat): (r: seq<Option<Bounds>>)
    requires k <= |lines| && LinesInRange(lines, |items|) && TargetsFor(t, |items|) && |bounds| == |items|
    ensures |r| == |items|
  {
    if k == 0 then bounds
    else
      var line := lines[k - 1];
      LayoutLinePrefix(items, horizontal, line, t, ApplyLayoutPrefix(items, horizontal, lines, t, bounds, k - 1), |line.flexItems|)
  }

  /** `applyLayout`: the bounds of every item once all lines are laid out. */
  function ApplyLayout(items: seq<FlexItem>, horizontal: bool, lines: seq<FlexLine>, t: Targets,
                       bounds: seq<Option<Bounds>>): (r: seq<Option<Bounds>>)
    requires LinesInRange(lines, |items|) && TargetsFor(t, |items|) && |bounds| == |items|
    ensures |r| == |items|
  {
    ApplyLayoutPrefix(items, horizontal, lines, t, bounds, |lines|)
  }

  // ---------------------------------------------------------------------------
  // Properties.
  // ---------------------------------------------------------------------------

  /** Every member of the line gets its bounds from its own line and targets; the rest keep theirs. */
  lemma {:induction false} LayoutLinePrefixEach(items: seq<FlexItem>, horizontal: bool, line: FlexLine, t: Targets,
                                                bounds: seq<Option<Bounds>>, k: nat)
    requires k <= |line.flexItems| && InRange(line.flexItems, |items|) && TargetsFor(t, |items|) && |bounds| == |items|
    ensures var r := LayoutLinePrefix(items, horizontal, line, t, bounds, k);
      && (forall idx :: idx in line.flexItems[..k] ==>
            r[idx] == Some(ItemBounds(items[idx], horizontal, line.crossStartPos, t, idx)))
      && (forall i :: 0 <= i < |items| && i !in line.flexItems[..k] ==> r[i] == bounds[i])
  {
    if k > 0 {
      var s := line.flexItems;
      LayoutLinePrefixEach(items, horizontal, line, t, bounds, k - 1);
      assert s[..k] == s[..k - 1] + [s[k - 1]];
    }
  }

  lemma LayoutLineEach(items: seq<FlexItem>, horizontal: bool, line: FlexLine, t: Targets, bounds: seq<Option<Bounds>>)
    requires InRange(line.flexItems, |items|) && TargetsFor(t, |items|) && |bounds| == |items|
    ensures var r := LayoutLinePrefix(items, horizontal, line, t, bounds, |line.flexItems|);
      && (forall idx :: idx in line.flexItems ==>
            r[idx] == Some(ItemBounds(items[idx], horizontal, line.crossStartPos, t, idx)))
      && (forall i :: 0 <= i < |items| && i !in line.flexItems ==> r[i] == bounds[i])
  {
    LayoutLinePrefixEach(items, horizontal, line, t, bounds, |line.flexItems|);
    assert line.flexItems[..|line.flexItems|] == line.flexItems;
  }

  /** No position is a member of two different lines. */
  predicate LinesDisjoint(lines: seq<FlexLine>) {
    forall l1, l2, x :: 0 <= l1 < l2 < |lines| && x in lines[l1].flexItems ==> x !in lines[l2].flexItems
  }

  /** Some line has `x` as a member. */
  predicate InSomeLine(lines: seq<FlexLine>, x: nat) {
    exists l :: 0 <= l < |lines| && x in lines[l].flexItems
  }

  /** An item placed by an earlier line is not touched by the later lines. */
  lemma {:induction false} ApplyLayoutPrefixEach(items: seq<FlexItem>, horizontal: bool, lines: seq<FlexLine>, t: Targets,
                                                 bounds: seq<Option<Bounds>>, k: nat)
    requires k <= |lines| && LinesInRange(lines, |items|) && TargetsFor(t, |items|) && |bounds| == |items|
    requires LinesDisjoint(lines)
    ensures var r := ApplyLayoutPrefix(items, horizontal, lines, t, bounds, k);
      && (forall l, idx :: 0 <= l < k && idx in lines[l].flexItems ==>
            r[idx] == Some(ItemBounds(items[idx], horizontal, lines[l].crossStartPos, t, idx)))
      && (forall i :: 0 <= i < |items| && (forall l :: 0 <= l < k ==> i !in lines[l].flexItems) ==> r[i] == bounds[i])
  {
    if k > 0 {
      ApplyLayoutPrefixEach(items, horizontal, lines, t, bounds, k - 1);
      var q := ApplyLayoutPrefix(items, horizontal, lines, t, bounds, k - 1);
      LayoutLineEach(items, horizontal, lines[k - 1], t, q);
    }
  }

  /**
   * After `applyLayout`, each item of a line gets the bounds computed from its line's cross
   * start and its own targets, and an item in no line keeps the bounds it had.
   */
  lemma ApplyLayoutEach(items: seq<FlexItem>, horizontal: bool, lines: seq<FlexLine>, t: Targets,
                        bounds: seq<Option<Bounds>>)
    requires LinesInRange(lines, |items|) && TargetsFor(t, |items|) && |bounds| == |items|
    requires LinesDisjoint(lines)
    ensures var r := ApplyLayout(items, horizontal, lines, t, bounds);
      && (forall l, idx :: 0 <= l < |lines| && idx in lines[l].flexItems ==>
            r[idx] == Some(ItemBounds(items[idx], horizontal, lines[l].crossStartPos, t, idx)))
      && (forall i :: 0 <= i < |items| && !InSomeLine(lines, i) ==> r[i] == bounds[i])
  {
    ApplyLayoutPrefixEach(items, horizontal, lines, t, bounds, |lines|);
  }

  /**
   * The bounds are the margin box of the item with the margins taken off: on the main axis the
   * item starts at its main start position and spans its main target size less both margins, on
   * the cross axis it starts at its line's cross start plus its own, and spans its cross target
   * size less both margins. Which of x and y is the main axis follows the direction.
   */
  lemma ItemBoundsAxes(item: FlexItem, horizontal: bool, lineCross: real, t: Targets, idx: nat)
    requires idx < |t.mts| && idx < |t.cts| && idx < |t.msp| && idx < |t.csp|
    ensures var b := ItemBounds(item, horizontal, lineCross, t, idx);
      var mainPos := if horizontal then b.x else b.y;
      var crossPos := if horizontal then b.y else b.x;
      var mainLen := if horizontal then b.w else b.h;
      var crossLen := if horizontal then b.h else b.w;
      && mainPos == t.msp[idx]
      && crossPos == lineCross + t.csp[idx]
      && MainMarginStart(item, horizontal) + mainLen + MainMarginEnd(item, horizontal) == t.mts[idx]
      && CrossMarginStart(item, horizontal) + crossLen + CrossMarginEnd(item, horizontal) == t.cts[idx]
  {
  }

  /** The item with its horizontal and vertical margins exchanged. */
  function Transposed(item: FlexItem): FlexItem {
    item.(marginLeft := item.marginTop, marginTop := item.marginLeft,
          marginRight := item.marginBottom, marginBottom := item.marginRight)
  }

  function Flip(b: Bounds): Bounds {
    Bounds(b.y, b.x, b.h, b.w)
  }

  /** A column lays out exactly like a row of the transposed item, reflected across the diagonal. */
  lemma ColumnIsTransposedRow(item: FlexItem, lineCross: real, t: Targets, idx: nat)
    requires idx < |t.mts| && idx < |t.cts| && idx < |t.msp| && idx < |t.csp|
    ensures ItemBounds(item, false, lineCross, t, idx) == Flip(ItemBounds(Transposed(item), true, lineCross, t, idx))
  {
  }
}

// align-content: where each flex line starts on the cross axis, and how
// much cross size it gets under STRETCH.
module CrossLines {
  import opened FlexTypes
  import opened Positions

  /** Sum of the lines' cross sizes, by prefix recursion. */
  function SumCross(lines: seq<FlexLine>): real {
    if |lines| == 0 then 0.0 else SumCross(lines[..|lines| - 1]) + lines[|lines| - 1].minCrossSize
  }

  lemma SumCrossStep(lines: seq<FlexLine>, i: nat)
    requires i < |lines|
    ensures SumCross(lines[..i + 1]) == SumCross(lines[..i]) + lines[i].minCrossSize
  {
    assert lines[..i + 1][..i] == lines[..i];
  }

  /**
   * How one align-content mode places the lines: the cursor starts at `start`; each line is
   * preceded by `before` and followed by `after`; under `stretch` a line also grows by `after`.
   */
  datatype Spacing = Spacing(start: real, before: real, after: real, stretch: bool)

  /** An equal share of `x` for each of `n` parts. */
  function Share(x: real, n: nat): real
    requires n > 0
  {
    x / (n as real)
  }

  /** The spacing of each mode, for `n` lines whose cross sizes sum to `total`. */
  function ContentSpacing(mode: AlignContent, crossSize: real, total: real, n: nat): (sp: Spacing)
    requires n > 0
    ensures sp.stretch <==> mode == AlignContent.Stretch
    ensures sp.start >= 0.0
  {
    var free := crossSize - total;
    match mode
    case FlexStart => Spacing(0.0, 0.0, 0.0, false)
    case FlexEnd => Spacing(Max(0.0, free), 0.0, 0.0, false)
    case Center => Spacing(Max(0.0, free / 2.0), 0.0, 0.0, false)
    // With one line the division by zero only affects the cursor after the last line.
    case SpaceBetween => Spacing(0.0, 0.0, if n == 1 then 0.0 else Share(free, n - 1), false)
    case Stretch => Spacing(0.0, 0.0, Share(free, n), true)
    case SpaceAround => var h := Share(free, n) / 2.0; Spacing(0.0, h, h, false)
  }

  /** The cursor before line `i`: it moves over each earlier line's `before`, cross size and `after`. */
  function Cursor(lines: seq<FlexLine>, sp: Spacing, i: nat): real
    requires i <= |lines|
  {
    if i == 0 then sp.start else Cursor(lines, sp, i - 1) + sp.before + lines[i - 1].minCrossSize + sp.after
  }

  function PlacedLine(lines: seq<FlexLine>, sp: Spacing, i: nat): FlexLine
    requires i < |lines|
  {
    lines[i].(
      crossStartPos := Cursor(lines, sp, i) + sp.before,
      minCrossSize := if sp.stretch then lines[i].minCrossSize + sp.after else lines[i].minCrossSize)
  }

  function PlaceLines(lines: seq<FlexLine>, sp: Spacing): (r: seq<FlexLine>)
    ensures |r| == |lines|
    ensures forall i :: 0 <= i < |lines| ==> r[i] == PlacedLine(lines, sp, i)
  {
    seq(|lines|, i requires 0 <= i < |lines| => PlacedLine(lines, sp, i))
  }

  /** The lines after alignContent, and the layout's minimum cross size. */
  datatype ContentResult = ContentResult(lines: seq<FlexLine>, minCrossSize: real)

  function AlignContentSpec(lines: seq<FlexLine>, mode: AlignContent, crossSize: real): ContentResult {
    if |lines| == 0 then ContentResult(lines, 0.0)
    else ContentResult(PlaceLines(lines, ContentSpacing(mode, crossSize, SumCross(lines), |lines|)), SumCross(lines))
  }

  // ---------------------------------------------------------------------------
  // Properties.
  // ---------------------------------------------------------------------------

  /** `n` equal shares of `free` add up to `free`. */
  lemma SharesAddUp(n: nat, free: real, g: real)
    requires n > 0 && g == Share(free, n)
    ensures (n as real) * g == free
  {
    MulDiv(n as real, free);
  }

  /** The cursor before line `i` in closed form: the start, `i` spacings `x` and the sizes of the lines before. */
  lemma {:induction false} CursorClosedForm(lines: seq<FlexLine>, sp: Spacing, i: nat, x: real)
    requires i <= |lines| && sp.before + sp.after == x
    ensures Cursor(lines, sp, i) == sp.start + (i as real) * x + SumCross(lines[..i])
  {
    if i == 0 {
      assert lines[..0] == [];
    } else {
      CursorClosedForm(lines, sp, i - 1, x);
      SumCrossStep(lines, i - 1);
      MulSucc(((i - 1) as real), x);
    }
  }

  /**
   * The first line starts at `start + before`; each next line starts after the previous line's
   * original cross size plus `after` and `before`; only the cross start (and, under STRETCH, the
   * cross size) of a line changes.
   */
  lemma LinePositions(lines: seq<FlexLine>, sp: Spacing)
    requires |lines| > 0
    ensures PlaceLines(lines, sp)[0].crossStartPos == sp.start + sp.before
    ensures forall i :: 0 <= i < |lines| - 1 ==>
      PlaceLines(lines, sp)[i + 1].crossStartPos ==
      PlaceLines(lines, sp)[i].crossStartPos + lines[i].minCrossSize + sp.after + sp.before
    ensures forall i :: 0 <= i < |lines| ==>
      PlaceLines(lines, sp)[i] == lines[i].(crossStartPos := PlaceLines(lines, sp)[i].crossStartPos,
                                            minCrossSize := PlaceLines(lines, sp)[i].minCrossSize)
    ensures forall i :: 0 <= i < |lines| ==>
      PlaceLines(lines, sp)[i].minCrossSize == lines[i].minCrossSize + (if sp.stretch then sp.after else 0.0)
  {
    forall i | 0 <= i < |lines| - 1
      ensures PlaceLines(lines, sp)[i + 1].crossStartPos ==
        PlaceLines(lines, sp)[i].crossStartPos + lines[i].minCrossSize + sp.after + sp.before
    {
      assert Cursor(lines, sp, i + 1) == Cursor(lines, sp, i) + sp.before + lines[i].minCrossSize + sp.after;
    }
  }

  /** The last line ends where the final cursor stands, less the trailing `after`. */
  lemma LastLineEnd(lines: seq<FlexLine>, sp: Spacing)
    requires |lines| > 0
    ensures var n := |lines|;
      PlaceLines(lines, sp)[n - 1].crossStartPos + lines[n - 1].minCrossSize == Cursor(lines, sp, n) - sp.after
  {
  }

  /** The final cursor: the start, one spacing `x` per line and the total cross size. */
  lemma FinalCursor(lines: seq<FlexLine>, sp: Spacing, x: real)
    requires sp.before + sp.after == x
    ensures Cursor(lines, sp, |lines|) == sp.start + (|lines| as real) * x + SumCross(lines)
  {
    CursorClosedForm(lines, sp, |lines|, x);
    assert lines[..|lines|] == lines;
  }

  /** The layout's minimum cross size is the sum of the lines' cross sizes, in every mode. */
  lemma MinCrossSizeIsTotal(lines: seq<FlexLine>, mode: AlignContent, crossSize: real)
    ensures AlignContentSpec(lines, mode, crossSize).minCrossSize == SumCross(lines)
    ensures |AlignContentSpec(lines, mode, crossSize).lines| == |lines|
  {
  }

  /** FLEX_START packs the lines from 0, each right after the previous one. */
  lemma FlexStartPacksLines(lines: seq<FlexLine>, crossSize: real)
    requires |lines| > 0
    ensures var r := AlignContentSpec(lines, AlignContent.FlexStart, crossSize).lines;
      && r[0].crossStartPos == 0.0
      && (forall i :: 0 <= i < |lines| - 1 ==> r[i + 1].crossStartPos == r[i].crossStartPos + r[i].minCrossSize)
  {
    LinePositions(lines, ContentSpacing(AlignContent.FlexStart, crossSize, SumCross(lines), |lines|));
  }

  /** FLEX_END ends the last line at the cross size when the lines fit, and packs them from 0 otherwise. */
  lemma FlexEndAlignsLastLine(lines: seq<FlexLine>, crossSize: real)
    requires |lines| > 0
    ensures var r := AlignContentSpec(lines, AlignContent.FlexEnd, crossSize).lines;
      var n := |lines|;
      && (SumCross(lines) <= crossSize ==> r[n - 1].crossStartPos + r[n - 1].minCrossSize == crossSize)
      && (SumCross(lines) > crossSize ==> r[0].crossStartPos == 0.0)
      && (forall i :: 0 <= i < n - 1 ==> r[i + 1].crossStartPos == r[i].crossStartPos + r[i].minCrossSize)
  {
    var sp := ContentSpacing(AlignContent.FlexEnd, crossSize, SumCross(lines), |lines|);
    LinePositions(lines, sp);
    LastLineEnd(lines, sp);
    FinalCursor(lines, sp, 0.0);
  }

  /** CENTER leaves equal room before the first line and after the last one when the lines fit. */
  lemma CenterBalancesLines(lines: seq<FlexLine>, crossSize: real)
    requires |lines| > 0
    ensures var r := AlignContentSpec(lines, AlignContent.Center, crossSize).lines;
      var n := |lines|;
      && (SumCross(lines) <= crossSize ==>
            r[0].crossStartPos == crossSize - (r[n - 1].crossStartPos + r[n - 1].minCrossSize))
      && (SumCross(lines) > crossSize ==> r[0].crossStartPos == 0.0)
      && (forall i :: 0 <= i < n - 1 ==> r[i + 1].crossStartPos == r[i].crossStartPos + r[i].minCrossSize)
  {
    var n := |lines|;
    var total := SumCross(lines);
    var sp := ContentSpacing(AlignContent.Center, crossSize, total, n);
    assert sp.before == 0.0 && sp.after == 0.0 && sp.start == Max(0.0, (crossSize - total) / 2.0);
    var r := PlaceLines(lines, sp);
    assert AlignContentSpec(lines, AlignContent.Center, crossSize).lines == r;
    LinePositions(lines, sp);
    PackedEnd(lines, sp);
  }

  /** Lines packed without gaps end at the start plus their total cross size. */
  lemma PackedEnd(lines: seq<FlexLine>, sp: Spacing)
    requires |lines| > 0 && sp.before == 0.0 && sp.after == 0.0 && !sp.stretch
    ensures var r := PlaceLines(lines, sp);
      r[|lines| - 1].crossStartPos + r[|lines| - 1].minCrossSize == sp.start + SumCross(lines)
  {
    var n := |lines|;
    var c := Cursor(lines, sp, n);
    assert c == sp.start + SumCross(lines) by {
      FinalCursor(lines, sp, 0.0);
      assert (n as real) * 0.0 == 0.0;
    }
    assert PlaceLines(lines, sp)[n - 1].minCrossSize == lines[n - 1].minCrossSize;
    LastLineEnd(lines, sp);
  }

  lemma SpreadOverGaps(n: nat, free: real)
    requires n >= 2
    ensures (n as real) * (free / ((n - 1) as real)) - free / ((n - 1) as real) == free
  {
    var k := (n - 1) as real;
    var a := free / k;
    assert n as real == k + 1.0;
    MulSucc(k, a);
    MulDiv(k, free);
  }

  /** SPACE_BETWEEN puts the first line at 0 and, with two or more lines, ends the last at the cross size. */
  lemma SpaceBetweenSpansCross(lines: seq<FlexLine>, crossSize: real)
    requires |lines| > 0
    ensures var r := AlignContentSpec(lines, AlignContent.SpaceBetween, crossSize).lines;
      var n := |lines|;
      && r[0].crossStartPos == 0.0
      && (n >= 2 ==> r[n - 1].crossStartPos + r[n - 1].minCrossSize == crossSize)
  {
    var n := |lines|;
    var sp := ContentSpacing(AlignContent.SpaceBetween, crossSize, SumCross(lines), n);
    assert PlaceLines(lines, sp)[0].crossStartPos == 0.0;
    if n >= 2 {
      SpaceBetweenLastLine(lines, crossSize);
    }
  }

  lemma SpaceBetweenLastLine(lines: seq<FlexLine>, crossSize: real)
    requires |lines| >= 2
    ensures var r := AlignContentSpec(lines, AlignContent.SpaceBetween, crossSize).lines;
      r[|lines| - 1].crossStartPos + r[|lines| - 1].minCrossSize == crossSize
  {
    var n := |lines|;
    var free := crossSize - SumCross(lines);
    var sp := ContentSpacing(AlignContent.SpaceBetween, crossSize, SumCross(lines), n);
    var a := free / ((n - 1) as real);
    assert sp.start == 0.0 && sp.before + sp.after == a && sp.after == a;
    LastLineEnd(lines, sp);
    FinalCursor(lines, sp, a);
    SpreadOverGaps(n, free);
  }

  /** SPACE_AROUND leaves half a gap before the first line and after the last, whole gaps between. */
  lemma SpaceAroundGaps(lines: seq<FlexLine>, crossSize: real)
    requires |lines| > 0
    ensures var r := AlignContentSpec(lines, AlignContent.SpaceAround, crossSize).lines;
      var n := |lines|;
      var h := Share(crossSize - SumCross(lines), n) / 2.0;
      && r[0].crossStartPos == h
      && crossSize - (r[n - 1].crossStartPos + r[n - 1].minCrossSize) == h
      && (forall i :: 0 <= i < n - 1 ==> r[i + 1].crossStartPos == r[i].crossStartPos + r[i].minCrossSize + 2.0 * h)
  {
    var n := |lines|;
    var sp := ContentSpacing(AlignContent.SpaceAround, crossSize, SumCross(lines), n);
    LinePositions(lines, sp);
    SpaceAroundLastLine(lines, crossSize);
  }

  lemma SpaceAroundLastLine(lines: seq<FlexLine>, crossSize: real)
    requires |lines| > 0
    ensures var r := AlignContentSpec(lines, AlignContent.SpaceAround, crossSize).lines;
      var n := |lines|;
      crossSize - (r[n - 1].crossStartPos + r[n - 1].minCrossSize) ==
      ContentSpacing(AlignContent.SpaceAround, crossSize, SumCross(lines), n).after
  {
    var sp := ContentSpacing(AlignContent.SpaceAround, crossSize, SumCross(lines), |lines|);
    LastLineEnd(lines, sp);
    SpaceAroundFinalCursor(lines, crossSize);
  }

  /** Under SPACE_AROUND the cursor after the last line stands exactly at the cross size. */
  lemma SpaceAroundFinalCursor(lines: seq<FlexLine>, crossSize: real)
    requires |lines| > 0
    ensures Cursor(lines, ContentSpacing(AlignContent.SpaceAround, crossSize, SumCross(lines), |lines|), |lines|) == crossSize
  {
    var n := |lines|;
    var free := crossSize - SumCross(lines);
    var sp := ContentSpacing(AlignContent.SpaceAround, crossSize, SumCross(lines), n);
    var g := Share(free, n);
    assert sp.start == 0.0 && sp.before + sp.after == g;
    FinalCursor(lines, sp, g);
    SharesAddUp(n, free, g);
  }

  lemma {:induction false} StretchedSum(lines: seq<FlexLine>, sp: Spacing, k: nat)
    requires sp.stretch && k <= |lines|
    ensures SumCross(PlaceLines(lines, sp)[..k]) == SumCross(lines[..k]) + (k as real) * sp.after
  {
    if k > 0 {
      StretchedSum(lines, sp, k - 1);
      SumCrossStep(lines, k - 1);
      SumCrossStep(PlaceLines(lines, sp), k - 1);
      MulSucc((k - 1) as real, sp.after);
    }
  }

  /** STRETCH grows every line by the same share so that the lines fill the cross size exactly, packed from 0. */
  lemma StretchFillsCross(lines: seq<FlexLine>, crossSize: real)
    requires |lines| > 0
    ensures var r := AlignContentSpec(lines, AlignContent.Stretch, crossSize).lines;
      && SumCross(r) == crossSize
      && r[0].crossStartPos == 0.0
      && (forall i :: 0 <= i < |lines| - 1 ==> r[i + 1].crossStartPos == r[i].crossStartPos + r[i].minCrossSize)
  {
    var n := |lines|;
    var sp := ContentSpacing(AlignContent.Stretch, crossSize, SumCross(lines), n);
    var r := PlaceLines(lines, sp);
    assert SumCross(r) == crossSize by {
      StretchedSum(lines, sp, n);
      assert r[..n] == r && lines[..n] == lines;
      MulDiv(n as real, crossSize - SumCross(lines));
    }
    assert sp.start == 0.0 && sp.before == 0.0 && sp.stretch;
    LinePositions(lines, sp);
  }

  // ---------------------------------------------------------------------------
  // The align-content test: three lines of cross size 20 in a cross size of 500.
  // ---------------------------------------------------------------------------

  lemma ThreeLineCursor(lines: seq<FlexLine>, sp: Spacing)
    requires |lines| == 3 && forall i :: 0 <= i < 3 ==> lines[i].minCrossSize == 20.0
    ensures SumCross(lines) == 60.0
    ensures PlaceLines(lines, sp)[2].crossStartPos == sp.start + 2.0 * (sp.before + sp.after) + sp.before + 40.0
  {
    assert lines[..0] == [];
    SumCrossStep(lines, 0);
    SumCrossStep(lines, 1);
    SumCrossStep(lines, 2);
    assert lines[..3] == lines;
    assert lines[0].minCrossSize == 20.0 && lines[1].minCrossSize == 20.0;
    assert Cursor(lines, sp, 1) == sp.start + sp.before + 20.0 + sp.after;
    assert Cursor(lines, sp, 2) == sp.start + 2.0 * (sp.before + sp.after) + 40.0;
  }

  lemma AlignContentThreeLines(lines: seq<FlexLine>)
    requires |lines| == 3 && forall i :: 0 <= i < 3 ==> lines[i].minCrossSize == 20.0
    ensures AlignContentSpec(lines, AlignContent.FlexStart, 500.0).minCrossSize == 60.0
    ensures AlignContentSpec(lines, AlignContent.FlexStart, 500.0).lines[2].crossStartPos == 40.0
    ensures AlignContentSpec(lines, AlignContent.FlexEnd, 500.0).lines[2].crossStartPos == 480.0
    ensures AlignContentSpec(lines, AlignContent.Center, 500.0).lines[2].crossStartPos == 260.0
    ensures AlignContentSpec(lines, AlignContent.SpaceAround, 500.0).lines[2].crossStartPos == 1220.0 / 3.0
    ensures AlignContentSpec(lines, AlignContent.SpaceBetween, 500.0).lines[2].crossStartPos == 480.0
  {
    ThreeLineCursor(lines, ContentSpacing(AlignContent.FlexStart, 500.0, 60.0, 3));
    ThreeLineCursor(lines, ContentSpacing(AlignContent.FlexEnd, 500.0, 60.0, 3));
    ThreeLineCursor(lines, ContentSpacing(AlignContent.Center, 500.0, 60.0, 3));
    ThreeLineCursor(lines, ContentSpacing(AlignContent.SpaceAround, 500.0, 60.0, 3));
    ThreeLineCursor(lines, ContentSpacing(AlignContent.SpaceBetween, 500.0, 60.0, 3));
  }
}

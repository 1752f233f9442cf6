// The line breaker: hypothetical sizes of the ordered items, their
// partition into flex lines, and each line's aggregates.
module LineBreaking {
  import opened FlexTypes
  import opened Positions
  import opened Ordering

  /**
   * What line breaking reads of an item once its target sizes are set: the hypothetical
   * main and cross sizes and the grow and shrink factors.
   */
  datatype Measured = Measured(main: real, cross: real, grow: real, shrink: real)

  function Measure(item: FlexItem, horizontal: bool, mainSize: real): (r: Measured)
    ensures r.main == HypotheticalMainSize(item, horizontal, mainSize)
    ensures r.cross == HypotheticalCrossSize(item, horizontal, mainSize)
    ensures r.grow == item.flexGrow && r.shrink == item.flexShrink
  {
    Measured(HypotheticalMainSize(item, horizontal, mainSize), HypotheticalCrossSize(item, horizontal, mainSize),
      item.flexGrow, item.flexShrink)
  }

  /** The measurements of all added items, by position. */
  function MeasureAll(items: seq<FlexItem>, horizontal: bool, mainSize: real): (m: seq<Measured>)
    ensures |m| == |items|
    ensures forall i :: 0 <= i < |items| ==> m[i] == Measure(items[i], horizontal, mainSize)
  {
    if |items| == 0 then [] else MeasureAll(items[..|items| - 1], horizontal, mainSize) + [Measure(items[|items| - 1], horizontal, mainSize)]
  }

  // ---------------------------------------------------------------------------
  // Aggregates of a list of item positions, by prefix recursion.
  // ---------------------------------------------------------------------------

  /** Sum of the hypothetical main sizes. */
  function SumMain(m: seq<Measured>, s: seq<nat>): real
    requires InRange(s, |m|)
  {
    if |s| == 0 then 0.0 else SumMain(m, s[..|s| - 1]) + m[s[|s| - 1]].main
  }

  /** Largest hypothetical cross size, and 0 when all are smaller. */
  function MaxCross(m: seq<Measured>, s: seq<nat>): (r: real)
    requires InRange(s, |m|)
    ensures r >= 0.0
    ensures forall j :: 0 <= j < |s| ==> m[s[j]].cross <= r
  {
    if |s| == 0 then 0.0
    else
      var r := MaxCross(m, s[..|s| - 1]);
      var c := m[s[|s| - 1]].cross;
      assert forall j :: 0 <= j < |s| - 1 ==> s[..|s| - 1][j] == s[j];
      if c > r then c else r
  }

  /** Largest hypothetical main size, and 0 when all are smaller. */
  function MaxMain(m: seq<Measured>, s: seq<nat>): (r: real)
    requires InRange(s, |m|)
    ensures r >= 0.0
    ensures forall j :: 0 <= j < |s| ==> m[s[j]].main <= r
  {
    if |s| == 0 then 0.0
    else
      var r := MaxMain(m, s[..|s| - 1]);
      var h := m[s[|s| - 1]].main;
      assert forall j :: 0 <= j < |s| - 1 ==> s[..|s| - 1][j] == s[j];
      if h > r then h else r
  }

  /** Sum of the grow factors that differ from the default 0. */
  function SumGrow(m: seq<Measured>, s: seq<nat>): real
    requires InRange(s, |m|)
  {
    if |s| == 0 then 0.0
    else
      var g := m[s[|s| - 1]].grow;
      SumGrow(m, s[..|s| - 1]) + (if g != FlexGrowDefault then g else 0.0)
  }

  /** Sum of the shrink factors that differ from the default 1. */
  function SumShrink(m: seq<Measured>, s: seq<nat>): real
    requires InRange(s, |m|)
  {
    if |s| == 0 then 0.0
    else
      var f := m[s[|s| - 1]].shrink;
      SumShrink(m, s[..|s| - 1]) + (if f != FlexShrinkDefault then f else 0.0)
  }

  /** The largest cross size is attained by a member, unless it is the floor 0. */
  lemma {:induction false} MaxCrossAttained(m: seq<Measured>, s: seq<nat>)
    requires InRange(s, |m|)
    ensures MaxCross(m, s) == 0.0 || exists j :: 0 <= j < |s| && MaxCross(m, s) == m[s[j]].cross
  {
    if |s| > 0 {
      MaxCrossAttained(m, s[..|s| - 1]);
      if MaxCross(m, s) != m[s[|s| - 1]].cross && MaxCross(m, s) != 0.0 {
        var j :| 0 <= j < |s| - 1 && MaxCross(m, s[..|s| - 1]) == m[s[..|s| - 1][j]].cross;
        assert s[..|s| - 1][j] == s[j];
      }
    }
  }

  /** The largest main size is attained by a member, unless it is the floor 0. */
  lemma {:induction false} MaxMainAttained(m: seq<Measured>, s: seq<nat>)
    requires InRange(s, |m|)
    ensures MaxMain(m, s) == 0.0 || exists j :: 0 <= j < |s| && MaxMain(m, s) == m[s[j]].main
  {
    if |s| > 0 {
      MaxMainAttained(m, s[..|s| - 1]);
      if MaxMain(m, s) != m[s[|s| - 1]].main && MaxMain(m, s) != 0.0 {
        var j :| 0 <= j < |s| - 1 && MaxMain(m, s[..|s| - 1]) == m[s[..|s| - 1][j]].main;
        assert s[..|s| - 1][j] == s[j];
      }
    }
  }

  predicate LinesInRange(lines: seq<FlexLine>, n: nat) {
    forall i :: 0 <= i < |lines| ==> InRange(lines[i].flexItems, n)
  }

  /** The members of the lines, line after line. */
  function Flatten(lines: seq<FlexLine>): seq<nat> {
    if |lines| == 0 then [] else Flatten(lines[..|lines| - 1]) + lines[|lines| - 1].flexItems
  }

  /** A line whose aggregates are those of its members, as line breaking leaves it. */
  predicate AggregatesOf(m: seq<Measured>, line: FlexLine)
    requires InRange(line.flexItems, |m|)
  {
    && line.minMainSize == SumMain(m, line.flexItems)
    && line.minCrossSize == MaxCross(m, line.flexItems)
    && line.grow == SumGrow(m, line.flexItems)
    && line.shrink == SumShrink(m, line.flexItems)
    && line.crossStartPos == 0.0
  }

  // ---------------------------------------------------------------------------
  // The loops of calculateFlexLines.
  // ---------------------------------------------------------------------------

  /** The per-item update of the line an item joins: cross size, grow and shrink totals. */
  function Account(line: FlexLine, x: Measured): FlexLine {
    line.(
      minCrossSize := if x.cross > line.minCrossSize then x.cross else line.minCrossSize,
      grow := if x.grow != FlexGrowDefault then line.grow + x.grow else line.grow,
      shrink := if x.shrink != FlexShrinkDefault then line.shrink + x.shrink else line.shrink)
  }

  /** NOWRAP: one line holding every item, whose aggregates the loop accumulates. */
  function NoWrapPrefix(m: seq<Measured>, order: seq<nat>, k: nat): (line: FlexLine)
    requires InRange(order, |m|) && k <= |order|
    ensures line.flexItems == order
  {
    if k == 0 then EmptyLine.(flexItems := order)
    else
      var line := NoWrapPrefix(m, order, k - 1);
      var x := m[order[k - 1]];
      Account(line, x).(minMainSize := line.minMainSize + x.main)
  }

  /** State of the wrapping loop: the lines so far (the last one open), the running size, the layout minimum. */
  datatype Breaking = Breaking(lines: seq<FlexLine>, minSize: real, minMainSize: real)

  /** Whether the item at `idx` overflows the open line, which is then closed (an empty line never is). */
  predicate StartsNewLine(m: seq<Measured>, mainSize: real, b: Breaking, idx: nat)
    requires idx < |m| && |b.lines| > 0
  {
    b.minSize + m[idx].main > mainSize && |b.lines[|b.lines| - 1].flexItems| > 0
  }

  function OpenLines(b: Breaking, startNew: bool): seq<FlexLine> {
    if startNew then b.lines + [EmptyLine] else b.lines
  }

  /** One iteration of the wrapping loop. */
  function WrapStep(m: seq<Measured>, mainSize: real, b: Breaking, idx: nat): (r: Breaking)
    requires idx < |m| && |b.lines| > 0
    ensures |r.lines| > 0
  {
    var x := m[idx];
    var minMain := if x.main > b.minMainSize then x.main else b.minMainSize;
    var startNew := StartsNewLine(m, mainSize, b, idx);
    var lines := OpenLines(b, startNew);
    var size := if startNew then x.main else b.minSize + x.main;
    var current := lines[|lines| - 1];
    var current' := Account(current, x).(flexItems := current.flexItems + [idx], minMainSize := size);
    Breaking(lines[|lines| - 1 := current'], size, minMain)
  }

  function WrapPrefix(m: seq<Measured>, order: seq<nat>, mainSize: real, k: nat): (r: Breaking)
    requires InRange(order, |m|) && k <= |order|
    ensures |r.lines| > 0
  {
    if k == 0 then Breaking([EmptyLine], 0.0, 0.0)
    else WrapStep(m, mainSize, WrapPrefix(m, order, mainSize, k - 1), order[k - 1])
  }

  predicate IsNoWrap(wrap: Option<FlexWrap>) { wrap == Some(FlexWrap.NoWrap) }

  predicate IsWrapReverse(wrap: Option<FlexWrap>) { wrap == Some(FlexWrap.WrapReverse) }

  /** The lines and the layout's minimum main size that calculateFlexLines produces. */
  datatype LineBreak = LineBreak(lines: seq<FlexLine>, minMainSize: real)

  function FlexLines(m: seq<Measured>, order: seq<nat>, wrap: Option<FlexWrap>, mainSize: real): LineBreak
    requires InRange(order, |m|)
  {
    if IsNoWrap(wrap) then
      var line := NoWrapPrefix(m, order, |order|);
      LineBreak([line], line.minMainSize)
    else
      var b := WrapPrefix(m, order, mainSize, |order|);
      LineBreak(if IsWrapReverse(wrap) then Reverse(b.lines) else b.lines, b.minMainSize)
  }

  // ---------------------------------------------------------------------------
  // Properties.
  // ---------------------------------------------------------------------------

  lemma AggregatesAppend(m: seq<Measured>, s: seq<nat>, x: nat)
    requires InRange(s, |m|) && x < |m|
    ensures InRange(s + [x], |m|)
    ensures SumMain(m, s + [x]) == SumMain(m, s) + m[x].main
    ensures MaxCross(m, s + [x]) == (var r := MaxCross(m, s); if m[x].cross > r then m[x].cross else r)
    ensures MaxMain(m, s + [x]) == (var r := MaxMain(m, s); if m[x].main > r then m[x].main else r)
    ensures SumGrow(m, s + [x]) == SumGrow(m, s) + (if m[x].grow != FlexGrowDefault then m[x].grow else 0.0)
    ensures SumShrink(m, s + [x]) == SumShrink(m, s) + (if m[x].shrink != FlexShrinkDefault then m[x].shrink else 0.0)
  {
    assert (s + [x])[..|s|] == s;
  }

  lemma FlattenLastUpdate(lines: seq<FlexLine>, line: FlexLine, x: nat)
    requires |lines| > 0 && line.flexItems == lines[|lines| - 1].flexItems + [x]
    ensures Flatten(lines[|lines| - 1 := line]) == Flatten(lines) + [x]
  {
    var n := |lines|;
    assert lines[n - 1 := line][..n - 1] == lines[..n - 1];
  }

  lemma FlattenAppendEmpty(lines: seq<FlexLine>)
    ensures Flatten(lines + [EmptyLine]) == Flatten(lines)
  {
    assert (lines + [EmptyLine])[..|lines|] == lines;
  }

  /** Lines in range whose concatenation is `prefix`; only the open last line may be empty. */
  predicate WrapShape(n: nat, prefix: seq<nat>, b: Breaking) {
    && |b.lines| > 0
    && LinesInRange(b.lines, n)
    && Flatten(b.lines) == prefix
    && (forall i :: 0 <= i < |b.lines| - 1 ==> |b.lines[i].flexItems| > 0)
    && (|prefix| > 0 ==> |b.lines[|b.lines| - 1].flexItems| > 0)
  }

  /** Every line carries its members' aggregates; the running size is the open line's. */
  predicate WrapSums(m: seq<Measured>, b: Breaking)
    requires |b.lines| > 0 && LinesInRange(b.lines, |m|)
  {
    && (forall i :: 0 <= i < |b.lines| ==> AggregatesOf(m, b.lines[i]))
    && b.minSize == b.lines[|b.lines| - 1].minMainSize
  }

  /** A line of two or more items fits the main size. */
  predicate Fits(mainSize: real, lines: seq<FlexLine>) {
    forall i :: 0 <= i < |lines| && |lines[i].flexItems| >= 2 ==> lines[i].minMainSize <= mainSize
  }

  /** The first item of `next` is in range and would overflow `line`. */
  predicate Overflows(m: seq<Measured>, mainSize: real, line: FlexLine, next: FlexLine) {
    && |next.flexItems| > 0 && next.flexItems[0] < |m|
    && line.minMainSize + m[next.flexItems[0]].main > mainSize
  }

  /** A line was closed only because the first item of the next one would overflow it. */
  predicate Greedy(m: seq<Measured>, mainSize: real, lines: seq<FlexLine>) {
    forall j :: 0 < j < |lines| ==> Overflows(m, mainSize, lines[j - 1], lines[j])
  }

  lemma OpenLinesShape(n: nat, prefix: seq<nat>, b: Breaking, startNew: bool)
    requires WrapShape(n, prefix, b)
    requires startNew ==> |b.lines[|b.lines| - 1].flexItems| > 0
    ensures var lines := OpenLines(b, startNew);
      && LinesInRange(lines, n)
      && Flatten(lines) == prefix
      && (forall i :: 0 <= i < |lines| - 1 ==> |lines[i].flexItems| > 0)
      && (startNew ==> lines[|lines| - 1] == EmptyLine)
  {
    if startNew {
      FlattenAppendEmpty(b.lines);
    }
  }

  lemma WrapStepShape(m: seq<Measured>, mainSize: real, prefix: seq<nat>, b: Breaking, idx: nat)
    requires idx < |m| && WrapShape(|m|, prefix, b)
    ensures WrapShape(|m|, prefix + [idx], WrapStep(m, mainSize, b, idx))
  {
    var startNew := StartsNewLine(m, mainSize, b, idx);
    var lines := OpenLines(b, startNew);
    OpenLinesShape(|m|, prefix, b, startNew);
    var r := WrapStep(m, mainSize, b, idx);
    FlattenLastUpdate(lines, r.lines[|lines| - 1], idx);
  }

  lemma WrapStepSums(m: seq<Measured>, mainSize: real, prefix: seq<nat>, b: Breaking, idx: nat)
    requires idx < |m| && WrapShape(|m|, prefix, b) && WrapSums(m, b)
    ensures WrapShape(|m|, prefix + [idx], WrapStep(m, mainSize, b, idx))
    ensures WrapSums(m, WrapStep(m, mainSize, b, idx))
  {
    WrapStepShape(m, mainSize, prefix, b, idx);
    var startNew := StartsNewLine(m, mainSize, b, idx);
    var lines := OpenLines(b, startNew);
    var current := lines[|lines| - 1];
    var size := if startNew then m[idx].main else b.minSize + m[idx].main;
    var minMain := if m[idx].main > b.minMainSize then m[idx].main else b.minMainSize;
    OpenLinesSums(m, prefix, b, idx, startNew, size, minMain);
    WrapStepIs(m, mainSize, b, idx, startNew, size, minMain,
               lines[|lines| - 1 := Account(current, m[idx]).(flexItems := current.flexItems + [idx], minMainSize := size)]);
  }

  /** Opening a line if need be and adding the item to the open line keeps every line's aggregates. */
  lemma OpenLinesSums(m: seq<Measured>, prefix: seq<nat>, b: Breaking, idx: nat, startNew: bool, size: real, minMain: real)
    requires idx < |m| && WrapShape(|m|, prefix, b) && WrapSums(m, b)
    requires startNew ==> |b.lines[|b.lines| - 1].flexItems| > 0
    requires size == if startNew then m[idx].main else b.minSize + m[idx].main
    ensures var lines := OpenLines(b, startNew); var current := lines[|lines| - 1];
      var lines' := lines[|lines| - 1 := Account(current, m[idx]).(flexItems := current.flexItems + [idx], minMainSize := size)];
      LinesInRange(lines', |m|) && WrapSums(m, Breaking(lines', size, minMain))
  {
    var lines := OpenLines(b, startNew);
    OpenLinesShape(|m|, prefix, b, startNew);
    var n := |lines|;
    var current := lines[n - 1];
    assert forall i :: 0 <= i < n ==> AggregatesOf(m, lines[i]) by {
      assert AggregatesOf(m, EmptyLine);
    }
    assert size == current.minMainSize + m[idx].main;
    AccountAggregates(m, current, idx, size);
  }

  /** `WrapStep` spelled out from its parts, as the loop body computes them. */
  lemma WrapStepIs(m: seq<Measured>, mainSize: real, b: Breaking, idx: nat, startNew: bool,
                   size: real, minMain: real, lines: seq<FlexLine>)
    requires idx < |m| && |b.lines| > 0
    requires startNew == StartsNewLine(m, mainSize, b, idx)
    requires size == if startNew then m[idx].main else b.minSize + m[idx].main
    requires minMain == if m[idx].main > b.minMainSize then m[idx].main else b.minMainSize
    requires var open := OpenLines(b, startNew); var current := open[|open| - 1];
      lines == open[|open| - 1 := Account(current, m[idx]).(flexItems := current.flexItems + [idx], minMainSize := size)]
    ensures Breaking(lines, size, minMain) == WrapStep(m, mainSize, b, idx)
  {
  }

  /** Adding an item to a line that carries its members' aggregates keeps it so. */
  lemma AccountAggregates(m: seq<Measured>, line: FlexLine, idx: nat, size: real)
    requires InRange(line.flexItems, |m|) && idx < |m| && AggregatesOf(m, line)
    requires size == line.minMainSize + m[idx].main
    ensures InRange(line.flexItems + [idx], |m|)
    ensures AggregatesOf(m, Account(line, m[idx]).(flexItems := line.flexItems + [idx], minMainSize := size))
  {
    AggregatesAppend(m, line.flexItems, idx);
  }

  lemma WrapStepGreedy(m: seq<Measured>, mainSize: real, prefix: seq<nat>, b: Breaking, idx: nat)
    requires idx < |m| && WrapShape(|m|, prefix, b) && WrapSums(m, b)
    requires Fits(mainSize, b.lines) && Greedy(m, mainSize, b.lines)
    ensures WrapShape(|m|, prefix + [idx], WrapStep(m, mainSize, b, idx))
    ensures Fits(mainSize, WrapStep(m, mainSize, b, idx).lines)
    ensures Greedy(m, mainSize, WrapStep(m, mainSize, b, idx).lines)
  {
    WrapStepShape(m, mainSize, prefix, b, idx);
    var startNew := StartsNewLine(m, mainSize, b, idx);
    var lines := OpenLines(b, startNew);
    var current := lines[|lines| - 1];
    var size := if startNew then m[idx].main else b.minSize + m[idx].main;
    var minMain := if m[idx].main > b.minMainSize then m[idx].main else b.minMainSize;
    OpenLinesGreedy(m, mainSize, prefix, b, idx, startNew, size);
    WrapStepIs(m, mainSize, b, idx, startNew, size, minMain,
               lines[|lines| - 1 := Account(current, m[idx]).(flexItems := current.flexItems + [idx], minMainSize := size)]);
  }

  /** Closing a line only when the item overflows it, and adding the item to the open line, keeps the lines greedy and fitting. */
  lemma OpenLinesGreedy(m: seq<Measured>, mainSize: real, prefix: seq<nat>, b: Breaking, idx: nat, startNew: bool, size: real)
    requires idx < |m| && WrapShape(|m|, prefix, b) && WrapSums(m, b)
    requires Fits(mainSize, b.lines) && Greedy(m, mainSize, b.lines)
    requires startNew == StartsNewLine(m, mainSize, b, idx)
    requires size == if startNew then m[idx].main else b.minSize + m[idx].main
    ensures var lines := OpenLines(b, startNew); var current := lines[|lines| - 1];
      var lines' := lines[|lines| - 1 := Account(current, m[idx]).(flexItems := current.flexItems + [idx], minMainSize := size)];
      Fits(mainSize, lines') && Greedy(m, mainSize, lines')
  {
    var lines := OpenLines(b, startNew);
    var n := |lines|;
    var current := lines[n - 1];
    var line' := Account(current, m[idx]).(flexItems := current.flexItems + [idx], minMainSize := size);
    if startNew {
      assert line'.flexItems == [idx];
      assert lines[n - 1 := line'] == b.lines + [line'];
      CloseLine(m, mainSize, b.lines, line');
    } else {
      assert |line'.flexItems| >= 2 ==> line'.minMainSize <= mainSize;
      KeepLine(m, mainSize, b.lines, line');
    }
  }

  /** Replacing the open line by one that still fits and starts with the same item keeps the lines greedy and fitting. */
  lemma KeepLine(m: seq<Measured>, mainSize: real, lines: seq<FlexLine>, line': FlexLine)
    requires |lines| > 0 && Fits(mainSize, lines) && Greedy(m, mainSize, lines)
    requires |line'.flexItems| >= 2 ==> line'.minMainSize <= mainSize
    requires |lines[|lines| - 1].flexItems| > 0 ==> |line'.flexItems| > 0 && line'.flexItems[0] == lines[|lines| - 1].flexItems[0]
    ensures Fits(mainSize, lines[|lines| - 1 := line']) && Greedy(m, mainSize, lines[|lines| - 1 := line'])
  {
    var n := |lines|;
    var ls := lines[n - 1 := line'];
    assert forall i :: 0 <= i < n - 1 ==> ls[i] == lines[i];
    if n > 1 {
      assert Overflows(m, mainSize, lines[n - 2], lines[n - 1]);
      assert ls[n - 2] == lines[n - 2];
    }
  }

  /** Closing the open line because the next item of `line'`, a line of its own, overflows it. */
  lemma CloseLine(m: seq<Measured>, mainSize: real, lines: seq<FlexLine>, line': FlexLine)
    requires |lines| > 0 && Fits(mainSize, lines) && Greedy(m, mainSize, lines)
    requires |line'.flexItems| == 1 && line'.flexItems[0] < |m|
    requires lines[|lines| - 1].minMainSize + m[line'.flexItems[0]].main > mainSize
    ensures Fits(mainSize, lines + [line']) && Greedy(m, mainSize, lines + [line'])
  {
    var n := |lines|;
    var ls := lines + [line'];
    assert forall i :: 0 <= i < n ==> ls[i] == lines[i];
    assert ls[n] == line';
  }

  lemma WrapPrefixSumsStep(m: seq<Measured>, order: seq<nat>, mainSize: real, k: nat)
    requires InRange(order, |m|) && 0 < k <= |order|
    requires var b := WrapPrefix(m, order, mainSize, k - 1); WrapShape(|m|, order[..k - 1], b) && WrapSums(m, b)
    ensures var b := WrapPrefix(m, order, mainSize, k); WrapShape(|m|, order[..k], b) && WrapSums(m, b)
  {
    var b := WrapPrefix(m, order, mainSize, k - 1);
    assert WrapPrefix(m, order, mainSize, k) == WrapStep(m, mainSize, b, order[k - 1]);
    WrapStepSums(m, mainSize, order[..k - 1], b, order[k - 1]);
    TakeOneMore(order, k);
  }

  lemma {:induction false} WrapPrefixSums(m: seq<Measured>, order: seq<nat>, mainSize: real, k: nat)
    requires InRange(order, |m|) && k <= |order|
    ensures var b := WrapPrefix(m, order, mainSize, k); WrapShape(|m|, order[..k], b) && WrapSums(m, b)
  {
    if k == 0 {
      assert AggregatesOf(m, EmptyLine);
    } else {
      WrapPrefixSums(m, order, mainSize, k - 1);
      WrapPrefixSumsStep(m, order, mainSize, k);
    }
  }

  lemma {:induction false} WrapPrefixMinMain(m: seq<Measured>, order: seq<nat>, mainSize: real, k: nat)
    requires InRange(order, |m|) && k <= |order|
    ensures WrapPrefix(m, order, mainSize, k).minMainSize == MaxMain(m, order[..k])
  {
    if k > 0 {
      WrapPrefixMinMain(m, order, mainSize, k - 1);
      assert order[..k] == order[..k - 1] + [order[k - 1]];
      AggregatesAppend(m, order[..k - 1], order[k - 1]);
    }
  }

  lemma WrapPrefixGreedyStep(m: seq<Measured>, order: seq<nat>, mainSize: real, k: nat)
    requires InRange(order, |m|) && 0 < k <= |order|
    requires var b := WrapPrefix(m, order, mainSize, k - 1);
      WrapShape(|m|, order[..k - 1], b) && WrapSums(m, b) && Fits(mainSize, b.lines) && Greedy(m, mainSize, b.lines)
    ensures var b := WrapPrefix(m, order, mainSize, k); Fits(mainSize, b.lines) && Greedy(m, mainSize, b.lines)
  {
    var b := WrapPrefix(m, order, mainSize, k - 1);
    WrapStepGreedy(m, mainSize, order[..k - 1], b, order[k - 1]);
  }

  lemma {:induction false} WrapPrefixGreedy(m: seq<Measured>, order: seq<nat>, mainSize: real, k: nat)
    requires InRange(order, |m|) && k <= |order|
    ensures var b := WrapPrefix(m, order, mainSize, k); Fits(mainSize, b.lines) && Greedy(m, mainSize, b.lines)
  {
    if k > 0 {
      WrapPrefixGreedy(m, order, mainSize, k - 1);
      WrapPrefixSums(m, order, mainSize, k - 1);
      WrapPrefixGreedyStep(m, order, mainSize, k);
    }
  }

  /** The invariant of the wrapping loop after the first `k` ordered items. */
  lemma WrapPrefixInvariant(m: seq<Measured>, order: seq<nat>, mainSize: real, k: nat)
    requires InRange(order, |m|) && k <= |order|
    ensures var b := WrapPrefix(m, order, mainSize, k);
      && WrapShape(|m|, order[..k], b)
      && WrapSums(m, b)
      && Fits(mainSize, b.lines)
      && Greedy(m, mainSize, b.lines)
      && b.minMainSize == MaxMain(m, order[..k])
  {
    WrapPrefixSums(m, order, mainSize, k);
    WrapPrefixMinMain(m, order, mainSize, k);
    WrapPrefixGreedy(m, order, mainSize, k);
  }

  lemma {:induction false} NoWrapPrefixAggregates(m: seq<Measured>, order: seq<nat>, k: nat)
    requires InRange(order, |m|) && k <= |order|
    ensures var line := NoWrapPrefix(m, order, k);
      && line.minMainSize == SumMain(m, order[..k])
      && line.minCrossSize == MaxCross(m, order[..k])
      && line.grow == SumGrow(m, order[..k])
      && line.shrink == SumShrink(m, order[..k])
      && line.crossStartPos == 0.0
  {
    if k > 0 {
      NoWrapPrefixAggregates(m, order, k - 1);
      assert order[..k] == order[..k - 1] + [order[k - 1]];
      AggregatesAppend(m, order[..k - 1], order[k - 1]);
    }
  }

  /** Under NOWRAP there is exactly one line: it holds every item and sums their sizes. */
  lemma NoWrapYieldsOneLine(m: seq<Measured>, order: seq<nat>, wrap: Option<FlexWrap>, mainSize: real)
    requires InRange(order, |m|) && IsNoWrap(wrap)
    ensures |FlexLines(m, order, wrap, mainSize).lines| == 1
    ensures FlexLines(m, order, wrap, mainSize).lines[0].flexItems == order
    ensures AggregatesOf(m, FlexLines(m, order, wrap, mainSize).lines[0])
    ensures FlexLines(m, order, wrap, mainSize).minMainSize == SumMain(m, order)
  {
    NoWrapPrefixAggregates(m, order, |order|);
    assert order[..|order|] == order;
  }

  /**
   * Under WRAP and WRAP_REVERSE (and an unset wrap mode) the lines, in breaking order, partition
   * the ordered items; every line keeps its members' aggregates; a line breaks only when the next
   * item would overflow a non-empty line, so a line of two or more items fits; the layout minimum
   * is the largest single item.
   */
  lemma WrapPartitionsItems(m: seq<Measured>, order: seq<nat>, wrap: Option<FlexWrap>, mainSize: real)
    requires InRange(order, |m|) && !IsNoWrap(wrap)
    ensures var r := FlexLines(m, order, wrap, mainSize);
      var lines := if IsWrapReverse(wrap) then Reverse(r.lines) else r.lines;
      && |lines| > 0
      && LinesInRange(lines, |m|)
      && Flatten(lines) == order
      && (forall i :: 0 <= i < |lines| ==> AggregatesOf(m, lines[i]))
      && (|order| > 0 ==> forall i :: 0 <= i < |lines| ==> |lines[i].flexItems| > 0)
      && Fits(mainSize, lines)
      && Greedy(m, mainSize, lines)
      && r.minMainSize == MaxMain(m, order)
  {
    WrapPrefixInvariant(m, order, mainSize, |order|);
    assert order[..|order|] == order;
    if IsWrapReverse(wrap) {
      ReverseReverse(WrapPrefix(m, order, mainSize, |order|).lines);
    }
  }

  // ---------------------------------------------------------------------------
  // The line counts of the breaking test, on items measured 50 by 50 in 100.
  // ---------------------------------------------------------------------------

  /** An item whose only settings are a minimum width and height of 50. */
  const MinSized50: FlexItem := DefaultFlexItem.(minWidth := 50.0, minHeight := 50.0)

  /** An auto-sized item with the default basis measures its margins plus the larger of its minimum and -mainSize/100. */
  lemma AutoSizedMeasure(item: FlexItem, mainSize: real)
    requires item.width < 0.0 && item.height < 0.0 && item.flexBasisPercent == FlexBasisPercentDefault
    requires 0.0 <= mainSize <= item.maxWidth && mainSize <= item.maxHeight
    ensures Measure(item, true, mainSize).main == item.marginLeft + item.marginRight + Max(item.minWidth, -mainSize / 100.0)
    ensures Measure(item, true, mainSize).cross == item.marginTop + item.marginBottom + Max(item.minHeight, -mainSize / 100.0)
  {
    assert mainSize * item.flexBasisPercent / 100.0 == -mainSize / 100.0;
  }

  /** The items of the breaking test measure 50 by 50, 51 by -1 and 151 by -1 in a main size of 100. */
  lemma MeasureMinSized()
    ensures Measure(MinSized50, true, 100.0) == Measured(50.0, 50.0, 0.0, 1.0)
  {
    AutoSizedMeasure(MinSized50, 100.0);
  }

  lemma MeasureMinWidth51()
    ensures Measure(DefaultFlexItem.(minWidth := 51.0), true, 100.0) == Measured(51.0, -1.0, 0.0, 1.0)
  {
    AutoSizedMeasure(DefaultFlexItem.(minWidth := 51.0), 100.0);
  }

  lemma MeasureMinWidth151()
    ensures Measure(DefaultFlexItem.(minWidth := 151.0), true, 100.0) == Measured(151.0, -1.0, 0.0, 1.0)
  {
    AutoSizedMeasure(DefaultFlexItem.(minWidth := 151.0), 100.0);
  }

  /** Three 50-wide items: one line of 150 under NOWRAP; lines of 100 and 50 under WRAP. */
  lemma ThreeItemsBreak(x: Measured)
    requires x == Measured(50.0, 50.0, 0.0, 1.0)
    ensures FlexLines([x, x, x], [0, 1, 2], Some(FlexWrap.NoWrap), 100.0).lines == [FlexLine([0, 1, 2], 150.0, 50.0, 0.0, 0.0, 0.0)]
    ensures FlexLines([x, x, x], [0, 1, 2], Some(FlexWrap.Wrap), 100.0).lines ==
      [FlexLine([0, 1], 100.0, 50.0, 0.0, 0.0, 0.0), FlexLine([2], 50.0, 50.0, 0.0, 0.0, 0.0)]
  {
    var m := [x, x, x];
    var order := [0, 1, 2];
    assert NoWrapPrefix(m, order, 1) == FlexLine(order, 50.0, 50.0, 0.0, 0.0, 0.0);
    assert NoWrapPrefix(m, order, 2) == FlexLine(order, 100.0, 50.0, 0.0, 0.0, 0.0);
    assert NoWrapPrefix(m, order, 3) == FlexLine(order, 150.0, 50.0, 0.0, 0.0, 0.0);
    var b1 := Breaking([FlexLine([0], 50.0, 50.0, 0.0, 0.0, 0.0)], 50.0, 50.0);
    assert WrapPrefix(m, order, 100.0, 1) == b1 by {
      assert !StartsNewLine(m, 100.0, Breaking([EmptyLine], 0.0, 0.0), 0);
      assert [] + [0] == [0];
    }
    var b2 := Breaking([FlexLine([0, 1], 100.0, 50.0, 0.0, 0.0, 0.0)], 100.0, 50.0);
    assert WrapPrefix(m, order, 100.0, 2) == b2 by {
      assert !StartsNewLine(m, 100.0, b1, 1);
      assert [0] + [1] == [0, 1];
    }
    assert WrapPrefix(m, order, 100.0, 3) == Breaking(
      [FlexLine([0, 1], 100.0, 50.0, 0.0, 0.0, 0.0), FlexLine([2], 50.0, 50.0, 0.0, 0.0, 0.0)], 50.0, 50.0) by {
      assert StartsNewLine(m, 100.0, b2, 2);
      assert [] + [2] == [2];
    }
  }

  /** Three 51-wide items make three lines; one 151-wide item keeps a line of its own. */
  lemma OverflowingItemsBreak(x: Measured, y: Measured)
    requires x == Measured(51.0, -1.0, 0.0, 1.0) && y == Measured(151.0, -1.0, 0.0, 1.0)
    ensures |FlexLines([x, x, x], [0, 1, 2], Some(FlexWrap.Wrap), 100.0).lines| == 3
    ensures FlexLines([x, x, x], [0, 1, 2], Some(FlexWrap.Wrap), 100.0).lines[0].minMainSize == 51.0
    ensures FlexLines([y], [0], Some(FlexWrap.Wrap), 100.0).lines == [FlexLine([0], 151.0, 0.0, 0.0, 0.0, 0.0)]
  {
    var m := [x, x, x];
    var order := [0, 1, 2];
    var b1 := Breaking([FlexLine([0], 51.0, 0.0, 0.0, 0.0, 0.0)], 51.0, 51.0);
    assert WrapPrefix(m, order, 100.0, 1) == b1 by {
      assert !StartsNewLine(m, 100.0, Breaking([EmptyLine], 0.0, 0.0), 0);
      assert [] + [0] == [0];
    }
    var b2 := Breaking([FlexLine([0], 51.0, 0.0, 0.0, 0.0, 0.0), FlexLine([1], 51.0, 0.0, 0.0, 0.0, 0.0)], 51.0, 51.0);
    assert WrapPrefix(m, order, 100.0, 2) == b2 by {
      assert StartsNewLine(m, 100.0, b1, 1);
      assert [] + [1] == [1];
    }
    assert |WrapPrefix(m, order, 100.0, 3).lines| == 3 by {
      assert StartsNewLine(m, 100.0, b2, 2);
    }
    assert WrapPrefix([y], [0], 100.0, 1) == Breaking([FlexLine([0], 151.0, 0.0, 0.0, 0.0, 0.0)], 151.0, 151.0) by {
      assert !StartsNewLine([y], 100.0, Breaking([EmptyLine], 0.0, 0.0), 0);
      assert [] + [0] == [0];
    }
  }

  /** The items of the reversion test measure 50 by -1 in a main size of 100. */
  lemma MeasureMinWidth50()
    ensures Measure(DefaultFlexItem.(minWidth := 50.0), true, 100.0) == Measured(50.0, -1.0, 0.0, 1.0)
  {
    AutoSizedMeasure(DefaultFlexItem.(minWidth := 50.0), 100.0);
  }

  /** Three 50-wide items: WRAP puts two on the first line, WRAP_REVERSE lists the single-item line first. */
  lemma WrapReverseFlipsLines(x: Measured)
    requires x == Measured(50.0, -1.0, 0.0, 1.0)
    ensures FlexLines([x, x, x], [0, 1, 2], Some(FlexWrap.Wrap), 100.0).lines ==
      [FlexLine([0, 1], 100.0, 0.0, 0.0, 0.0, 0.0), FlexLine([2], 50.0, 0.0, 0.0, 0.0, 0.0)]
    ensures FlexLines([x, x, x], [0, 1, 2], Some(FlexWrap.WrapReverse), 100.0).lines ==
      [FlexLine([2], 50.0, 0.0, 0.0, 0.0, 0.0), FlexLine([0, 1], 100.0, 0.0, 0.0, 0.0, 0.0)]
  {
    var m := [x, x, x];
    var order := [0, 1, 2];
    var b1 := Breaking([FlexLine([0], 50.0, 0.0, 0.0, 0.0, 0.0)], 50.0, 50.0);
    assert WrapPrefix(m, order, 100.0, 1) == b1 by {
      assert !StartsNewLine(m, 100.0, Breaking([EmptyLine], 0.0, 0.0), 0);
      assert [] + [0] == [0];
    }
    var b2 := Breaking([FlexLine([0, 1], 100.0, 0.0, 0.0, 0.0, 0.0)], 100.0, 50.0);
    assert WrapPrefix(m, order, 100.0, 2) == b2 by {
      assert !StartsNewLine(m, 100.0, b1, 1);
      assert [0] + [1] == [0, 1];
    }
    var lines := [FlexLine([0, 1], 100.0, 0.0, 0.0, 0.0, 0.0), FlexLine([2], 50.0, 0.0, 0.0, 0.0, 0.0)];
    assert WrapPrefix(m, order, 100.0, 3) == Breaking(lines, 50.0, 50.0) by {
      assert StartsNewLine(m, 100.0, b2, 2);
      assert [] + [2] == [2];
    }
    assert Reverse(lines) == [lines[1], lines[0]];
  }
}

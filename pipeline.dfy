// layoutSubViews as one value-level function: reset, sort, break into
// lines, align the lines, lay each line out (distribute, justify, align
// its items) and compute the bounds; and what holds of its result.
module Pipeline {
  import opened FlexTypes
  import opened Positions
  import opened Ordering
  import opened LineBreaking
  import opened CrossLines
  import opened MainSpace
  import opened MainAxis
  import opened CrossItems
  import opened Placement

  /** The container's settings. */
  datatype Config = Config(direction: Option<FlexDirection>, wrap: Option<FlexWrap>, justify: JustifyContent,
                           alignItems: AlignItems, alignContent: AlignContent)

  /** `resetChildren`: every target size and start position is -1. */
  function ResetTargets(n: nat): (t: Targets)
    ensures TargetsFor(t, n)
  {
    var u := seq(n, i => -1.0);
    Targets(u, u, u, u)
  }

  /** The targets `calculateFlexLines` leaves: each ordered item gets its hypothetical sizes. */
  function MeasuredTargets(m: seq<Measured>, order: seq<nat>, t: Targets): (r: Targets)
    requires TargetsFor(t, |m|)
    ensures TargetsFor(r, |m|)
  {
    t.(mts := seq(|m|, i requires 0 <= i < |m| => if i in order then m[i].main else t.mts[i]),
       cts := seq(|m|, i requires 0 <= i < |m| => if i in order then m[i].cross else t.cts[i]))
  }

  /** The lines and the per-item targets while the lines are laid out. */
  datatype LineState = LineState(lines: seq<FlexLine>, t: Targets)

  predicate LineStateFor(st: LineState, n: nat) {
    LinesInRange(st.lines, n) && TargetsFor(st.t, n)
  }

  /** One iteration of `layoutFlexLines`: distribute, justify and align the items of line `k`. */
  function LayoutLineAt(items: seq<FlexItem>, horizontal: bool, cfg: Config, mainSize: real, st: LineState, k: nat): (r: LineState)
    requires k < |st.lines| && LineStateFor(st, |items|)
    ensures LineStateFor(r, |items|) && |r.lines| == |st.lines|
    ensures forall l :: 0 <= l < |st.lines| ==> r.lines[l].flexItems == st.lines[l].flexItems
  {
    var line := st.lines[k];
    var d := Distribute(items, horizontal, line, st.t.mts, mainSize);
    var line' := line.(minMainSize := d.lineMain);
    var msp := Justify(items, horizontal, cfg.justify, line', d.mts, st.t.msp, mainSize);
    var c := AlignLine(items, horizontal, cfg.alignItems, line', CrossState(st.t.csp, st.t.cts));
    LineState(st.lines[k := line'], Targets(d.mts, c.cts, msp, c.csp))
  }

  /** The loop of `layoutFlexLines` over its first `k` lines. */
  function LayoutLinesPrefix(items: seq<FlexItem>, horizontal: bool, cfg: Config, mainSize: real, st: LineState, k: nat): (r: LineState)
    requires k <= |st.lines| && LineStateFor(st, |items|)
    ensures LineStateFor(r, |items|) && |r.lines| == |st.lines|
    ensures forall l :: 0 <= l < |st.lines| ==> r.lines[l].flexItems == st.lines[l].flexItems
  {
    if k == 0 then st
    else LayoutLineAt(items, horizontal, cfg, mainSize, LayoutLinesPrefix(items, horizontal, cfg, mainSize, st, k - 1), k - 1)
  }

  lemma LayoutLinesPrefixStep(items: seq<FlexItem>, horizontal: bool, cfg: Config, mainSize: real, st: LineState, k: nat)
    requires 0 < k <= |st.lines| && LineStateFor(st, |items|)
    ensures LayoutLinesPrefix(items, horizontal, cfg, mainSize, st, k) ==
      LayoutLineAt(items, horizontal, cfg, mainSize, LayoutLinesPrefix(items, horizontal, cfg, mainSize, st, k - 1), k - 1)
  {
  }

  /** What `layoutSubViews` leaves behind. */
  datatype Layout = Layout(order: seq<nat>, lines: seq<FlexLine>, minMainSize: real, minCrossSize: real,
                           t: Targets, bounds: seq<Option<Bounds>>)

  /** The lines `calculateFlexLines` produces for the items in their sorted order. */
  function Breaks(cfg: Config, items: seq<FlexItem>, mainSize: real): (r: LineBreak)
    ensures LinesInRange(r.lines, |items|)
  {
    var h := IsHorizontal(cfg.direction);
    var m := MeasureAll(items, h, mainSize);
    var order := SortedItems(items, cfg.direction);
    BreaksInRange(m, order, cfg.wrap, mainSize);
    FlexLines(m, order, cfg.wrap, mainSize)
  }

  lemma BreaksInRange(m: seq<Measured>, order: seq<nat>, wrap: Option<FlexWrap>, mainSize: real)
    requires InRange(order, |m|)
    ensures LinesInRange(FlexLines(m, order, wrap, mainSize).lines, |m|)
  {
    if IsNoWrap(wrap) {
      NoWrapYieldsOneLine(m, order, wrap, mainSize);
    } else {
      WrapPartitionsItems(m, order, wrap, mainSize);
      LinesInRangeReverse(FlexLines(m, order, wrap, mainSize).lines, |m|);
      if IsWrapReverse(wrap) {
        ReverseReverse(FlexLines(m, order, wrap, mainSize).lines);
      }
    }
  }

  lemma LinesInRangeReverse(lines: seq<FlexLine>, n: nat)
    requires LinesInRange(Reverse(lines), n)
    ensures LinesInRange(lines, n)
  {
    forall l | 0 <= l < |lines| ensures InRange(lines[l].flexItems, n) {
      assert Reverse(lines)[|lines| - 1 - l] == lines[l];
    }
  }

  /** `layoutSubViews(mainSize, crossSize)`; `bounds` are the items' bounds before the call. */
  function LayoutSubViews(cfg: Config, items: seq<FlexItem>, mainSize: real, crossSize: real,
                          bounds: seq<Option<Bounds>>): (r: Layout)
    requires |bounds| == |items|
    ensures TargetsFor(r.t, |items|) && |r.bounds| == |items| && LinesInRange(r.lines, |items|)
  {
    var h := IsHorizontal(cfg.direction);
    var order := SortedItems(items, cfg.direction);
    var m := MeasureAll(items, h, mainSize);
    var lb := Breaks(cfg, items, mainSize);
    var t := MeasuredTargets(m, order, ResetTargets(|items|));
    var ac := AlignContentSpec(lb.lines, cfg.alignContent, crossSize);
    var st := LayoutLinesPrefix(items, h, cfg, mainSize, LineState(ac.lines, t), |ac.lines|);
    Layout(order, st.lines, lb.minMainSize, ac.minCrossSize, st.t, ApplyLayout(items, h, st.lines, st.t, bounds))
  }

  // ---------------------------------------------------------------------------
  // The lines partition the items.
  // ---------------------------------------------------------------------------

  /** The two parts of a list without repetitions have none either, and share no element. */
  lemma DistinctConcat(a: seq<nat>, b: seq<nat>)
    requires Distinct(a + b)
    ensures Distinct(a) && Distinct(b)
    ensures forall i, j :: 0 <= i < |a| && 0 <= j < |b| ==> a[i] != b[j]
  {
    forall i, j | 0 <= i < j < |a| ensures a[i] != a[j] {
      assert (a + b)[i] == a[i] && (a + b)[j] == a[j];
    }
    forall i, j | 0 <= i < j < |b| ensures b[i] != b[j] {
      assert (a + b)[|a| + i] == b[i] && (a + b)[|a| + j] == b[j];
    }
    forall i, j | 0 <= i < |a| && 0 <= j < |b| ensures a[i] != b[j] {
      assert (a + b)[i] == a[i] && (a + b)[|a| + j] == b[j];
    }
  }

  /** A member of a line is in the flattened lines. */
  lemma {:induction false} FlattenHas(lines: seq<FlexLine>, l: nat, x: nat)
    requires l < |lines| && x in lines[l].flexItems
    ensures x in Flatten(lines)
  {
    var n := |lines|;
    if l < n - 1 {
      FlattenHas(lines[..n - 1], l, x);
    }
  }

  /** An element of the flattened lines is a member of some line. */
  lemma {:induction false} FlattenCovers(lines: seq<FlexLine>, x: nat)
    requires x in Flatten(lines)
    ensures InSomeLine(lines, x)
  {
    var n := |lines|;
    if x !in lines[n - 1].flexItems {
      FlattenCovers(lines[..n - 1], x);
      var l :| 0 <= l < n - 1 && x in lines[..n - 1][l].flexItems;
      assert lines[..n - 1][l] == lines[l];
    }
  }

  /** Lines whose flattening has no repetition are each without repetition and pairwise disjoint. */
  lemma {:induction false} FlattenPartition(lines: seq<FlexLine>)
    requires Distinct(Flatten(lines))
    ensures LinesDisjoint(lines)
    ensures forall l :: 0 <= l < |lines| ==> Distinct(lines[l].flexItems)
  {
    var n := |lines|;
    if n > 0 {
      var front := lines[..n - 1];
      var a := Flatten(front);
      var b := lines[n - 1].flexItems;
      DistinctConcat(a, b);
      FlattenPartition(front);
      forall l1, l2, x | 0 <= l1 < l2 < n && x in lines[l1].flexItems
        ensures x !in lines[l2].flexItems
      {
        assert front[l1] == lines[l1];
        if l2 == n - 1 {
          FlattenHas(front, l1, x);
        } else {
          assert front[l2] == lines[l2];
        }
      }
      forall l | 0 <= l < n ensures Distinct(lines[l].flexItems) {
        if l < n - 1 {
          assert front[l] == lines[l];
        }
      }
    }
  }

  /** What line breaking promises the rest of the layout. */
  predicate Partitions(m: seq<Measured>, lines: seq<FlexLine>)
    requires LinesInRange(lines, |m|)
  {
    && LinesDisjoint(lines)
    && (forall l :: 0 <= l < |lines| ==> Distinct(lines[l].flexItems) && AggregatesOf(m, lines[l]))
    && (forall i :: 0 <= i < |m| ==> InSomeLine(lines, i))
  }

  lemma PartitionsReverse(m: seq<Measured>, lines: seq<FlexLine>)
    requires LinesInRange(lines, |m|) && Partitions(m, lines)
    ensures LinesInRange(Reverse(lines), |m|) && Partitions(m, Reverse(lines))
  {
    ReverseDisjoint(lines);
    ReverseCovers(lines, |m|);
  }

  lemma ReverseDisjoint(lines: seq<FlexLine>)
    requires LinesDisjoint(lines)
    ensures LinesDisjoint(Reverse(lines))
  {
    var n := |lines|;
    var r := Reverse(lines);
    forall l1, l2, x | 0 <= l1 < l2 < n && x in r[l1].flexItems ensures x !in r[l2].flexItems {
      assert r[l1] == lines[n - 1 - l1] && r[l2] == lines[n - 1 - l2];
    }
  }

  lemma ReverseCovers(lines: seq<FlexLine>, size: nat)
    requires forall i :: 0 <= i < size ==> InSomeLine(lines, i)
    ensures forall i :: 0 <= i < size ==> InSomeLine(Reverse(lines), i)
  {
    var n := |lines|;
    var r := Reverse(lines);
    forall i | 0 <= i < size ensures InSomeLine(r, i) {
      assert InSomeLine(lines, i);
      var l :| 0 <= l < n && i in lines[l].flexItems;
      assert r[n - 1 - l] == lines[l];
    }
  }

  lemma SortedDistinct(items: seq<FlexItem>, direction: Option<FlexDirection>)
    ensures Distinct(SortedItems(items, direction))
    ensures forall i :: 0 <= i < |items| ==> i in SortedItems(items, direction)
  {
    SortedItemsIsPermutation(items, direction);
  }

  lemma NoWrapPartition(m: seq<Measured>, order: seq<nat>, wrap: Option<FlexWrap>, mainSize: real)
    requires InRange(order, |m|) && IsNoWrap(wrap) && Distinct(order)
    requires forall i :: 0 <= i < |m| ==> i in order
    ensures Partitions(m, FlexLines(m, order, wrap, mainSize).lines)
  {
    var lines := FlexLines(m, order, wrap, mainSize).lines;
    NoWrapYieldsOneLine(m, order, wrap, mainSize);
    forall i | 0 <= i < |m| ensures InSomeLine(lines, i) {
      assert i in lines[0].flexItems;
    }
  }

  /** The lines in breaking order, before WRAP_REVERSE reverses them. */
  function Broken(m: seq<Measured>, order: seq<nat>, wrap: Option<FlexWrap>, mainSize: real): seq<FlexLine>
    requires InRange(order, |m|)
  {
    var lines := FlexLines(m, order, wrap, mainSize).lines;
    if IsWrapReverse(wrap) then Reverse(lines) else lines
  }

  lemma BrokenFacts(m: seq<Measured>, order: seq<nat>, wrap: Option<FlexWrap>, mainSize: real)
    requires InRange(order, |m|) && !IsNoWrap(wrap)
    ensures var broken := Broken(m, order, wrap, mainSize);
      LinesInRange(broken, |m|) && Flatten(broken) == order &&
      forall l :: 0 <= l < |broken| ==> AggregatesOf(m, broken[l])
  {
    WrapPartitionsItems(m, order, wrap, mainSize);
  }

  lemma BrokenPartition(m: seq<Measured>, order: seq<nat>, wrap: Option<FlexWrap>, mainSize: real)
    requires InRange(order, |m|) && !IsNoWrap(wrap) && Distinct(order)
    requires forall i :: 0 <= i < |m| ==> i in order
    ensures LinesInRange(Broken(m, order, wrap, mainSize), |m|) && Partitions(m, Broken(m, order, wrap, mainSize))
  {
    var broken := Broken(m, order, wrap, mainSize);
    BrokenFacts(m, order, wrap, mainSize);
    FlattenPartition(broken);
    forall i | 0 <= i < |m| ensures InSomeLine(broken, i) {
      FlattenCovers(broken, i);
    }
  }

  lemma WrapPartition(m: seq<Measured>, order: seq<nat>, wrap: Option<FlexWrap>, mainSize: real)
    requires InRange(order, |m|) && !IsNoWrap(wrap) && Distinct(order)
    requires forall i :: 0 <= i < |m| ==> i in order
    ensures LinesInRange(FlexLines(m, order, wrap, mainSize).lines, |m|)
    ensures Partitions(m, FlexLines(m, order, wrap, mainSize).lines)
  {
    BreaksInRange(m, order, wrap, mainSize);
    BrokenPartition(m, order, wrap, mainSize);
    if IsWrapReverse(wrap) {
      var lines := FlexLines(m, order, wrap, mainSize).lines;
      PartitionsReverse(m, Reverse(lines));
      ReverseReverse(lines);
    }
  }

  /** The lines of every wrap mode partition the items, and keep their members' aggregates. */
  lemma BreaksPartition(cfg: Config, items: seq<FlexItem>, mainSize: real)
    ensures Partitions(MeasureAll(items, IsHorizontal(cfg.direction), mainSize), Breaks(cfg, items, mainSize).lines)
  {
    var m := MeasureAll(items, IsHorizontal(cfg.direction), mainSize);
    var order := SortedItems(items, cfg.direction);
    SortedDistinct(items, cfg.direction);
    if IsNoWrap(cfg.wrap) {
      NoWrapPartition(m, order, cfg.wrap, mainSize);
    } else {
      WrapPartition(m, order, cfg.wrap, mainSize);
    }
  }

  // ---------------------------------------------------------------------------
  // Laying out one line touches only that line and its members.
  // ---------------------------------------------------------------------------

  /** Sizes that agree on the members give the same sum. */
  lemma {:induction false} SumAtFrame(mts: seq<real>, mts': seq<real>, s: seq<nat>)
    requires InRange(s, |mts|) && |mts'| == |mts|
    requires forall j :: 0 <= j < |s| ==> mts'[s[j]] == mts[s[j]]
    ensures SumAt(mts', s) == SumAt(mts, s)
  {
    if |s| > 0 {
      SumAtFrame(mts, mts', s[..|s| - 1]);
    }
  }

  /** Sizes that are the hypothetical main sizes add up to what line breaking added up. */
  lemma {:induction false} SumAtMain(mts: seq<real>, m: seq<Measured>, s: seq<nat>)
    requires InRange(s, |mts|) && |m| == |mts|
    requires forall j :: 0 <= j < |s| ==> mts[s[j]] == m[s[j]].main
    ensures SumAt(mts, s) == SumMain(m, s)
  {
    if |s| > 0 {
      SumAtMain(mts, m, s[..|s| - 1]);
    }
  }

  /**
   * The grow total of line breaking, which skips the default factor 0, equals the sum of
   * all the members' grow factors that distribution starts from.
   */
  lemma {:induction false} SumGrowFactors(items: seq<FlexItem>, horizontal: bool, mainSize: real, s: seq<nat>)
    requires InRange(s, |items|)
    ensures SumGrow(MeasureAll(items, horizontal, mainSize), s) == SumUnfrozen(items, Grow, s, {})
  {
    if |s| > 0 {
      SumGrowFactors(items, horizontal, mainSize, s[..|s| - 1]);
    }
  }

  /** A step changes its own line's main size and its members' targets, and nothing else. */
  lemma StepFrame(items: seq<FlexItem>, horizontal: bool, cfg: Config, mainSize: real, st: LineState, k: nat)
    requires k < |st.lines| && LineStateFor(st, |items|) && Distinct(st.lines[k].flexItems)
    ensures var r := LayoutLineAt(items, horizontal, cfg, mainSize, st, k);
      && (forall l :: 0 <= l < |st.lines| && l != k ==> r.lines[l] == st.lines[l])
      && r.lines[k] == st.lines[k].(minMainSize := r.lines[k].minMainSize)
      && (forall x :: 0 <= x < |items| && x !in st.lines[k].flexItems ==>
            r.t.mts[x] == st.t.mts[x] && r.t.cts[x] == st.t.cts[x] &&
            r.t.msp[x] == st.t.msp[x] && r.t.csp[x] == st.t.csp[x])
  {
    var line := st.lines[k];
    var d := Distribute(items, horizontal, line, st.t.mts, mainSize);
    var line' := line.(minMainSize := d.lineMain);
    forall x | 0 <= x < |items| && x !in line.flexItems
      ensures d.mts[x] == st.t.mts[x]
      ensures Justify(items, horizontal, cfg.justify, line', d.mts, st.t.msp, mainSize)[x] == st.t.msp[x]
    {
      DistributeFrame(items, horizontal, line, st.t.mts, mainSize, x);
      JustifyFrame(items, horizontal, cfg.justify, line', d.mts, st.t.msp, mainSize, x);
    }
    AlignLineEach(items, horizontal, cfg.alignItems, line', CrossState(st.t.csp, st.t.cts));
  }

  /** A step keeps its line's main size equal to the sum of its members' main sizes. */
  lemma StepBalance(items: seq<FlexItem>, horizontal: bool, cfg: Config, mainSize: real, st: LineState, k: nat)
    requires k < |st.lines| && LineStateFor(st, |items|) && Distinct(st.lines[k].flexItems)
    requires SizesAddUp(st.t.mts, st.lines[k])
    ensures var r := LayoutLineAt(items, horizontal, cfg, mainSize, st, k);
      SizesAddUp(r.t.mts, r.lines[k])
  {
    DistributeBalance(items, horizontal, st.lines[k], st.t.mts, mainSize);
  }

  /** The lines keep their members, so they stay disjoint and without repetition. */
  predicate Separate(lines: seq<FlexLine>) {
    LinesDisjoint(lines) && forall l :: 0 <= l < |lines| ==> Distinct(lines[l].flexItems)
  }

  predicate AllSizesAddUp(st: LineState)
    requires forall l :: 0 <= l < |st.lines| ==> InRange(st.lines[l].flexItems, |st.t.mts|)
  {
    forall l :: 0 <= l < |st.lines| ==> SizesAddUp(st.t.mts, st.lines[l])
  }

  lemma SameMembersSeparate(a: seq<FlexLine>, b: seq<FlexLine>)
    requires |a| == |b| && Separate(a)
    requires forall l :: 0 <= l < |a| ==> b[l].flexItems == a[l].flexItems
    ensures Separate(b)
  {
  }

  lemma StepSizes(items: seq<FlexItem>, horizontal: bool, cfg: Config, mainSize: real, st: LineState, r: LineState, k: nat)
    requires k < |st.lines| && LineStateFor(st, |items|) && Separate(st.lines) && AllSizesAddUp(st)
    requires r == LayoutLineAt(items, horizontal, cfg, mainSize, st, k)
    ensures AllSizesAddUp(r)
  {
    StepFrame(items, horizontal, cfg, mainSize, st, k);
    StepBalance(items, horizontal, cfg, mainSize, st, k);
    forall l | 0 <= l < |st.lines| && l != k ensures SizesAddUp(r.t.mts, r.lines[l]) {
      var s := st.lines[l].flexItems;
      SumAtFrame(st.t.mts, r.t.mts, s);
    }
  }

  /** Every line's main size stays the sum of its members' main sizes through `layoutFlexLines`. */
  lemma {:induction false} LayoutLinesSizes(items: seq<FlexItem>, horizontal: bool, cfg: Config, mainSize: real, st: LineState, k: nat)
    requires k <= |st.lines| && LineStateFor(st, |items|) && Separate(st.lines) && AllSizesAddUp(st)
    ensures AllSizesAddUp(LayoutLinesPrefix(items, horizontal, cfg, mainSize, st, k))
  {
    if k > 0 {
      var q := LayoutLinesPrefix(items, horizontal, cfg, mainSize, st, k - 1);
      LayoutLinesSizes(items, horizontal, cfg, mainSize, st, k - 1);
      SameMembersSeparate(st.lines, q.lines);
      LayoutLinesPrefixStep(items, horizontal, cfg, mainSize, st, k);
      StepSizes(items, horizontal, cfg, mainSize, q, LayoutLinesPrefix(items, horizontal, cfg, mainSize, st, k), k - 1);
    }
  }

  // ---------------------------------------------------------------------------
  // What layoutSubViews leaves behind.
  // ---------------------------------------------------------------------------

  /** align-content moves and (under STRETCH) thickens the lines, and keeps everything else. */
  lemma ContentKeepsLines(lines: seq<FlexLine>, mode: AlignContent, crossSize: real)
    ensures var r := AlignContentSpec(lines, mode, crossSize).lines;
      |r| == |lines| &&
      forall l :: 0 <= l < |lines| ==>
        r[l].flexItems == lines[l].flexItems && r[l].minMainSize == lines[l].minMainSize &&
        r[l].grow == lines[l].grow && r[l].shrink == lines[l].shrink
  {
  }

  /** The state `layoutFlexLines` starts from. */
  function StartState(cfg: Config, items: seq<FlexItem>, mainSize: real, crossSize: real): (st: LineState)
    ensures LineStateFor(st, |items|)
  {
    var h := IsHorizontal(cfg.direction);
    var m := MeasureAll(items, h, mainSize);
    var t := MeasuredTargets(m, SortedItems(items, cfg.direction), ResetTargets(|items|));
    LineState(AlignContentSpec(Breaks(cfg, items, mainSize).lines, cfg.alignContent, crossSize).lines, t)
  }

  lemma StartStateFacts(cfg: Config, items: seq<FlexItem>, mainSize: real, crossSize: real)
    ensures var st := StartState(cfg, items, mainSize, crossSize);
      var m := MeasureAll(items, IsHorizontal(cfg.direction), mainSize);
      && Separate(st.lines) && AllSizesAddUp(st)
      && (forall i :: 0 <= i < |items| ==> InSomeLine(st.lines, i))
      && (forall i :: 0 <= i < |items| ==> st.t.mts[i] == m[i].main)
  {
    var h := IsHorizontal(cfg.direction);
    var m := MeasureAll(items, h, mainSize);
    var lb := Breaks(cfg, items, mainSize);
    var st := StartState(cfg, items, mainSize, crossSize);
    BreaksPartition(cfg, items, mainSize);
    SortedDistinct(items, cfg.direction);
    ContentKeepsLines(lb.lines, cfg.alignContent, crossSize);
    assert forall i :: 0 <= i < |items| ==> st.t.mts[i] == m[i].main;
    SameMembersFacts(m, lb.lines, st.lines, st.t.mts);
  }

  /** Lines with the members and main sizes of a partition, against targets that are the measured sizes. */
  lemma SameMembersFacts(m: seq<Measured>, a: seq<FlexLine>, b: seq<FlexLine>, mts: seq<real>)
    requires LinesInRange(a, |m|) && Partitions(m, a) && |b| == |a| && |mts| == |m|
    requires forall l :: 0 <= l < |a| ==> b[l].flexItems == a[l].flexItems && b[l].minMainSize == a[l].minMainSize
    requires forall i :: 0 <= i < |m| ==> mts[i] == m[i].main
    ensures Separate(b)
    ensures forall l :: 0 <= l < |b| ==> InRange(b[l].flexItems, |mts|) && SizesAddUp(mts, b[l])
    ensures forall i :: 0 <= i < |m| ==> InSomeLine(b, i)
  {
    SameMembersSeparate(a, b);
    forall l | 0 <= l < |b| ensures SizesAddUp(mts, b[l]) {
      SumAtMain(mts, m, b[l].flexItems);
    }
    forall i | 0 <= i < |m| ensures InSomeLine(b, i) {
      assert InSomeLine(a, i);
      var l :| 0 <= l < |a| && i in a[l].flexItems;
      assert i in b[l].flexItems;
    }
  }

  lemma LayoutIsStartState(cfg: Config, items: seq<FlexItem>, mainSize: real, crossSize: real, bounds: seq<Option<Bounds>>)
    requires |bounds| == |items|
    ensures var st := StartState(cfg, items, mainSize, crossSize);
      var fin := LayoutLinesPrefix(items, IsHorizontal(cfg.direction), cfg, mainSize, st, |st.lines|);
      var r := LayoutSubViews(cfg, items, mainSize, crossSize, bounds);
      var lb := Breaks(cfg, items, mainSize);
      && r.order == SortedItems(items, cfg.direction)
      && r.minMainSize == lb.minMainSize
      && r.minCrossSize == AlignContentSpec(lb.lines, cfg.alignContent, crossSize).minCrossSize
      && r.lines == fin.lines && r.t == fin.t
      && r.bounds == ApplyLayout(items, IsHorizontal(cfg.direction), fin.lines, fin.t, bounds)
  {
  }

  /** After layoutSubViews, every line's main size is the sum of its members' main target sizes. */
  lemma LayoutLineSizesAddUp(cfg: Config, items: seq<FlexItem>, mainSize: real, crossSize: real, bounds: seq<Option<Bounds>>)
    requires |bounds| == |items|
    ensures var r := LayoutSubViews(cfg, items, mainSize, crossSize, bounds);
      forall l :: 0 <= l < |r.lines| ==> r.lines[l].minMainSize == SumAt(r.t.mts, r.lines[l].flexItems)
  {
    var st := StartState(cfg, items, mainSize, crossSize);
    StartStateFacts(cfg, items, mainSize, crossSize);
    LayoutLinesSizes(items, IsHorizontal(cfg.direction), cfg, mainSize, st, |st.lines|);
    LayoutIsStartState(cfg, items, mainSize, crossSize, bounds);
  }

  lemma SameMembersCover(a: seq<FlexLine>, b: seq<FlexLine>, n: nat)
    requires |a| == |b| && forall l :: 0 <= l < |a| ==> b[l].flexItems == a[l].flexItems
    requires forall i :: 0 <= i < n ==> InSomeLine(a, i)
    ensures forall i :: 0 <= i < n ==> InSomeLine(b, i)
  {
    forall i | 0 <= i < n ensures InSomeLine(b, i) {
      assert InSomeLine(a, i);
      var l :| 0 <= l < |a| && i in a[l].flexItems;
      assert i in b[l].flexItems;
    }
  }

  /** Item `i` has the bounds computed from a line that holds it. */
  predicate PlacedBy(items: seq<FlexItem>, horizontal: bool, lines: seq<FlexLine>, t: Targets, bounds: seq<Option<Bounds>>, i: nat)
    requires TargetsFor(t, |items|) && |bounds| == |items| && i < |items|
  {
    exists l :: 0 <= l < |lines| && i in lines[l].flexItems &&
      bounds[i] == Some(ItemBounds(items[i], horizontal, lines[l].crossStartPos, t, i))
  }

  /** When every item is in exactly one line, applyLayout gives each item the bounds from its line. */
  lemma ApplyLayoutCovers(items: seq<FlexItem>, horizontal: bool, lines: seq<FlexLine>, t: Targets, bounds: seq<Option<Bounds>>)
    requires LinesInRange(lines, |items|) && TargetsFor(t, |items|) && |bounds| == |items| && LinesDisjoint(lines)
    requires forall i :: 0 <= i < |items| ==> InSomeLine(lines, i)
    ensures forall i :: 0 <= i < |items| ==> PlacedBy(items, horizontal, lines, t, ApplyLayout(items, horizontal, lines, t, bounds), i)
  {
    ApplyLayoutEach(items, horizontal, lines, t, bounds);
    forall i | 0 <= i < |items|
      ensures PlacedBy(items, horizontal, lines, t, ApplyLayout(items, horizontal, lines, t, bounds), i)
    {
      assert InSomeLine(lines, i);
      var l :| 0 <= l < |lines| && i in lines[l].flexItems;
      assert i in lines[l].flexItems;
    }
  }

  /** ... and the bounds it started from play no part. */
  lemma ApplyLayoutOverwrites(items: seq<FlexItem>, horizontal: bool, lines: seq<FlexLine>, t: Targets,
                              b1: seq<Option<Bounds>>, b2: seq<Option<Bounds>>)
    requires LinesInRange(lines, |items|) && TargetsFor(t, |items|) && |b1| == |items| && |b2| == |items| && LinesDisjoint(lines)
    requires forall i :: 0 <= i < |items| ==> InSomeLine(lines, i)
    ensures ApplyLayout(items, horizontal, lines, t, b1) == ApplyLayout(items, horizontal, lines, t, b2)
  {
    ApplyLayoutEach(items, horizontal, lines, t, b1);
    ApplyLayoutEach(items, horizontal, lines, t, b2);
    forall i | 0 <= i < |items|
      ensures ApplyLayout(items, horizontal, lines, t, b1)[i] == ApplyLayout(items, horizontal, lines, t, b2)[i]
    {
      assert InSomeLine(lines, i);
      var l :| 0 <= l < |lines| && i in lines[l].flexItems;
      assert i in lines[l].flexItems;
    }
  }

  /** The final lines are disjoint and every item is in one of them. */
  lemma FinalLines(cfg: Config, items: seq<FlexItem>, mainSize: real, crossSize: real)
    ensures var st := StartState(cfg, items, mainSize, crossSize);
      var fin := LayoutLinesPrefix(items, IsHorizontal(cfg.direction), cfg, mainSize, st, |st.lines|);
      LinesDisjoint(fin.lines) && forall i :: 0 <= i < |items| ==> InSomeLine(fin.lines, i)
  {
    var st := StartState(cfg, items, mainSize, crossSize);
    var fin := LayoutLinesPrefix(items, IsHorizontal(cfg.direction), cfg, mainSize, st, |st.lines|);
    StartStateFacts(cfg, items, mainSize, crossSize);
    SameMembersSeparate(st.lines, fin.lines);
    SameMembersCover(st.lines, fin.lines, |items|);
  }

  /**
   * After layoutSubViews every added item has bounds, and they are the ones computed from
   * the line that holds it and its own final targets.
   */
  lemma LayoutPlacesEveryItem(cfg: Config, items: seq<FlexItem>, mainSize: real, crossSize: real, bounds: seq<Option<Bounds>>)
    requires |bounds| == |items|
    ensures var r := LayoutSubViews(cfg, items, mainSize, crossSize, bounds);
      forall i :: 0 <= i < |items| ==> PlacedBy(items, IsHorizontal(cfg.direction), r.lines, r.t, r.bounds, i)
  {
    var r := LayoutSubViews(cfg, items, mainSize, crossSize, bounds);
    LayoutIsStartState(cfg, items, mainSize, crossSize, bounds);
    FinalLines(cfg, items, mainSize, crossSize);
    ApplyLayoutCovers(items, IsHorizontal(cfg.direction), r.lines, r.t, bounds);
  }

  /** The bounds the items had before layoutSubViews do not affect anything it computes. */
  lemma LayoutForgetsOldBounds(cfg: Config, items: seq<FlexItem>, mainSize: real, crossSize: real,
                               b1: seq<Option<Bounds>>, b2: seq<Option<Bounds>>)
    requires |b1| == |items| && |b2| == |items|
    ensures LayoutSubViews(cfg, items, mainSize, crossSize, b1) == LayoutSubViews(cfg, items, mainSize, crossSize, b2)
  {
    var r := LayoutSubViews(cfg, items, mainSize, crossSize, b1);
    LayoutIsStartState(cfg, items, mainSize, crossSize, b1);
    LayoutIsStartState(cfg, items, mainSize, crossSize, b2);
    FinalLines(cfg, items, mainSize, crossSize);
    ApplyLayoutOverwrites(items, IsHorizontal(cfg.direction), r.lines, r.t, b1, b2);
  }

  // ---------------------------------------------------------------------------
  // Growing lines fill the container.
  // ---------------------------------------------------------------------------

  /**
   * What the grow rounds promise for a line that had free space and a positive grow total
   * when line breaking closed it (`line0`): its growing members stay within their maximum,
   * and the line (`line`, with the sizes `mts`) fills `mainSize` unless every growing member
   * is at its maximum.
   */
  predicate GrowOutcome(items: seq<FlexItem>, horizontal: bool, mainSize: real, line0: FlexLine, line: FlexLine, mts: seq<real>)
    requires InRange(line0.flexItems, |items|) && |mts| == |items|
  {
    var s := line0.flexItems;
    mainSize > line0.minMainSize && line0.grow > 0.0 ==>
      WithinMax(items, horizontal, s, mts) &&
      (line.minMainSize == mainSize ||
       forall j :: 0 <= j < |s| && items[s[j]].flexGrow > 0.0 ==> mts[s[j]] == MainMax(items[s[j]], horizontal))
  }

  lemma GrowOutcomeFrame(items: seq<FlexItem>, horizontal: bool, mainSize: real, line0: FlexLine, line: FlexLine,
                         mts: seq<real>, mts': seq<real>)
    requires InRange(line0.flexItems, |items|) && |mts| == |items| && |mts'| == |items|
    requires forall x :: x in line0.flexItems ==> mts'[x] == mts[x]
    requires GrowOutcome(items, horizontal, mainSize, line0, line, mts)
    ensures GrowOutcome(items, horizontal, mainSize, line0, line, mts')
  {
  }

  /** The line breaker's grow totals are the sums distribution needs. */
  predicate GrowTotals(items: seq<FlexItem>, lines: seq<FlexLine>)
    requires LinesInRange(lines, |items|)
  {
    forall l :: 0 <= l < |lines| ==> lines[l].grow == SumUnfrozen(items, Grow, lines[l].flexItems, {})
  }

  lemma StartStateGrow(cfg: Config, items: seq<FlexItem>, mainSize: real, crossSize: real)
    ensures var st := StartState(cfg, items, mainSize, crossSize);
      var b := Breaks(cfg, items, mainSize).lines;
      && GrowTotals(items, st.lines) && |st.lines| == |b|
      && (forall l :: 0 <= l < |b| ==> (st.lines[l].flexItems == b[l].flexItems &&
            st.lines[l].minMainSize == b[l].minMainSize && st.lines[l].grow == b[l].grow))
  {
    var st := StartState(cfg, items, mainSize, crossSize);
    var b := Breaks(cfg, items, mainSize).lines;
    BreaksPartition(cfg, items, mainSize);
    ContentKeepsLines(b, cfg.alignContent, crossSize);
    forall l | 0 <= l < |st.lines| ensures st.lines[l].grow == SumUnfrozen(items, Grow, st.lines[l].flexItems, {}) {
      SumGrowFactors(items, IsHorizontal(cfg.direction), mainSize, b[l].flexItems);
    }
  }

  /** The grow outcome of the line laid out by a step. */
  lemma StepGrow(items: seq<FlexItem>, horizontal: bool, cfg: Config, mainSize: real, st: LineState, k: nat)
    requires k < |st.lines| && LineStateFor(st, |items|) && Distinct(st.lines[k].flexItems)
    requires NonnegGrow(items, st.lines[k].flexItems)
    requires st.lines[k].grow == SumUnfrozen(items, Grow, st.lines[k].flexItems, {})
    ensures var r := LayoutLineAt(items, horizontal, cfg, mainSize, st, k);
      GrowOutcome(items, horizontal, mainSize, st.lines[k], r.lines[k], r.t.mts)
  {
    var line := st.lines[k];
    if mainSize > line.minMainSize && line.grow > 0.0 {
      DistributeGrow(items, horizontal, line, st.t.mts, mainSize);
    }
  }

  /** The loop invariant of the grow outcomes, after `k` lines of `st0` were laid out into `st`. */
  predicate GrowInvariant(items: seq<FlexItem>, horizontal: bool, mainSize: real, st0: LineState, st: LineState, k: nat)
    requires LineStateFor(st0, |items|) && LineStateFor(st, |items|) && |st.lines| == |st0.lines| && k <= |st0.lines|
  {
    && (forall l :: k <= l < |st0.lines| ==> st.lines[l] == st0.lines[l])
    && (forall l :: 0 <= l < k ==> GrowOutcome(items, horizontal, mainSize, st0.lines[l], st.lines[l], st.t.mts))
  }

  lemma GrowInvariantStep(items: seq<FlexItem>, horizontal: bool, cfg: Config, mainSize: real, st0: LineState, q: LineState,
                          r: LineState, k: nat)
    requires k < |st0.lines| && LineStateFor(st0, |items|) && LineStateFor(q, |items|) && |q.lines| == |st0.lines|
    requires Separate(st0.lines) && GrowTotals(items, st0.lines)
    requires forall l :: 0 <= l < |st0.lines| ==> q.lines[l].flexItems == st0.lines[l].flexItems
    requires forall i :: 0 <= i < |items| ==> items[i].flexGrow >= 0.0
    requires GrowInvariant(items, horizontal, mainSize, st0, q, k)
    requires r == LayoutLineAt(items, horizontal, cfg, mainSize, q, k)
    ensures GrowInvariant(items, horizontal, mainSize, st0, r, k + 1)
  {
    StepFrame(items, horizontal, cfg, mainSize, q, k);
    StepGrow(items, horizontal, cfg, mainSize, q, k);
    forall l | 0 <= l < k ensures GrowOutcome(items, horizontal, mainSize, st0.lines[l], r.lines[l], r.t.mts) {
      GrowOutcomeFrame(items, horizontal, mainSize, st0.lines[l], q.lines[l], q.t.mts, r.t.mts);
    }
  }

  /** Through `layoutFlexLines` each laid-out line keeps its grow outcome. */
  lemma {:induction false} LayoutLinesGrow(items: seq<FlexItem>, horizontal: bool, cfg: Config, mainSize: real, st: LineState, k: nat)
    requires k <= |st.lines| && LineStateFor(st, |items|) && Separate(st.lines) && GrowTotals(items, st.lines)
    requires forall i :: 0 <= i < |items| ==> items[i].flexGrow >= 0.0
    ensures GrowInvariant(items, horizontal, mainSize, st, LayoutLinesPrefix(items, horizontal, cfg, mainSize, st, k), k)
  {
    if k > 0 {
      LayoutLinesGrow(items, horizontal, cfg, mainSize, st, k - 1);
      GrowPrefixStep(items, horizontal, cfg, mainSize, st, k);
    }
  }

  lemma GrowPrefixStep(items: seq<FlexItem>, horizontal: bool, cfg: Config, mainSize: real, st: LineState, k: nat)
    requires 0 < k <= |st.lines| && LineStateFor(st, |items|) && Separate(st.lines) && GrowTotals(items, st.lines)
    requires forall i :: 0 <= i < |items| ==> items[i].flexGrow >= 0.0
    requires GrowInvariant(items, horizontal, mainSize, st, LayoutLinesPrefix(items, horizontal, cfg, mainSize, st, k - 1), k - 1)
    ensures GrowInvariant(items, horizontal, mainSize, st, LayoutLinesPrefix(items, horizontal, cfg, mainSize, st, k), k)
  {
    LayoutLinesPrefixStep(items, horizontal, cfg, mainSize, st, k);
    GrowInvariantStep(items, horizontal, cfg, mainSize, st, LayoutLinesPrefix(items, horizontal, cfg, mainSize, st, k - 1),
                      LayoutLinesPrefix(items, horizontal, cfg, mainSize, st, k), k - 1);
  }

  /**
   * After layoutSubViews, with no negative grow factor: every line that had free space and a
   * positive grow total after line breaking ends exactly `mainSize` long, unless all its growing
   * items reached their maximum; and no growing item exceeds its maximum.
   */
  lemma LayoutGrowFillsLines(cfg: Config, items: seq<FlexItem>, mainSize: real, crossSize: real, bounds: seq<Option<Bounds>>)
    requires |bounds| == |items|
    requires forall i :: 0 <= i < |items| ==> items[i].flexGrow >= 0.0
    ensures var b := Breaks(cfg, items, mainSize).lines;
      var r := LayoutSubViews(cfg, items, mainSize, crossSize, bounds);
      |r.lines| == |b| &&
      forall l :: 0 <= l < |b| ==> GrowOutcome(items, IsHorizontal(cfg.direction), mainSize, b[l], r.lines[l], r.t.mts)
  {
    var st := StartState(cfg, items, mainSize, crossSize);
    StartStateFacts(cfg, items, mainSize, crossSize);
    StartStateGrow(cfg, items, mainSize, crossSize);
    LayoutLinesGrow(items, IsHorizontal(cfg.direction), cfg, mainSize, st, |st.lines|);
    LayoutIsStartState(cfg, items, mainSize, crossSize, bounds);
  }
}

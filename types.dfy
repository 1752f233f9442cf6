// Value types of the flexbox engine: configuration enums, the item
// inputs with their defaults, flex lines, bounds, and the pure per-item
// helpers (margin selectors, hypothetical sizes) the layout pass uses.
module FlexTypes {

  datatype Option<T> = None | Some(value: T)

  datatype FlexDirection = Row | RowReverse | Column | ColumnReverse

  datatype FlexWrap = NoWrap | Wrap | WrapReverse

  datatype JustifyContent = FlexStart | FlexEnd | Center | SpaceBetween | SpaceAround

  datatype AlignItems = FlexStart | FlexEnd | Center | Baseline | Stretch

  datatype AlignContent = FlexStart | FlexEnd | Center | SpaceBetween | SpaceAround | Stretch

  datatype AlignSelf = FlexStart | FlexEnd | Center | Baseline | Stretch | Auto

  /** The exact value of Java's Double.MAX_VALUE, the default maximum width and height. */
  const DoubleMaxValue: real :=
    179769313486231570814527423731704356798070567525844996598917476803157260780028538760589558632766878171540458953514382464234321326889464182768467546703537516986049910576551282076245490090389328944075868508455133942304583236903222948165808559332123348274797826204144723168738177180919299881250404026184124858368.0

  /** The exact value of Java's Double.MIN_VALUE, 2 to the power -1074, the layout's initial minimum sizes. */
  const DoubleMinValue: real :=
    1.0 / 202402253307310618352495346718917307049556649764142118356901358027430339567995346891960383701437124495187077864316811911389808737385793476867013399940738509921517424276566361364466907742093216341239767678472745068562007483424692698618103355649159556340810056512358769552333414615230502532186327508646006263307707741093494784.0

  const FlexGrowDefault: real := 0.0
  const FlexShrinkDefault: real := 1.0
  const FlexBasisPercentDefault: real := -1.0

  /** The read-only inputs of one flex item. Negative width/height mean "auto". */
  datatype FlexItem = FlexItem(
    wrapBefore: bool,
    width: real, height: real,
    minWidth: real, minHeight: real,
    maxWidth: real, maxHeight: real,
    marginLeft: real, marginTop: real, marginRight: real, marginBottom: real,
    flexGrow: real, flexShrink: real, flexBasisPercent: real,
    order: int,
    alignSelf: AlignSelf)

  /** An item built with no explicit settings. */
  const DefaultFlexItem: FlexItem := FlexItem(
    false,
    -1.0, -1.0,
    -1.0, -1.0,
    DoubleMaxValue, DoubleMaxValue,
    0.0, 0.0, 0.0, 0.0,
    FlexGrowDefault, FlexShrinkDefault, FlexBasisPercentDefault,
    0,
    AlignSelf.Auto)

  /** The rectangle handed to an item at the end of a pass. */
  datatype Bounds = Bounds(x: real, y: real, w: real, h: real)

  /** A flex line: the positions (into the item list) of its members and its aggregates. */
  datatype FlexLine = FlexLine(
    flexItems: seq<nat>,
    minMainSize: real,
    minCrossSize: real,
    grow: real,
    shrink: real,
    crossStartPos: real)

  const EmptyLine: FlexLine := FlexLine([], 0.0, 0.0, 0.0, 0.0, 0.0)

  /** True when the direction lays items out in a row; an unset direction is vertical. */
  predicate IsHorizontal(direction: Option<FlexDirection>) {
    direction == Some(FlexDirection.Row) || direction == Some(FlexDirection.RowReverse)
  }

  /** True when the ordered items are reversed before line breaking. */
  predicate IsDescending(direction: Option<FlexDirection>) {
    direction == Some(FlexDirection.RowReverse) || direction == Some(FlexDirection.ColumnReverse)
  }

  predicate IsSelfAligned(item: FlexItem) {
    item.alignSelf != AlignSelf.Auto
  }

  function MainMarginStart(item: FlexItem, horizontal: bool): real {
    if horizontal then item.marginLeft else item.marginTop
  }

  function MainMarginEnd(item: FlexItem, horizontal: bool): real {
    if horizontal then item.marginRight else item.marginBottom
  }

  function CrossMarginStart(item: FlexItem, horizontal: bool): real {
    if horizontal then item.marginTop else item.marginLeft
  }

  function CrossMarginEnd(item: FlexItem, horizontal: bool): real {
    if horizontal then item.marginBottom else item.marginRight
  }

  /** The main-axis limits the grow and shrink loops clamp to. */
  function MainMax(item: FlexItem, horizontal: bool): real {
    if horizontal then item.maxWidth else item.maxHeight
  }

  function MainMin(item: FlexItem, horizontal: bool): real {
    if horizontal then item.minWidth else item.minHeight
  }

  function Min(a: real, b: real): real { if a <= b then a else b }

  function Max(a: real, b: real): real { if a >= b then a else b }

  /** Margin-inclusive hypothetical width; the basis percentage is taken of `mainSize`. */
  function HypotheticalMainWidth(item: FlexItem, mainSize: real): real {
    var basis := Min(mainSize * item.flexBasisPercent / 100.0, item.maxWidth);
    var margin := item.marginLeft + item.marginRight;
    if item.width >= 0.0 then margin + item.width else margin + Max(item.minWidth, basis)
  }

  function HypotheticalMainHeight(item: FlexItem, mainSize: real): real {
    var basis := Min(mainSize * item.flexBasisPercent / 100.0, item.maxHeight);
    var margin := item.marginTop + item.marginBottom;
    if item.height >= 0.0 then margin + item.height else margin + Max(item.minHeight, basis)
  }

  /** Hypothetical size along the main axis. */
  function HypotheticalMainSize(item: FlexItem, horizontal: bool, mainSize: real): real {
    if horizontal then HypotheticalMainWidth(item, mainSize) else HypotheticalMainHeight(item, mainSize)
  }

  /** Hypothetical size along the cross axis: the same helpers, still fed with `mainSize`. */
  function HypotheticalCrossSize(item: FlexItem, horizontal: bool, mainSize: real): real {
    if horizontal then HypotheticalMainHeight(item, mainSize) else HypotheticalMainWidth(item, mainSize)
  }

  /** An explicit width wins; otherwise the width is the basis clamped by max, then raised to min. */
  lemma HypotheticalWidthBounds(item: FlexItem, mainSize: real)
    ensures item.width >= 0.0 ==>
      HypotheticalMainWidth(item, mainSize) == item.marginLeft + item.marginRight + item.width
    ensures item.width < 0.0 ==>
      item.marginLeft + item.marginRight + item.minWidth <= HypotheticalMainWidth(item, mainSize)
      <= item.marginLeft + item.marginRight + Max(item.minWidth, item.maxWidth)
    ensures item.width < 0.0 && item.minWidth <= mainSize * item.flexBasisPercent / 100.0 <= item.maxWidth ==>
      HypotheticalMainWidth(item, mainSize) == item.marginLeft + item.marginRight + mainSize * item.flexBasisPercent / 100.0
  {
  }

  /** The same for the height, which a column's main axis and a row's cross axis use. */
  lemma HypotheticalHeightBounds(item: FlexItem, mainSize: real)
    ensures item.height >= 0.0 ==>
      HypotheticalMainHeight(item, mainSize) == item.marginTop + item.marginBottom + item.height
    ensures item.height < 0.0 ==>
      item.marginTop + item.marginBottom + item.minHeight <= HypotheticalMainHeight(item, mainSize)
      <= item.marginTop + item.marginBottom + Max(item.minHeight, item.maxHeight)
    ensures item.height < 0.0 && item.minHeight <= mainSize * item.flexBasisPercent / 100.0 <= item.maxHeight ==>
      HypotheticalMainHeight(item, mainSize) == item.marginTop + item.marginBottom + mainSize * item.flexBasisPercent / 100.0
  {
  }

  /** With every setting at its default the hypothetical size is negative: -mainSize/100 floored at -1. */
  lemma DefaultHypotheticalSizeNegative(mainSize: real, horizontal: bool)
    requires mainSize > 0.0
    ensures HypotheticalMainSize(DefaultFlexItem, horizontal, mainSize) < 0.0
    ensures HypotheticalMainSize(DefaultFlexItem, horizontal, mainSize) == Max(-1.0, -mainSize / 100.0)
  {
  }
}

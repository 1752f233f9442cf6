// Distribution of a line's free main-axis space: the grow passes that
// hand out positive free space in proportion to `flexGrow` and freeze
// items at their maximum, and the shrink pass that takes away negative
// free space in proportion to `flexShrink` and freezes items at their
// minimum. Sizes are the margin-inclusive main target sizes, one per
// item position.
module MainSpace {
  import opened FlexTypes
  import opened Positions
  import opened Ordering

  datatype Resize = Grow | Shrink

  /** The factor a pass multiplies the unit with. */
  function Factor(item: FlexItem, mode: Resize): real {
    if mode == Grow then item.flexGrow else item.flexShrink
  }

  /** The size a pass clamps to: the maximum when growing, the minimum when shrinking. */
  function Limit(item: FlexItem, horizontal: bool, mode: Resize): real {
    if mode == Grow then MainMax(item, horizontal) else MainMin(item, horizontal)
  }

  /**
   * The second test of the skip check: the grow pass skips (and freezes) an item whose
   * own factor is 0; the shrink pass compares the running shrink total with 1 instead.
   */
  predicate Skips(item: FlexItem, mode: Resize, total: real) {
    if mode == Grow then item.flexGrow == 0.0 else total == 1.0
  }

  /** A grown size past the maximum, or a shrunk size below the minimum. */
  predicate Clamps(mode: Resize, size: real, limit: real) {
    if mode == Grow then size > limit else size < limit
  }

  /** What a clamped pass makes of `size`: capped at the limit when growing, raised to it when shrinking. */
  function ClampTo(mode: Resize, size: real, limit: real): real {
    if mode == Grow then Min(size, limit) else Max(size, limit)
  }

  /** The loop condition of both passes. */
  predicate Continues(mode: Resize, total: real, unit: real) {
    total > 0.0 && (if mode == Grow then unit > 0.0 else unit < 0.0)
  }

  /**
   * The state a pass works on: the main target sizes, the line's running
   * minMainSize, the frozen item positions, the running factor total and
   * the rest the clamped items gave back in the current round.
   */
  datatype Pass = Pass(mts: seq<real>, lineMain: real, frozen: set<nat>, total: real, rest: real)

  /** One iteration of the inner loop, for the item at position `idx`. */
  function ResizeItem(items: seq<FlexItem>, horizontal: bool, mode: Resize, unit: real, p: Pass, idx: nat): (r: Pass)
    requires idx < |items| == |p.mts|
    ensures |r.mts| == |p.mts|
    ensures p.frozen <= r.frozen <= p.frozen + {idx}
    ensures r.rest != p.rest ==> idx !in p.frozen && idx in r.frozen
    ensures forall k :: 0 <= k < |p.mts| && k != idx ==> r.mts[k] == p.mts[k]
    ensures r.lineMain - r.mts[idx] == p.lineMain - p.mts[idx]
  {
    if idx in p.frozen then p
    else if Skips(items[idx], mode, p.total) then p.(frozen := p.frozen + {idx})
    else
      var grown := Factor(items[idx], mode) * unit + p.mts[idx];
      var limit := Limit(items[idx], horizontal, mode);
      if Clamps(mode, grown, limit) then
        p.(mts := p.mts[idx := limit], lineMain := p.lineMain + (limit - p.mts[idx]),
           frozen := p.frozen + {idx}, total := p.total - Factor(items[idx], mode),
           rest := p.rest + (grown - limit))
      else
        p.(mts := p.mts[idx := grown], lineMain := p.lineMain + (grown - p.mts[idx]))
  }

  /** The inner loop over the first `k` members of the line. */
  function RoundPrefix(items: seq<FlexItem>, horizontal: bool, mode: Resize, unit: real,
                       line: seq<nat>, p: Pass, k: nat): (r: Pass)
    requires k <= |line| && InRange(line, |items|) && |p.mts| == |items|
    ensures |r.mts| == |p.mts|
    ensures p.frozen <= r.frozen
    ensures r.rest != p.rest ==> r.frozen != p.frozen
  {
    if k == 0 then p
    else ResizeItem(items, horizontal, mode, unit, RoundPrefix(items, horizontal, mode, unit, line, p, k - 1), line[k - 1])
  }

  /** The inner loop freezes only members of the line. */
  lemma {:induction false} RoundPrefixFrozen(items: seq<FlexItem>, horizontal: bool, mode: Resize, unit: real,
                                             line: seq<nat>, p: Pass, k: nat)
    requires k <= |line| && InRange(line, |items|) && |p.mts| == |items|
    ensures RoundPrefix(items, horizontal, mode, unit, line, p, k).frozen <= p.frozen + Members(line[..k])
  {
    if k > 0 {
      RoundPrefixFrozen(items, horizontal, mode, unit, line, p, k - 1);
      assert Members(line[..k - 1]) + {line[k - 1]} == Members(line[..k]) by {
        assert line[..k] == line[..k - 1] + [line[k - 1]];
      }
    }
  }

  /** One round of the outer loop: the rest starts at 0 and every member is visited in line order. */
  function Round(items: seq<FlexItem>, horizontal: bool, mode: Resize, unit: real, line: seq<nat>, p: Pass): (r: Pass)
    requires InRange(line, |items|) && |p.mts| == |items|
    ensures |r.mts| == |p.mts|
    ensures p.frozen <= r.frozen <= p.frozen + Members(line)
    ensures r.rest != 0.0 ==> r.frozen != p.frozen
  {
    assert line[..|line|] == line;
    RoundPrefixFrozen(items, horizontal, mode, unit, line, p.(rest := 0.0), |line|);
    RoundPrefix(items, horizontal, mode, unit, line, p.(rest := 0.0), |line|)
  }

  /** The unit of the next round: the rest spread over the factors still in play, or 0 when none is. */
  function NewGrowUnit(total: real, rest: real): (r: real)
    ensures total > 0.0 ==> r * total == rest
    ensures total > 0.0 && rest > 0.0 ==> r > 0.0
    ensures total <= 0.0 ==> r == 0.0
  {
    if total <= 0.0 then 0.0 else rest / total
  }

  lemma SubsetCard(l: set<nat>, a: set<nat>, b: set<nat>)
    requires a <= b <= l && a != b
    ensures |l - b| < |l - a|
  {
    var x :| x in b && x !in a;
    assert l - b <= l - a;
    assert x in (l - a) - (l - b);
    assert (l - a) == (l - b) + ((l - a) - (l - b));
  }

  /** A round that gives back rest freezes another member, so fewer members stay unfrozen. */
  lemma RoundFreezes(items: seq<FlexItem>, horizontal: bool, mode: Resize, unit: real, line: seq<nat>, p: Pass)
    requires InRange(line, |items|) && |p.mts| == |items| && p.frozen <= Members(line)
    ensures var q := Round(items, horizontal, mode, unit, line, p);
      q.frozen <= Members(line) &&
      (q.rest != 0.0 ==> |Members(line) - q.frozen| < |Members(line) - p.frozen|)
  {
    var q := Round(items, horizontal, mode, unit, line, p);
    if q.rest != 0.0 {
      SubsetCard(Members(line), p.frozen, q.frozen);
    }
  }

  /** The outer loop: rounds go on while another clamped item gives back rest. */
  function Rounds(items: seq<FlexItem>, horizontal: bool, mode: Resize, line: seq<nat>, p: Pass, unit: real): (r: Pass)
    requires InRange(line, |items|) && |p.mts| == |items|
    requires p.frozen <= Members(line)
    ensures |r.mts| == |p.mts|
    ensures p.frozen <= r.frozen <= Members(line)
    decreases |Members(line) - p.frozen|
  {
    if !Continues(mode, p.total, unit) then p
    else
      var q := Round(items, horizontal, mode, unit, line, p);
      if q.rest > 0.0 then
        RoundFreezes(items, horizontal, mode, unit, line, p);
        Rounds(items, horizontal, mode, line, q, NewGrowUnit(q.total, q.rest))
      else q
  }

  /** The outcome of distributing a line's free space: the new sizes and the line's new minMainSize. */
  datatype Distribution = Distribution(mts: seq<real>, lineMain: real)

  /**
   * `distributeMainLineSpace` on one line. Positive free space runs the grow rounds when the
   * line's grow total is positive; negative free space runs the shrink rounds when its shrink
   * total is positive; otherwise nothing changes.
   */
  function Distribute(items: seq<FlexItem>, horizontal: bool, line: FlexLine, mts: seq<real>, mainSize: real): (r: Distribution)
    requires InRange(line.flexItems, |items|) && |mts| == |items|
    ensures |r.mts| == |mts|
  {
    var free := mainSize - line.minMainSize;
    if free > 0.0 && line.grow > 0.0 then
      var q := Rounds(items, horizontal, Grow, line.flexItems, Pass(mts, line.minMainSize, {}, line.grow, 0.0), free / line.grow);
      Distribution(q.mts, q.lineMain)
    else if free < 0.0 && line.shrink > 0.0 then
      var q := Rounds(items, horizontal, Shrink, line.flexItems, Pass(mts, line.minMainSize, {}, line.shrink, 0.0), free / line.shrink);
      Distribution(q.mts, q.lineMain)
    else Distribution(mts, line.minMainSize)
  }

  // ---- Sums over a line ----

  /** The sum of the factors of the listed positions that are not frozen. */
  function SumUnfrozen(items: seq<FlexItem>, mode: Resize, s: seq<nat>, frozen: set<nat>): real
    requires InRange(s, |items|)
  {
    if |s| == 0 then 0.0
    else SumUnfrozen(items, mode, s[..|s| - 1], frozen) + (if s[|s| - 1] in frozen then 0.0 else Factor(items[s[|s| - 1]], mode))
  }

  lemma {:induction false} SumUnfrozenFreeze(items: seq<FlexItem>, mode: Resize, s: seq<nat>, frozen: set<nat>, idx: nat)
    requires InRange(s, |items|) && Distinct(s) && idx !in frozen
    ensures SumUnfrozen(items, mode, s, frozen + {idx})
         == SumUnfrozen(items, mode, s, frozen) - (if idx in s then Factor(items[idx], mode) else 0.0)
  {
    if |s| > 0 {
      var t := s[..|s| - 1];
      assert s == t + [s[|s| - 1]];
      SumUnfrozenFreeze(items, mode, t, frozen, idx);
      if idx == s[|s| - 1] {
        assert idx !in t;
      }
    }
  }

  /** With non-negative factors the unfrozen sum is non-negative, and 0 only when every unfrozen factor is. */
  lemma {:induction false} SumUnfrozenNonneg(items: seq<FlexItem>, mode: Resize, s: seq<nat>, frozen: set<nat>)
    requires InRange(s, |items|)
    requires forall j :: 0 <= j < |s| ==> Factor(items[s[j]], mode) >= 0.0
    ensures SumUnfrozen(items, mode, s, frozen) >= 0.0
    ensures SumUnfrozen(items, mode, s, frozen) == 0.0 ==>
      forall j :: 0 <= j < |s| && s[j] !in frozen ==> Factor(items[s[j]], mode) == 0.0
  {
    if |s| > 0 {
      var t := s[..|s| - 1];
      SumUnfrozenNonneg(items, mode, t, frozen);
      if SumUnfrozen(items, mode, s, frozen) == 0.0 {
        forall j | 0 <= j < |s| && s[j] !in frozen ensures Factor(items[s[j]], mode) == 0.0 {
          if j < |s| - 1 {
            assert t[j] == s[j];
          }
        }
      }
    }
  }

  // ---- What one round does ----

  lemma {:induction false} RoundPrefixFrame(items: seq<FlexItem>, horizontal: bool, mode: Resize, unit: real,
                                            line: seq<nat>, p: Pass, n: nat, k: nat)
    requires n <= |line| && InRange(line, |items|) && |p.mts| == |items| && k < |items|
    requires k !in line[..n] || (mode == Grow && items[k].flexGrow == 0.0)
    ensures RoundPrefix(items, horizontal, mode, unit, line, p, n).mts[k] == p.mts[k]
  {
    if n > 0 {
      assert line[..n] == line[..n - 1] + [line[n - 1]];
      RoundPrefixFrame(items, horizontal, mode, unit, line, p, n - 1, k);
    }
  }

  lemma {:induction false} RoundPrefixBalance(items: seq<FlexItem>, horizontal: bool, mode: Resize, unit: real,
                                              line: seq<nat>, p: Pass, n: nat)
    requires n <= |line| && InRange(line, |items|) && |p.mts| == |items| && Distinct(line)
    ensures var r := RoundPrefix(items, horizontal, mode, unit, line, p, n);
      r.lineMain - SumAt(r.mts, line) == p.lineMain - SumAt(p.mts, line)
  {
    if n > 0 {
      RoundPrefixBalance(items, horizontal, mode, unit, line, p, n - 1);
      var q := RoundPrefix(items, horizontal, mode, unit, line, p, n - 1);
      var idx := line[n - 1];
      var r := ResizeItem(items, horizontal, mode, unit, q, idx);
      assert r.mts == q.mts[idx := r.mts[idx]];
      SumAtUpdate(q.mts, line, idx, r.mts[idx]);
    }
  }

  /** The size a visited item ends a round at: its grown or shrunk size, clamped to its limit. */
  function Target(items: seq<FlexItem>, horizontal: bool, mode: Resize, unit: real, size: real, idx: nat): real
    requires idx < |items|
  {
    ClampTo(mode, Factor(items[idx], mode) * unit + size, Limit(items[idx], horizontal, mode))
  }

  /**
   * An item not yet frozen keeps its size when the skip check holds at its turn (the running
   * total for a shrink pass, its own factor for a grow pass) and ends at its target otherwise.
   */
  lemma ResizeItemEffect(items: seq<FlexItem>, horizontal: bool, mode: Resize, unit: real, p: Pass, idx: nat)
    requires idx < |items| == |p.mts| && idx !in p.frozen
    ensures var r := ResizeItem(items, horizontal, mode, unit, p, idx);
      r.mts[idx] == if Skips(items[idx], mode, p.total) then p.mts[idx]
                    else Target(items, horizontal, mode, unit, p.mts[idx], idx)
  {
  }

  /** The next member's turn comes with its size untouched and the member not yet frozen. */
  lemma RoundPrefixUntouched(items: seq<FlexItem>, horizontal: bool, mode: Resize, unit: real,
                             line: seq<nat>, p: Pass, n: nat)
    requires n < |line| && InRange(line, |items|) && |p.mts| == |items| && Distinct(line) && line[n] !in p.frozen
    ensures var q := RoundPrefix(items, horizontal, mode, unit, line, p, n);
      q.mts[line[n]] == p.mts[line[n]] && line[n] !in q.frozen
  {
    DistinctLast(line, n + 1);
    RoundPrefixFrame(items, horizontal, mode, unit, line, p, n, line[n]);
    RoundPrefixFrozen(items, horizontal, mode, unit, line, p, n);
  }

  /** What the `j`-th member of the line ends a pass over the first `n > j` members at, with no member frozen before. */
  function PassOutcome(items: seq<FlexItem>, horizontal: bool, mode: Resize, unit: real,
                       line: seq<nat>, p: Pass, j: nat): real
    requires j < |line| && InRange(line, |items|) && |p.mts| == |items|
  {
    var idx := line[j];
    if Skips(items[idx], mode, RoundPrefix(items, horizontal, mode, unit, line, p, j).total) then p.mts[idx]
    else Target(items, horizontal, mode, unit, p.mts[idx], idx)
  }

  /**
   * Over a pass that starts with no member frozen, each visited member keeps its size exactly
   * when the skip check holds at its turn (against the running total left by the members before
   * it), and ends at its target otherwise.
   */
  lemma RoundPrefixEffect(items: seq<FlexItem>, horizontal: bool, mode: Resize, unit: real,
                          line: seq<nat>, p: Pass, n: nat)
    requires n <= |line| && InRange(line, |items|) && |p.mts| == |items| && Distinct(line)
    requires forall j :: 0 <= j < |line| ==> line[j] !in p.frozen
    ensures var r := RoundPrefix(items, horizontal, mode, unit, line, p, n);
      forall j {:trigger PassOutcome(items, horizontal, mode, unit, line, p, j)} :: 0 <= j < n ==>
        r.mts[line[j]] == PassOutcome(items, horizontal, mode, unit, line, p, j)
  {
    forall j | 0 <= j < n
      ensures RoundPrefix(items, horizontal, mode, unit, line, p, n).mts[line[j]] == PassOutcome(items, horizontal, mode, unit, line, p, j)
    {
      RoundPrefixLater(items, horizontal, mode, unit, line, p, n, j);
      RoundPrefixTurn(items, horizontal, mode, unit, line, p, j);
    }
  }

  /** A member's size after its own turn is its outcome. */
  lemma RoundPrefixTurn(items: seq<FlexItem>, horizontal: bool, mode: Resize, unit: real,
                        line: seq<nat>, p: Pass, j: nat)
    requires j < |line| && InRange(line, |items|) && |p.mts| == |items| && Distinct(line) && line[j] !in p.frozen
    ensures RoundPrefix(items, horizontal, mode, unit, line, p, j + 1).mts[line[j]] == PassOutcome(items, horizontal, mode, unit, line, p, j)
  {
    RoundPrefixUntouched(items, horizontal, mode, unit, line, p, j);
    ResizeItemEffect(items, horizontal, mode, unit, RoundPrefix(items, horizontal, mode, unit, line, p, j), line[j]);
  }

  /** The later members' turns leave an earlier member's size alone. */
  lemma {:induction false} RoundPrefixLater(items: seq<FlexItem>, horizontal: bool, mode: Resize, unit: real,
                                            line: seq<nat>, p: Pass, n: nat, j: nat)
    requires j < n <= |line| && InRange(line, |items|) && |p.mts| == |items| && Distinct(line)
    ensures RoundPrefix(items, horizontal, mode, unit, line, p, n).mts[line[j]] ==
            RoundPrefix(items, horizontal, mode, unit, line, p, j + 1).mts[line[j]]
  {
    if n > j + 1 {
      RoundPrefixLater(items, horizontal, mode, unit, line, p, n - 1, j);
      assert line[n - 1] != line[j];
    }
  }

  // ---- The grow rounds ----

  /** Every item the grow rounds froze has a grow factor of 0 or sits at its maximum. */
  predicate FrozenAtMax(items: seq<FlexItem>, horizontal: bool, p: Pass) {
    forall idx :: idx in p.frozen && idx < |items| && idx < |p.mts| ==>
      items[idx].flexGrow == 0.0 || p.mts[idx] == MainMax(items[idx], horizontal)
  }

  /** Every member with a non-zero grow factor is at most its maximum. */
  predicate WithinMax(items: seq<FlexItem>, horizontal: bool, line: seq<nat>, mts: seq<real>)
    requires InRange(line, |items|) && |mts| == |items|
  {
    forall j :: 0 <= j < |line| && items[line[j]].flexGrow != 0.0 ==> mts[line[j]] <= MainMax(items[line[j]], horizontal)
  }

  lemma ResizeItemFrozenAtMax(items: seq<FlexItem>, horizontal: bool, unit: real, p: Pass, idx: nat)
    requires idx < |items| == |p.mts| && FrozenAtMax(items, horizontal, p)
    ensures FrozenAtMax(items, horizontal, ResizeItem(items, horizontal, Grow, unit, p, idx))
  {
  }

  lemma ResizeItemWithinMax(items: seq<FlexItem>, horizontal: bool, unit: real, p: Pass, idx: nat)
    requires idx < |items| == |p.mts| && FrozenAtMax(items, horizontal, p)
    requires items[idx].flexGrow != 0.0
    ensures ResizeItem(items, horizontal, Grow, unit, p, idx).mts[idx] <= MainMax(items[idx], horizontal)
  {
  }

  lemma {:induction false} RoundPrefixFrozenAtMax(items: seq<FlexItem>, horizontal: bool, unit: real,
                                                  line: seq<nat>, p: Pass, n: nat)
    requires n <= |line| && InRange(line, |items|) && |p.mts| == |items|
    requires FrozenAtMax(items, horizontal, p)
    ensures FrozenAtMax(items, horizontal, RoundPrefix(items, horizontal, Grow, unit, line, p, n))
  {
    if n > 0 {
      RoundPrefixFrozenAtMax(items, horizontal, unit, line, p, n - 1);
      var q := RoundPrefix(items, horizontal, Grow, unit, line, p, n - 1);
      ResizeItemFrozenAtMax(items, horizontal, unit, q, line[n - 1]);
    }
  }

  lemma {:induction false} RoundPrefixGrowBound(items: seq<FlexItem>, horizontal: bool, unit: real,
                                                line: seq<nat>, p: Pass, n: nat)
    requires n <= |line| && InRange(line, |items|) && |p.mts| == |items| && Distinct(line)
    requires FrozenAtMax(items, horizontal, p)
    ensures var r := RoundPrefix(items, horizontal, Grow, unit, line, p, n);
      forall j :: 0 <= j < n && items[line[j]].flexGrow != 0.0 ==> r.mts[line[j]] <= MainMax(items[line[j]], horizontal)
  {
    if n > 0 {
      RoundPrefixGrowBound(items, horizontal, unit, line, p, n - 1);
      RoundPrefixFrozenAtMax(items, horizontal, unit, line, p, n - 1);
      var q := RoundPrefix(items, horizontal, Grow, unit, line, p, n - 1);
      var r := RoundPrefix(items, horizontal, Grow, unit, line, p, n);
      var idx := line[n - 1];
      forall j | 0 <= j < n && items[line[j]].flexGrow != 0.0
        ensures r.mts[line[j]] <= MainMax(items[line[j]], horizontal)
      {
        if j < n - 1 {
          assert line[j] != idx;
          assert r.mts[line[j]] == q.mts[line[j]];
        } else {
          ResizeItemWithinMax(items, horizontal, unit, q, idx);
        }
      }
    }
  }

  /** After one grow round every member with a non-zero grow factor is within its maximum. */
  lemma RoundGrowBound(items: seq<FlexItem>, horizontal: bool, unit: real, line: seq<nat>, p: Pass)
    requires InRange(line, |items|) && |p.mts| == |items| && Distinct(line)
    requires FrozenAtMax(items, horizontal, p)
    ensures var r := Round(items, horizontal, Grow, unit, line, p);
      FrozenAtMax(items, horizontal, r) && WithinMax(items, horizontal, line, r.mts)
  {
    assert line[..|line|] == line;
    RoundPrefixGrowBound(items, horizontal, unit, line, p.(rest := 0.0), |line|);
    RoundPrefixFrozenAtMax(items, horizontal, unit, line, p.(rest := 0.0), |line|);
  }

  /**
   * Once a grow round has run, every member with a non-zero grow factor is within its
   * maximum, and the rounds that follow keep it so.
   */
  lemma {:induction false} RoundsGrowBound(items: seq<FlexItem>, horizontal: bool, line: seq<nat>, p: Pass, unit: real)
    requires InRange(line, |items|) && |p.mts| == |items| && p.frozen <= Members(line) && Distinct(line)
    requires FrozenAtMax(items, horizontal, p)
    requires Continues(Grow, p.total, unit) || WithinMax(items, horizontal, line, p.mts)
    ensures var r := Rounds(items, horizontal, Grow, line, p, unit);
      FrozenAtMax(items, horizontal, r) && WithinMax(items, horizontal, line, r.mts)
    decreases |Members(line) - p.frozen|
  {
    if Continues(Grow, p.total, unit) {
      var q := Round(items, horizontal, Grow, unit, line, p);
      RoundGrowBound(items, horizontal, unit, line, p);
      if q.rest > 0.0 {
        RoundFreezes(items, horizontal, Grow, unit, line, p);
        RoundsGrowBound(items, horizontal, line, q, NewGrowUnit(q.total, q.rest));
      }
    }
  }

  // ---- Where the grow rounds end ----

  /** The running total is the sum of the grow factors of the members not yet frozen. */
  predicate TotalTracks(items: seq<FlexItem>, line: seq<nat>, p: Pass)
    requires InRange(line, |items|)
  {
    p.total == SumUnfrozen(items, Grow, line, p.frozen)
  }

  lemma ResizeItemTotal(items: seq<FlexItem>, horizontal: bool, unit: real, line: seq<nat>, p: Pass, idx: nat)
    requires idx < |items| == |p.mts| && InRange(line, |items|) && Distinct(line) && idx in line
    requires TotalTracks(items, line, p)
    ensures TotalTracks(items, line, ResizeItem(items, horizontal, Grow, unit, p, idx))
  {
    if idx !in p.frozen {
      SumUnfrozenFreeze(items, Grow, line, p.frozen, idx);
    }
  }

  /** One grow step adds the member's share to the line's size, less what it gives back as rest. */
  lemma ResizeItemAccount(items: seq<FlexItem>, horizontal: bool, unit: real, p: Pass, idx: nat)
    requires idx < |items| == |p.mts|
    ensures var r := ResizeItem(items, horizontal, Grow, unit, p, idx);
      r.rest >= p.rest &&
      r.lineMain + r.rest == p.lineMain + p.rest + (if idx in p.frozen then 0.0 else items[idx].flexGrow * unit)
  {
  }

  lemma {:induction false} RoundPrefixTotal(items: seq<FlexItem>, horizontal: bool, unit: real,
                                            line: seq<nat>, p: Pass, n: nat)
    requires n <= |line| && InRange(line, |items|) && |p.mts| == |items| && Distinct(line)
    requires TotalTracks(items, line, p)
    ensures TotalTracks(items, line, RoundPrefix(items, horizontal, Grow, unit, line, p, n))
  {
    if n > 0 {
      RoundPrefixTotal(items, horizontal, unit, line, p, n - 1);
      var q := RoundPrefix(items, horizontal, Grow, unit, line, p, n - 1);
      ResizeItemTotal(items, horizontal, unit, line, q, line[n - 1]);
    }
  }

  lemma Accumulate(a: real, b: real, c: real, u: real, s: real, g: real)
    requires b == a + u * s && c == b + g * u
    ensures c == a + u * (s + g)
  {
  }

  /** The member a step visits is frozen at that point only if it was frozen before the round. */
  lemma RoundPrefixFrozenLast(items: seq<FlexItem>, horizontal: bool, mode: Resize, unit: real,
                              line: seq<nat>, p: Pass, n: nat)
    requires 0 < n <= |line| && InRange(line, |items|) && |p.mts| == |items| && Distinct(line)
    ensures (line[n - 1] in RoundPrefix(items, horizontal, mode, unit, line, p, n - 1).frozen) == (line[n - 1] in p.frozen)
  {
    DistinctLast(line, n);
    RoundPrefixFrozen(items, horizontal, mode, unit, line, p, n - 1);
  }

  /** The shares the unfrozen listed members receive at `unit` per grow factor. */
  function SumShares(items: seq<FlexItem>, unit: real, s: seq<nat>, frozen: set<nat>): real
    requires InRange(s, |items|)
  {
    if |s| == 0 then 0.0
    else SumShares(items, unit, s[..|s| - 1], frozen) + (if s[|s| - 1] in frozen then 0.0 else items[s[|s| - 1]].flexGrow * unit)
  }

  lemma {:induction false} SumSharesScaled(items: seq<FlexItem>, unit: real, s: seq<nat>, frozen: set<nat>)
    requires InRange(s, |items|)
    ensures SumShares(items, unit, s, frozen) == unit * SumUnfrozen(items, Grow, s, frozen)
  {
    if |s| > 0 {
      var t := s[..|s| - 1];
      SumSharesScaled(items, unit, t, frozen);
      var g := if s[|s| - 1] in frozen then 0.0 else items[s[|s| - 1]].flexGrow;
      Accumulate(0.0, SumShares(items, unit, t, frozen), SumShares(items, unit, s, frozen), unit, SumUnfrozen(items, Grow, t, frozen), g);
    }
  }

  /** One step of the account below, with the state before the step given by name. */
  lemma AccountStep(items: seq<FlexItem>, horizontal: bool, unit: real, line: seq<nat>, p: Pass, q: Pass, n: nat)
    requires 0 < n <= |line| && InRange(line, |items|) && |q.mts| == |items|
    requires (line[n - 1] in q.frozen) == (line[n - 1] in p.frozen)
    requires q.rest >= p.rest
    requires q.lineMain + q.rest == p.lineMain + p.rest + SumShares(items, unit, line[..n - 1], p.frozen)
    ensures var r := ResizeItem(items, horizontal, Grow, unit, q, line[n - 1]);
      r.rest >= p.rest &&
      r.lineMain + r.rest == p.lineMain + p.rest + SumShares(items, unit, line[..n], p.frozen)
  {
    ResizeItemAccount(items, horizontal, unit, q, line[n - 1]);
    assert line[..n][..n - 1] == line[..n - 1];
  }

  /** Over a prefix, the line grows by the shares of the unfrozen members, less the rest given back. */
  lemma {:induction false} RoundPrefixAccount(items: seq<FlexItem>, horizontal: bool, unit: real,
                                              line: seq<nat>, p: Pass, n: nat)
    requires n <= |line| && InRange(line, |items|) && |p.mts| == |items| && Distinct(line)
    ensures var r := RoundPrefix(items, horizontal, Grow, unit, line, p, n);
      r.rest >= p.rest &&
      r.lineMain + r.rest == p.lineMain + p.rest + SumShares(items, unit, line[..n], p.frozen)
  {
    if n > 0 {
      RoundPrefixAccount(items, horizontal, unit, line, p, n - 1);
      var q := RoundPrefix(items, horizontal, Grow, unit, line, p, n - 1);
      RoundPrefixFrozenLast(items, horizontal, Grow, unit, line, p, n);
      AccountStep(items, horizontal, unit, line, p, q, n);
    }
  }

  /** A grow round adds the unit times the running total to the line, less the rest it gives back. */
  lemma RoundAccount(items: seq<FlexItem>, horizontal: bool, unit: real, line: seq<nat>, p: Pass)
    requires InRange(line, |items|) && |p.mts| == |items| && Distinct(line)
    requires TotalTracks(items, line, p)
    ensures var r := Round(items, horizontal, Grow, unit, line, p);
      r.rest >= 0.0 && r.lineMain + r.rest == p.lineMain + unit * p.total && TotalTracks(items, line, r)
  {
    assert line[..|line|] == line;
    RoundPrefixAccount(items, horizontal, unit, line, p.(rest := 0.0), |line|);
    SumSharesScaled(items, unit, line, p.frozen);
    RoundPrefixTotal(items, horizontal, unit, line, p.(rest := 0.0), |line|);
  }

  /** Every member with a positive grow factor is frozen. */
  predicate AllGrowingFrozen(items: seq<FlexItem>, line: seq<nat>, frozen: set<nat>)
    requires InRange(line, |items|)
  {
    forall j :: 0 <= j < |line| && items[line[j]].flexGrow > 0.0 ==> line[j] in frozen
  }

  predicate NonnegGrow(items: seq<FlexItem>, line: seq<nat>)
    requires InRange(line, |items|)
  {
    forall j :: 0 <= j < |line| ==> items[line[j]].flexGrow >= 0.0
  }

  /** With non-negative factors, a running total of 0 or less means every growing member is frozen. */
  lemma NoTotalAllFrozen(items: seq<FlexItem>, line: seq<nat>, p: Pass)
    requires InRange(line, |items|) && NonnegGrow(items, line) && TotalTracks(items, line, p) && p.total <= 0.0
    ensures AllGrowingFrozen(items, line, p.frozen)
  {
    SumUnfrozenNonneg(items, Grow, line, p.frozen);
  }

  /** What one grow round leaves for the next: the line plus the rest still owed fills `mainSize`. */
  lemma GrowRoundStep(items: seq<FlexItem>, horizontal: bool, line: seq<nat>, p: Pass, unit: real, owed: real, mainSize: real)
    requires InRange(line, |items|) && |p.mts| == |items| && Distinct(line)
    requires NonnegGrow(items, line) && TotalTracks(items, line, p)
    requires p.total > 0.0 && unit == owed / p.total && p.lineMain + owed == mainSize
    ensures var q := Round(items, horizontal, Grow, unit, line, p);
      TotalTracks(items, line, q) && q.rest >= 0.0 && q.lineMain + q.rest == mainSize &&
      (q.total <= 0.0 ==> AllGrowingFrozen(items, line, q.frozen))
  {
    var q := Round(items, horizontal, Grow, unit, line, p);
    RoundAccount(items, horizontal, unit, line, p);
    assert unit * p.total == owed;
    if q.total <= 0.0 {
      NoTotalAllFrozen(items, line, q);
    }
  }

  /**
   * The grow rounds stop with the line exactly filling `mainSize`, or with every member
   * that has a positive grow factor frozen. `owed` is the space the current round hands out.
   */
  lemma {:induction false} RoundsGrowFill(items: seq<FlexItem>, horizontal: bool, line: seq<nat>, p: Pass,
                                          unit: real, owed: real, mainSize: real)
    requires InRange(line, |items|) && |p.mts| == |items| && p.frozen <= Members(line) && Distinct(line)
    requires NonnegGrow(items, line) && TotalTracks(items, line, p)
    requires Continues(Grow, p.total, unit) && unit == owed / p.total && p.lineMain + owed == mainSize
    ensures var r := Rounds(items, horizontal, Grow, line, p, unit);
      r.lineMain == mainSize || AllGrowingFrozen(items, line, r.frozen)
    decreases |Members(line) - p.frozen|
  {
    var q := Round(items, horizontal, Grow, unit, line, p);
    GrowRoundStep(items, horizontal, line, p, unit, owed, mainSize);
    if q.rest > 0.0 {
      RoundFreezes(items, horizontal, Grow, unit, line, p);
      if q.total > 0.0 {
        RoundsGrowFill(items, horizontal, line, q, NewGrowUnit(q.total, q.rest), q.rest, mainSize);
      }
    }
  }

  // ---- The shrink round ----

  lemma ResizeItemShrinkRest(items: seq<FlexItem>, horizontal: bool, unit: real, p: Pass, idx: nat)
    requires idx < |items| == |p.mts|
    ensures ResizeItem(items, horizontal, Shrink, unit, p, idx).rest <= p.rest
  {
  }

  lemma {:induction false} RoundPrefixShrinkRest(items: seq<FlexItem>, horizontal: bool, unit: real,
                                                 line: seq<nat>, p: Pass, n: nat)
    requires n <= |line| && InRange(line, |items|) && |p.mts| == |items|
    ensures RoundPrefix(items, horizontal, Shrink, unit, line, p, n).rest <= p.rest
  {
    if n > 0 {
      RoundPrefixShrinkRest(items, horizontal, unit, line, p, n - 1);
      var q := RoundPrefix(items, horizontal, Shrink, unit, line, p, n - 1);
      ResizeItemShrinkRest(items, horizontal, unit, q, line[n - 1]);
    }
  }

  /** A shrink round only ever gives back negative rest, so the shrink loop ends after its first round. */
  lemma RoundsShrinkOnce(items: seq<FlexItem>, horizontal: bool, line: seq<nat>, p: Pass, unit: real)
    requires InRange(line, |items|) && |p.mts| == |items| && p.frozen <= Members(line)
    requires Continues(Shrink, p.total, unit)
    ensures Rounds(items, horizontal, Shrink, line, p, unit) == Round(items, horizontal, Shrink, unit, line, p)
  {
    assert line[..|line|] == line;
    RoundPrefixShrinkRest(items, horizontal, unit, line, p.(rest := 0.0), |line|);
  }

  /** While the running shrink total is exactly 1, every member is skipped and nothing changes. */
  lemma {:induction false} RoundPrefixShrinkTotalOne(items: seq<FlexItem>, horizontal: bool, unit: real,
                                                     line: seq<nat>, p: Pass, n: nat)
    requires n <= |line| && InRange(line, |items|) && |p.mts| == |items| && p.total == 1.0
    ensures var r := RoundPrefix(items, horizontal, Shrink, unit, line, p, n);
      r.mts == p.mts && r.lineMain == p.lineMain && r.total == 1.0
  {
    if n > 0 {
      RoundPrefixShrinkTotalOne(items, horizontal, unit, line, p, n - 1);
    }
  }

  // ---- Rounds-level frame and balance ----

  lemma {:induction false} RoundsFrame(items: seq<FlexItem>, horizontal: bool, mode: Resize, line: seq<nat>, p: Pass, unit: real, k: nat)
    requires InRange(line, |items|) && |p.mts| == |items| && p.frozen <= Members(line) && k < |items|
    requires k !in line || (mode == Grow && items[k].flexGrow == 0.0)
    ensures Rounds(items, horizontal, mode, line, p, unit).mts[k] == p.mts[k]
    decreases |Members(line) - p.frozen|
  {
    if Continues(mode, p.total, unit) {
      var q := Round(items, horizontal, mode, unit, line, p);
      assert line[..|line|] == line;
      RoundPrefixFrame(items, horizontal, mode, unit, line, p.(rest := 0.0), |line|, k);
      if q.rest > 0.0 {
        RoundFreezes(items, horizontal, mode, unit, line, p);
        RoundsFrame(items, horizontal, mode, line, q, NewGrowUnit(q.total, q.rest), k);
      }
    }
  }

  lemma {:induction false} RoundsBalance(items: seq<FlexItem>, horizontal: bool, mode: Resize, line: seq<nat>, p: Pass, unit: real)
    requires InRange(line, |items|) && |p.mts| == |items| && p.frozen <= Members(line) && Distinct(line)
    ensures var r := Rounds(items, horizontal, mode, line, p, unit);
      r.lineMain - SumAt(r.mts, line) == p.lineMain - SumAt(p.mts, line)
    decreases |Members(line) - p.frozen|
  {
    if Continues(mode, p.total, unit) {
      var q := Round(items, horizontal, mode, unit, line, p);
      assert line[..|line|] == line;
      RoundPrefixBalance(items, horizontal, mode, unit, line, p.(rest := 0.0), |line|);
      if q.rest > 0.0 {
        RoundFreezes(items, horizontal, mode, unit, line, p);
        RoundsBalance(items, horizontal, mode, line, q, NewGrowUnit(q.total, q.rest));
      }
    }
  }

  // ---- What distributing a line's free space promises ----

  /** Items outside the line keep their sizes; while there is no negative free space, so do items that do not grow. */
  lemma DistributeFrame(items: seq<FlexItem>, horizontal: bool, line: FlexLine, mts: seq<real>, mainSize: real, k: nat)
    requires InRange(line.flexItems, |items|) && |mts| == |items| && k < |items|
    requires k !in line.flexItems || (mainSize >= line.minMainSize && items[k].flexGrow == 0.0)
    ensures Distribute(items, horizontal, line, mts, mainSize).mts[k] == mts[k]
  {
    var free := mainSize - line.minMainSize;
    if free > 0.0 && line.grow > 0.0 {
      RoundsFrame(items, horizontal, Grow, line.flexItems, Pass(mts, line.minMainSize, {}, line.grow, 0.0), free / line.grow, k);
    } else if free < 0.0 && line.shrink > 0.0 {
      RoundsFrame(items, horizontal, Shrink, line.flexItems, Pass(mts, line.minMainSize, {}, line.shrink, 0.0), free / line.shrink, k);
    }
  }

  /** The line's minMainSize moves by exactly what its members' sizes move by. */
  lemma DistributeBalance(items: seq<FlexItem>, horizontal: bool, line: FlexLine, mts: seq<real>, mainSize: real)
    requires InRange(line.flexItems, |items|) && |mts| == |items| && Distinct(line.flexItems)
    ensures var r := Distribute(items, horizontal, line, mts, mainSize);
      r.lineMain - SumAt(r.mts, line.flexItems) == line.minMainSize - SumAt(mts, line.flexItems)
  {
    var free := mainSize - line.minMainSize;
    if free > 0.0 && line.grow > 0.0 {
      RoundsBalance(items, horizontal, Grow, line.flexItems, Pass(mts, line.minMainSize, {}, line.grow, 0.0), free / line.grow);
    } else if free < 0.0 && line.shrink > 0.0 {
      RoundsBalance(items, horizontal, Shrink, line.flexItems, Pass(mts, line.minMainSize, {}, line.shrink, 0.0), free / line.shrink);
    }
  }

  /**
   * With positive free space and grow factors that are non-negative and add up to the line's
   * grow total, every growing member ends within its maximum, and either the line exactly
   * fills `mainSize` or every member with a positive factor has reached its maximum.
   */
  lemma DistributeGrow(items: seq<FlexItem>, horizontal: bool, line: FlexLine, mts: seq<real>, mainSize: real)
    requires InRange(line.flexItems, |items|) && |mts| == |items| && Distinct(line.flexItems)
    requires mainSize > line.minMainSize && line.grow > 0.0
    requires NonnegGrow(items, line.flexItems) && line.grow == SumUnfrozen(items, Grow, line.flexItems, {})
    ensures var r := Distribute(items, horizontal, line, mts, mainSize);
      WithinMax(items, horizontal, line.flexItems, r.mts) &&
      (r.lineMain == mainSize ||
       forall j :: 0 <= j < |line.flexItems| && items[line.flexItems[j]].flexGrow > 0.0 ==>
         r.mts[line.flexItems[j]] == MainMax(items[line.flexItems[j]], horizontal))
  {
    var free := mainSize - line.minMainSize;
    var p := Pass(mts, line.minMainSize, {}, line.grow, 0.0);
    var unit := free / line.grow;
    var q := Rounds(items, horizontal, Grow, line.flexItems, p, unit);
    RoundsGrowBound(items, horizontal, line.flexItems, p, unit);
    RoundsGrowFill(items, horizontal, line.flexItems, p, unit, free, mainSize);
  }

  /** The unit of the shrink round: the (negative) free space per unit of shrink factor. */
  function ShrinkUnit(line: FlexLine, mainSize: real): real
    requires line.shrink != 0.0
  {
    (mainSize - line.minMainSize) / line.shrink
  }

  /**
   * The shrink factors of the members among the first `j` of `s` that the shrink round clamps
   * at their minimum, stated over the sizes the round starts from: a member is clamped when the
   * running total at its turn (`total` less the factors clamped before it) is not 1 and its
   * shrunk size falls below its minimum.
   */
  function ClampedShrink(items: seq<FlexItem>, horizontal: bool, unit: real, s: seq<nat>,
                         mts: seq<real>, total: real, j: nat): real
    requires j <= |s| && InRange(s, |items|) && |mts| == |items|
  {
    if j == 0 then 0.0
    else
      var c := ClampedShrink(items, horizontal, unit, s, mts, total, j - 1);
      var idx := s[j - 1];
      c + (if total - c != 1.0 && items[idx].flexShrink * unit + mts[idx] < MainMin(items[idx], horizontal)
           then items[idx].flexShrink else 0.0)
  }

  /**
   * Over a shrink round that starts with no member frozen, the running total after the first
   * `j` members is the starting total less the factors of the members clamped among them.
   */
  lemma {:induction false} ShrinkRunningTotal(items: seq<FlexItem>, horizontal: bool, unit: real,
                                              s: seq<nat>, p: Pass, j: nat)
    requires j <= |s| && InRange(s, |items|) && |p.mts| == |items| && Distinct(s) && p.frozen == {}
    ensures RoundPrefix(items, horizontal, Shrink, unit, s, p, j).total
         == p.total - ClampedShrink(items, horizontal, unit, s, p.mts, p.total, j)
  {
    if j > 0 {
      ShrinkRunningTotal(items, horizontal, unit, s, p, j - 1);
      RoundPrefixUntouched(items, horizontal, Shrink, unit, s, p, j - 1);
      ShrinkTotalStep(items, horizontal, unit, s, p, j, RoundPrefix(items, horizontal, Shrink, unit, s, p, j - 1),
                      ClampedShrink(items, horizontal, unit, s, p.mts, p.total, j - 1));
    }
  }

  /** One shrink step on a member not yet frozen lowers the total by its factor exactly when it is clamped. */
  lemma ShrinkTotalStep(items: seq<FlexItem>, horizontal: bool, unit: real, s: seq<nat>, p: Pass, j: nat, q: Pass, c: real)
    requires 0 < j <= |s| && InRange(s, |items|) && |p.mts| == |items|
    requires q == RoundPrefix(items, horizontal, Shrink, unit, s, p, j - 1)
    requires c == ClampedShrink(items, horizontal, unit, s, p.mts, p.total, j - 1)
    requires s[j - 1] !in q.frozen && q.mts[s[j - 1]] == p.mts[s[j - 1]] && q.total == p.total - c
    ensures RoundPrefix(items, horizontal, Shrink, unit, s, p, j).total
         == p.total - ClampedShrink(items, horizontal, unit, s, p.mts, p.total, j)
  {
    ClampedShrinkStep(items, horizontal, unit, s, p.mts, p.total, j);
    RoundPrefixStep(items, horizontal, Shrink, unit, s, p, j);
    ResizeItemShrinkTotal(items, horizontal, unit, q, s[j - 1], p.mts[s[j - 1]], p.total, c);
  }

  lemma ClampedShrinkStep(items: seq<FlexItem>, horizontal: bool, unit: real, s: seq<nat>, mts: seq<real>, total: real, j: nat)
    requires 0 < j <= |s| && InRange(s, |items|) && |mts| == |items|
    ensures var c := ClampedShrink(items, horizontal, unit, s, mts, total, j - 1);
      var idx := s[j - 1];
      ClampedShrink(items, horizontal, unit, s, mts, total, j)
        == c + (if total - c != 1.0 && items[idx].flexShrink * unit + mts[idx] < MainMin(items[idx], horizontal)
                then items[idx].flexShrink else 0.0)
  {
  }

  lemma RoundPrefixStep(items: seq<FlexItem>, horizontal: bool, mode: Resize, unit: real, s: seq<nat>, p: Pass, j: nat)
    requires 0 < j <= |s| && InRange(s, |items|) && |p.mts| == |items|
    ensures RoundPrefix(items, horizontal, mode, unit, s, p, j)
         == ResizeItem(items, horizontal, mode, unit, RoundPrefix(items, horizontal, mode, unit, s, p, j - 1), s[j - 1])
  {
  }

  lemma ResizeItemShrinkTotal(items: seq<FlexItem>, horizontal: bool, unit: real, q: Pass, idx: nat, m: real, t: real, c: real)
    requires idx < |items| == |q.mts| && idx !in q.frozen && q.mts[idx] == m && q.total == t - c
    ensures ResizeItem(items, horizontal, Shrink, unit, q, idx).total
         == t - (c + (if t - c != 1.0 && items[idx].flexShrink * unit + m < MainMin(items[idx], horizontal)
                      then items[idx].flexShrink else 0.0))
  {
  }

  /** The state the shrink round starts from. */
  function ShrinkStart(line: FlexLine, mts: seq<real>): Pass {
    Pass(mts, line.minMainSize, {}, line.shrink, 0.0)
  }

  /**
   * With negative free space and a positive shrink total, exactly one round runs over the line's
   * members in order. A member whose turn comes while the running shrink total is exactly 1 is
   * skipped and keeps its size; every other member ends at its shrunk size raised to its minimum.
   * The running total is the line's total less the factors of the members clamped before it.
   */
  lemma DistributeShrink(items: seq<FlexItem>, horizontal: bool, line: FlexLine, mts: seq<real>, mainSize: real)
    requires InRange(line.flexItems, |items|) && |mts| == |items| && Distinct(line.flexItems)
    requires mainSize < line.minMainSize && line.shrink > 0.0
    ensures var r := Distribute(items, horizontal, line, mts, mainSize);
      var unit := ShrinkUnit(line, mainSize);
      forall j {:trigger RoundPrefix(items, horizontal, Shrink, ShrinkUnit(line, mainSize), line.flexItems, ShrinkStart(line, mts), j)} ::
        0 <= j < |line.flexItems| ==>
        r.mts[line.flexItems[j]] ==
          if RoundPrefix(items, horizontal, Shrink, unit, line.flexItems, ShrinkStart(line, mts), j).total == 1.0 then mts[line.flexItems[j]]
          else Max(items[line.flexItems[j]].flexShrink * unit + mts[line.flexItems[j]], MainMin(items[line.flexItems[j]], horizontal))
    ensures forall j :: 0 <= j <= |line.flexItems| ==>
      RoundPrefix(items, horizontal, Shrink, ShrinkUnit(line, mainSize), line.flexItems, ShrinkStart(line, mts), j).total
        == line.shrink - ClampedShrink(items, horizontal, ShrinkUnit(line, mainSize), line.flexItems, mts, line.shrink, j)
  {
    var s := line.flexItems;
    var p := ShrinkStart(line, mts);
    var unit := ShrinkUnit(line, mainSize);
    DistributeShrinks(items, horizontal, line, mts, mainSize);
    ShrinkRoundEffect(items, horizontal, s, p, unit);
    ShrinkOutcomes(items, horizontal, s, p, unit, Rounds(items, horizontal, Shrink, s, p, unit).mts);
    ShrinkRunningTotals(items, horizontal, unit, s, p);
  }

  lemma ShrinkRunningTotals(items: seq<FlexItem>, horizontal: bool, unit: real, s: seq<nat>, p: Pass)
    requires InRange(s, |items|) && |p.mts| == |items| && Distinct(s) && p.frozen == {}
    ensures forall j :: 0 <= j <= |s| ==>
      RoundPrefix(items, horizontal, Shrink, unit, s, p, j).total == p.total - ClampedShrink(items, horizontal, unit, s, p.mts, p.total, j)
  {
    forall j | 0 <= j <= |s|
      ensures RoundPrefix(items, horizontal, Shrink, unit, s, p, j).total
           == p.total - ClampedShrink(items, horizontal, unit, s, p.mts, p.total, j)
    {
      ShrinkRunningTotal(items, horizontal, unit, s, p, j);
    }
  }

  /** The shrink outcome of each member spelled out: skipped at a running total of 1, else clamped. */
  lemma ShrinkOutcomes(items: seq<FlexItem>, horizontal: bool, s: seq<nat>, p: Pass, unit: real, r: seq<real>)
    requires InRange(s, |items|) && |p.mts| == |items| && |r| == |items|
    requires forall j {:trigger PassOutcome(items, horizontal, Shrink, unit, s, p, j)} :: 0 <= j < |s| ==>
      r[s[j]] == PassOutcome(items, horizontal, Shrink, unit, s, p, j)
    ensures forall j {:trigger RoundPrefix(items, horizontal, Shrink, unit, s, p, j)} :: 0 <= j < |s| ==>
      r[s[j]] ==
        if RoundPrefix(items, horizontal, Shrink, unit, s, p, j).total == 1.0 then p.mts[s[j]]
        else Max(items[s[j]].flexShrink * unit + p.mts[s[j]], MainMin(items[s[j]], horizontal))
  {
    forall j | 0 <= j < |s|
      ensures r[s[j]] ==
        if RoundPrefix(items, horizontal, Shrink, unit, s, p, j).total == 1.0 then p.mts[s[j]]
        else Max(items[s[j]].flexShrink * unit + p.mts[s[j]], MainMin(items[s[j]], horizontal))
    {
      assert r[s[j]] == PassOutcome(items, horizontal, Shrink, unit, s, p, j);
    }
  }

  /** Negative free space with a positive shrink total runs the shrink rounds from the line's state. */
  lemma DistributeShrinks(items: seq<FlexItem>, horizontal: bool, line: FlexLine, mts: seq<real>, mainSize: real)
    requires InRange(line.flexItems, |items|) && |mts| == |items|
    requires mainSize < line.minMainSize && line.shrink > 0.0
    ensures Distribute(items, horizontal, line, mts, mainSize).mts ==
      Rounds(items, horizontal, Shrink, line.flexItems, ShrinkStart(line, mts), ShrinkUnit(line, mainSize)).mts
  {
  }

  lemma ShrinkRoundEffect(items: seq<FlexItem>, horizontal: bool, s: seq<nat>, p: Pass, unit: real)
    requires InRange(s, |items|) && |p.mts| == |items| && Distinct(s) && p.frozen == {} && p.rest == 0.0
    requires Continues(Shrink, p.total, unit)
    ensures var r := Rounds(items, horizontal, Shrink, s, p, unit);
      forall j {:trigger PassOutcome(items, horizontal, Shrink, unit, s, p, j)} :: 0 <= j < |s| ==>
        r.mts[s[j]] == PassOutcome(items, horizontal, Shrink, unit, s, p, j)
  {
    RoundsShrinkOnce(items, horizontal, s, p, unit);
    assert s[..|s|] == s;
    assert p.(rest := 0.0) == p;
    RoundPrefixEffect(items, horizontal, Shrink, unit, s, p, |s|);
  }

  /**
   * When the running shrink total is never exactly 1 at a member's turn (as when no prefix of
   * clamped factors brings the line's total down to 1), every member ends at its clamped target.
   */
  lemma DistributeShrinkNoSkip(items: seq<FlexItem>, horizontal: bool, line: FlexLine, mts: seq<real>, mainSize: real)
    requires InRange(line.flexItems, |items|) && |mts| == |items| && Distinct(line.flexItems)
    requires mainSize < line.minMainSize && line.shrink > 0.0
    requires forall j :: 0 <= j < |line.flexItems| ==>
      RoundPrefix(items, horizontal, Shrink, ShrinkUnit(line, mainSize), line.flexItems, ShrinkStart(line, mts), j).total != 1.0
    ensures var r := Distribute(items, horizontal, line, mts, mainSize);
      var unit := ShrinkUnit(line, mainSize);
      forall j :: 0 <= j < |line.flexItems| ==>
        r.mts[line.flexItems[j]] ==
          Max(items[line.flexItems[j]].flexShrink * unit + mts[line.flexItems[j]], MainMin(items[line.flexItems[j]], horizontal))
  {
    DistributeShrink(items, horizontal, line, mts, mainSize);
    NoSkipOutcomes(items, horizontal, line.flexItems, ShrinkStart(line, mts), ShrinkUnit(line, mainSize),
      Distribute(items, horizontal, line, mts, mainSize).mts);
  }

  lemma NoSkipOutcomes(items: seq<FlexItem>, horizontal: bool, s: seq<nat>, p: Pass, unit: real, r: seq<real>)
    requires InRange(s, |items|) && |p.mts| == |items| && |r| == |items|
    requires forall j {:trigger RoundPrefix(items, horizontal, Shrink, unit, s, p, j)} :: 0 <= j < |s| ==>
      r[s[j]] ==
        if RoundPrefix(items, horizontal, Shrink, unit, s, p, j).total == 1.0 then p.mts[s[j]]
        else Max(items[s[j]].flexShrink * unit + p.mts[s[j]], MainMin(items[s[j]], horizontal))
    requires forall j :: 0 <= j < |s| ==> RoundPrefix(items, horizontal, Shrink, unit, s, p, j).total != 1.0
    ensures forall j :: 0 <= j < |s| ==> r[s[j]] == Max(items[s[j]].flexShrink * unit + p.mts[s[j]], MainMin(items[s[j]], horizontal))
  {
    forall j | 0 <= j < |s|
      ensures r[s[j]] == Max(items[s[j]].flexShrink * unit + p.mts[s[j]], MainMin(items[s[j]], horizontal))
    {
      assert RoundPrefix(items, horizontal, Shrink, unit, s, p, j).total != 1.0;
    }
  }

  /** A line whose shrink total is exactly 1 does not shrink at all: every member is skipped. */
  lemma DistributeShrinkTotalOne(items: seq<FlexItem>, horizontal: bool, line: FlexLine, mts: seq<real>, mainSize: real)
    requires InRange(line.flexItems, |items|) && |mts| == |items|
    requires mainSize < line.minMainSize && line.shrink == 1.0
    ensures Distribute(items, horizontal, line, mts, mainSize) == Distribution(mts, line.minMainSize)
  {
    var s := line.flexItems;
    var p := Pass(mts, line.minMainSize, {}, line.shrink, 0.0);
    var unit := (mainSize - line.minMainSize) / line.shrink;
    RoundsShrinkOnce(items, horizontal, s, p, unit);
    assert s[..|s|] == s;
    RoundPrefixShrinkTotalOne(items, horizontal, unit, s, p.(rest := 0.0), |s|);
  }

  // ---- A worked case ----

  /**
   * Two items of 50 with grow factor 1 on a line of 100 in 200: the first is clamped at its
   * maximum of 60 in the first round, and the second round hands its 40 of rest to the other.
   */
  lemma GrowClampsAndRedistributes(a: FlexItem, b: FlexItem, cross: real, shrink: real, pos: real)
    requires a.flexGrow == 1.0 && a.maxWidth == 60.0 && b.flexGrow == 1.0 && b.maxWidth >= 140.0
    ensures Distribute([a, b], true, FlexLine([0, 1], 100.0, cross, 2.0, shrink, pos), [50.0, 50.0], 200.0)
         == Distribution([60.0, 140.0], 200.0)
  {
    var items := [a, b];
    var line := [0, 1];
    var p0 := Pass([50.0, 50.0], 100.0, {}, 2.0, 0.0);
    assert 100.0 / 2.0 == 50.0;
    var p1 := Pass([60.0, 100.0], 160.0, {0}, 1.0, 40.0);
    assert RoundPrefix(items, true, Grow, 50.0, line, p0, 1) == Pass([60.0, 50.0], 110.0, {0}, 1.0, 40.0);
    assert Round(items, true, Grow, 50.0, line, p0) == p1;
    assert NewGrowUnit(1.0, 40.0) == 40.0;
    var p2 := Pass([60.0, 140.0], 200.0, {0}, 1.0, 0.0);
    assert RoundPrefix(items, true, Grow, 40.0, line, p1.(rest := 0.0), 1) == p1.(rest := 0.0);
    assert Round(items, true, Grow, 40.0, line, p1) == p2;
    assert Rounds(items, true, Grow, line, p1, 40.0) == p2;
    assert Rounds(items, true, Grow, line, p0, 50.0) == p2;
  }

  /**
   * Shrink factors 2, 0.5 and 0.5 on a line of 300 in 240: the first item is clamped at its minimum
   * of 90, which brings the running shrink total down to 1, so the other two are skipped.
   */
  lemma ShrinkSkipsAfterClamp(a: FlexItem, b: FlexItem, c: FlexItem, cross: real, grow: real, pos: real)
    requires a.flexShrink == 2.0 && a.minWidth == 90.0 && b.flexShrink == 0.5 && c.flexShrink == 0.5
    ensures Distribute([a, b, c], true, FlexLine([0, 1, 2], 300.0, cross, grow, 3.0, pos), [100.0, 100.0, 100.0], 240.0)
         == Distribution([90.0, 100.0, 100.0], 290.0)
  {
    var items := [a, b, c];
    var line := [0, 1, 2];
    var p0 := Pass([100.0, 100.0, 100.0], 300.0, {}, 3.0, 0.0);
    assert -60.0 / 3.0 == -20.0;
    var p1 := Pass([90.0, 100.0, 100.0], 290.0, {0}, 1.0, -30.0);
    assert RoundPrefix(items, true, Shrink, -20.0, line, p0, 1) == p1;
    assert RoundPrefix(items, true, Shrink, -20.0, line, p0, 2) == p1.(frozen := {0, 1});
    assert Round(items, true, Shrink, -20.0, line, p0) == p1.(frozen := {0, 1, 2});
  }
}

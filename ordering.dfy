// The ordering stage: a stable sort of the item positions by their
// `order` key, reversed for the reversed directions.
module Ordering {
  import opened FlexTypes
  import opened Positions

  /** The positions 0 .. n-1 of the added items, in insertion order. */
  function Range(n: nat): (r: seq<nat>)
    ensures |r| == n
    ensures forall i :: 0 <= i < n ==> r[i] == i
  {
    if n == 0 then [] else Range(n - 1) + [n - 1]
  }

  function Reverse<T>(s: seq<T>): (r: seq<T>)
    ensures |r| == |s|
    ensures forall i :: 0 <= i < |s| ==> r[i] == s[|s| - 1 - i]
  {
    if s == [] then [] else Reverse(s[1..]) + [s[0]]
  }

  /** A prefix one longer is the shorter prefix and the next element. */
  lemma TakeOneMore<T>(s: seq<T>, k: nat)
    requires 0 < k <= |s|
    ensures s[..k - 1] + [s[k - 1]] == s[..k]
  {
  }

  lemma ReverseReverse<T>(s: seq<T>)
    ensures Reverse(Reverse(s)) == s
  {
    assert forall i :: 0 <= i < |s| ==> Reverse(Reverse(s))[i] == s[i];
  }

  /** Inserts `x` in front of the first element whose order is not smaller. */
  function Insert(items: seq<FlexItem>, x: nat, t: seq<nat>): (r: seq<nat>)
    requires x < |items| && InRange(t, |items|)
    ensures |r| == |t| + 1
    ensures InRange(r, |items|)
  {
    if t == [] || items[x].order <= items[t[0]].order then [x] + t
    else [t[0]] + Insert(items, x, t[1..])
  }

  lemma {:induction false} InsertMultiset(items: seq<FlexItem>, x: nat, t: seq<nat>)
    requires x < |items| && InRange(t, |items|)
    ensures multiset(Insert(items, x, t)) == multiset(t) + multiset{x}
  {
    if !(t == [] || items[x].order <= items[t[0]].order) {
      InsertMultiset(items, x, t[1..]);
      assert t == [t[0]] + t[1..];
    }
  }

  /** Stable sort by `order` (the library merge sort of the source, written as insertion sort). */
  function SortByOrder(items: seq<FlexItem>, s: seq<nat>): (r: seq<nat>)
    requires InRange(s, |items|)
    ensures |r| == |s|
    ensures InRange(r, |items|)
  {
    if s == [] then [] else Insert(items, s[0], SortByOrder(items, s[1..]))
  }

  lemma {:induction false} SortMultiset(items: seq<FlexItem>, s: seq<nat>)
    requires InRange(s, |items|)
    ensures multiset(SortByOrder(items, s)) == multiset(s)
  {
    if s != [] {
      SortMultiset(items, s[1..]);
      InsertMultiset(items, s[0], SortByOrder(items, s[1..]));
      assert s == [s[0]] + s[1..];
    }
  }

  /** Non-decreasing order, ties broken by position: sorted and stable at once. */
  predicate OrderedByKey(items: seq<FlexItem>, r: seq<nat>)
    requires InRange(r, |items|)
  {
    forall i, j :: 0 <= i < j < |r| ==>
      items[r[i]].order < items[r[j]].order || (items[r[i]].order == items[r[j]].order && r[i] < r[j])
  }

  predicate StrictlyIncreasing(s: seq<nat>) {
    forall i, j :: 0 <= i < j < |s| ==> s[i] < s[j]
  }

  /** `y` goes before every element of `t`. */
  predicate Precedes(items: seq<FlexItem>, y: nat, t: seq<nat>)
    requires y < |items| && InRange(t, |items|)
  {
    forall j :: 0 <= j < |t| ==>
      items[y].order < items[t[j]].order || (items[y].order == items[t[j]].order && y < t[j])
  }

  lemma OrderedCons(items: seq<FlexItem>, y: nat, t: seq<nat>)
    requires y < |items| && InRange(t, |items|)
    requires OrderedByKey(items, t) && Precedes(items, y, t)
    ensures OrderedByKey(items, [y] + t)
  {
    var r := [y] + t;
    forall i, j | 0 <= i < j < |r|
      ensures items[r[i]].order < items[r[j]].order || (items[r[i]].order == items[r[j]].order && r[i] < r[j])
    {
      if i > 0 {
        assert r[i] == t[i - 1] && r[j] == t[j - 1];
      } else {
        assert r[j] == t[j - 1];
      }
    }
  }

  lemma {:induction false} InsertOrdered(items: seq<FlexItem>, x: nat, t: seq<nat>)
    requires x < |items| && InRange(t, |items|)
    requires OrderedByKey(items, t)
    requires forall k :: 0 <= k < |t| ==> x < t[k]
    ensures OrderedByKey(items, Insert(items, x, t))
  {
    if t == [] || items[x].order <= items[t[0]].order {
      forall j | 0 <= j < |t|
        ensures items[x].order < items[t[j]].order || (items[x].order == items[t[j]].order && x < t[j])
      {
        if j > 0 {
          assert items[t[0]].order <= items[t[j]].order;
        }
      }
      OrderedCons(items, x, t);
    } else {
      var rest := Insert(items, x, t[1..]);
      InsertOrdered(items, x, t[1..]);
      InsertMultiset(items, x, t[1..]);
      forall j | 0 <= j < |rest|
        ensures items[t[0]].order < items[rest[j]].order || (items[t[0]].order == items[rest[j]].order && t[0] < rest[j])
      {
        assert rest[j] in multiset(rest);
        assert rest[j] in multiset(t[1..]) + multiset{x};
        if rest[j] != x {
          assert rest[j] in t[1..];
        }
      }
      OrderedCons(items, t[0], rest);
    }
  }

  lemma {:induction false} SortOrdered(items: seq<FlexItem>, s: seq<nat>)
    requires InRange(s, |items|)
    requires StrictlyIncreasing(s)
    ensures OrderedByKey(items, SortByOrder(items, s))
  {
    if s != [] {
      var t := SortByOrder(items, s[1..]);
      SortOrdered(items, s[1..]);
      SortMultiset(items, s[1..]);
      forall k | 0 <= k < |t| ensures s[0] < t[k] {
        assert t[k] in multiset(s[1..]);
      }
      InsertOrdered(items, s[0], t);
    }
  }

  /** The list `sortChildren` produces from the added items. */
  function SortedItems(items: seq<FlexItem>, direction: Option<FlexDirection>): (r: seq<nat>)
    ensures InRange(r, |items|)
  {
    var sorted := SortByOrder(items, Range(|items|));
    if IsDescending(direction) then Reverse(sorted) else sorted
  }

  lemma SortRangeCorrect(items: seq<FlexItem>)
    ensures multiset(SortByOrder(items, Range(|items|))) == multiset(Range(|items|))
    ensures OrderedByKey(items, SortByOrder(items, Range(|items|)))
  {
    assert StrictlyIncreasing(Range(|items|));
    SortOrdered(items, Range(|items|));
    SortMultiset(items, Range(|items|));
  }

  /** The sorted list is a permutation of the positions 0 .. n-1. */
  lemma SortedItemsPermutes(items: seq<FlexItem>, direction: Option<FlexDirection>)
    ensures multiset(SortedItems(items, direction)) == multiset(Range(|items|))
  {
    var sorted := SortByOrder(items, Range(|items|));
    SortRangeCorrect(items);
    if IsDescending(direction) {
      ReverseMultiset(sorted);
    }
  }

  /**
   * In non-reversed directions the sorted list is in non-decreasing order with ties in
   * insertion order; in reversed directions it is the exact reverse of that list.
   */
  lemma SortedItemsOrdered(items: seq<FlexItem>, direction: Option<FlexDirection>)
    ensures !IsDescending(direction) ==> OrderedByKey(items, SortedItems(items, direction))
    ensures IsDescending(direction) ==> OrderedByKey(items, Reverse(SortedItems(items, direction)))
  {
    var sorted := SortByOrder(items, Range(|items|));
    SortRangeCorrect(items);
    if IsDescending(direction) {
      ReverseReverse(sorted);
    }
  }

  lemma {:induction false} ReverseMultiset<T>(s: seq<T>)
    ensures multiset(Reverse(s)) == multiset(s)
  {
    if s != [] {
      ReverseMultiset(s[1..]);
      assert s == [s[0]] + s[1..];
    }
  }

  /** Every position occurs exactly once in the sorted list. */
  lemma SortedItemsIsPermutation(items: seq<FlexItem>, direction: Option<FlexDirection>)
    ensures |SortedItems(items, direction)| == |items|
    ensures forall k :: 0 <= k < |items| ==> k in SortedItems(items, direction)
    ensures forall i, j :: 0 <= i < j < |items| ==> SortedItems(items, direction)[i] != SortedItems(items, direction)[j]
  {
    var r := SortedItems(items, direction);
    SortedItemsPermutes(items, direction);
    PermutationOfRange(r, |items|);
    SortedItemsOrdered(items, direction);
    if IsDescending(direction) {
      OrderedDistinct(items, Reverse(r));
      ReverseDistinct(r);
    } else {
      OrderedDistinct(items, r);
    }
  }

  /** A permutation of 0 .. n-1 has length n and holds each of them. */
  lemma PermutationOfRange(r: seq<nat>, n: nat)
    requires multiset(r) == multiset(Range(n))
    ensures |r| == n && forall k :: 0 <= k < n ==> k in r
  {
    assert |r| == |multiset(r)| == |multiset(Range(n))| == n;
    forall k | 0 <= k < n ensures k in r {
      assert Range(n)[k] == k;
      assert k in multiset(Range(n));
    }
  }

  lemma ReverseDistinct(s: seq<nat>)
    requires forall i, j :: 0 <= i < j < |s| ==> Reverse(s)[i] != Reverse(s)[j]
    ensures forall i, j :: 0 <= i < j < |s| ==> s[i] != s[j]
  {
    var rs := Reverse(s);
    forall i, j | 0 <= i < j < |s| ensures s[i] != s[j] {
      assert rs[|s| - 1 - j] == s[j] && rs[|s| - 1 - i] == s[i];
    }
  }

  /** A list ordered by key (ties by position) repeats no position. */
  lemma OrderedDistinct(items: seq<FlexItem>, r: seq<nat>)
    requires InRange(r, |items|) && OrderedByKey(items, r)
    ensures forall i, j :: 0 <= i < j < |r| ==> r[i] != r[j]
  {
  }

  lemma RangeThree()
    ensures Range(3) == [0, 1, 2]
  {
    assert Range(1) == [0];
    assert Range(2) == [0, 1];
  }

  lemma SortThree(items: seq<FlexItem>)
    requires |items| == 3 && items[0].order == 0 && items[1].order == 0 && items[2].order == -1
    ensures SortByOrder(items, [0, 1, 2]) == [2, 0, 1]
  {
    assert [0, 1, 2][1..] == [1, 2] && [1, 2][1..] == [2] && [2][1..] == [];
    assert SortByOrder(items, [2]) == [2] by {
      assert SortByOrder(items, []) == [];
    }
    assert SortByOrder(items, [1, 2]) == [2, 1] by {
      assert Insert(items, 1, [2]) == [2, 1];
    }
    assert Insert(items, 0, [2, 1]) == [2, 0, 1] by {
      assert Insert(items, 0, [1]) == [0, 1];
    }
  }

  /** Of three items with order 0, 0 and -1, the third moves to the front. */
  lemma OrderMovesItemToFront(a: FlexItem, b: FlexItem, c: FlexItem)
    requires a.order == 0 && b.order == 0 && c.order == -1
    ensures SortedItems([a, b, c], Some(FlexDirection.Row)) == [2, 0, 1]
    ensures SortedItems([a, b, c], Some(FlexDirection.RowReverse)) == [1, 0, 2]
  {
    var items := [a, b, c];
    RangeThree();
    SortThree(items);
    var sorted := SortByOrder(items, Range(|items|));
    assert sorted == [2, 0, 1];
    assert SortedItems(items, Some(FlexDirection.Row)) == sorted;
    assert SortedItems(items, Some(FlexDirection.RowReverse)) == Reverse(sorted);
    assert Reverse([2, 0, 1]) == [1, 0, 2];
  }
}

/**
 Layout engine of the draggable list: the resting top offset ("slot top") of
 every card and the height of the container that holds them.

 Heights are the integer (rounded) card heights measured after layout; a card
 whose height has not been measured yet is laid out with the default height.
 */
module Layout {

  /** Height assumed for a card whose height is not in the table. */
  const DefaultCardHeight: int := 90

  /** Height of card `index`, falling back to the default when the table has no entry. */
  function CardHeight(heights: seq<int>, index: int): (h: int)
    ensures 0 <= index < |heights| ==> h == heights[index]
    ensures !(0 <= index < |heights|) ==> h == DefaultCardHeight
    ensures PositiveHeights(heights) ==> h > 0
  {
    if 0 <= index < |heights| then heights[index] else DefaultCardHeight
  }

  /** Every measured height is positive. */
  predicate PositiveHeights(heights: seq<int>) {
    forall i :: 0 <= i < |heights| ==> heights[i] > 0
  }

  /** Every measured height is non-negative. */
  predicate NonNegativeHeights(heights: seq<int>) {
    forall i :: 0 <= i < |heights| ==> heights[i] >= 0
  }

  /**
   Reference definition of slot `k`'s top: the leading gap, then every earlier
   card followed by one gap, i.e. gap + sum of (height(j) + gap) for j < k.
   */
  function Offset(heights: seq<int>, gap: int, k: nat): int {
    if k == 0 then gap else Offset(heights, gap, k - 1) + CardHeight(heights, k - 1) + gap
  }

  /**
   The accumulating loop that builds the slot tops: `offset` is the running
   top of slot `i`, and each step pushes it and advances past card `i` and a gap.
   */
  function TopsFrom(heights: seq<int>, gap: int, n: nat, i: nat, offset: int): (tops: seq<int>)
    requires i <= n
    requires offset == Offset(heights, gap, i)
    ensures |tops| == n - i
    ensures forall k :: i <= k < n ==> tops[k - i] == Offset(heights, gap, k)
    decreases n - i
  {
    if i == n then []
    else [offset] + TopsFrom(heights, gap, n, i + 1, offset + CardHeight(heights, i) + gap)
  }

  /** Slot tops of a list of `n` cards. */
  function SlotTops(heights: seq<int>, gap: int, n: nat): (tops: seq<int>)
    ensures |tops| == n
    ensures n > 0 ==> tops[0] == gap
    ensures forall i :: 0 < i < n ==> tops[i] == tops[i - 1] + CardHeight(heights, i - 1) + gap
    ensures forall k :: 0 <= k < n ==> tops[k] == Offset(heights, gap, k)
  {
    var tops := TopsFrom(heights, gap, n, 0, gap);
    OffsetsStepByCard(heights, gap, tops);
    tops
  }

  /** A table of reference offsets advances by one card and one gap per slot. */
  lemma OffsetsStepByCard(heights: seq<int>, gap: int, tops: seq<int>)
    requires forall k :: 0 <= k < |tops| ==> tops[k] == Offset(heights, gap, k)
    ensures forall i :: 0 < i < |tops| ==> tops[i] == tops[i - 1] + CardHeight(heights, i - 1) + gap
  {
    forall i | 0 < i < |tops|
      ensures tops[i] == tops[i - 1] + CardHeight(heights, i - 1) + gap
    {
      assert tops[i - 1] == Offset(heights, gap, i - 1);
    }
  }

  /** Top of slot `index`; an index outside the table sits at the leading gap. */
  function SlotTop(tops: seq<int>, gap: int, index: int): (top: int)
    ensures 0 <= index < |tops| ==> top == tops[index]
    ensures !(0 <= index < |tops|) ==> top == gap
  {
    if 0 <= index < |tops| then tops[index] else gap
  }

  /** On a laid-out table, the slot top of an item is its reference offset. */
  lemma SlotTopOfLayout(heights: seq<int>, gap: int, n: nat, index: nat)
    requires index < n
    ensures SlotTop(SlotTops(heights, gap, n), gap, index) == Offset(heights, gap, index)
  {
  }

  /**
   Container height: bottom of the last card plus the trailing gap, or 0 for
   an empty list. It equals the top a further card would be given.
   */
  function ComputedHeight(heights: seq<int>, gap: int, n: nat): (h: int)
    ensures n == 0 ==> h == 0
    ensures n > 0 ==> h == Offset(heights, gap, n)
  {
    var tops := SlotTops(heights, gap, n);
    if |tops| > 0 then SlotTop(tops, gap, n - 1) + CardHeight(heights, n - 1) + gap else 0
  }

  /** With positive heights and a non-negative gap the reference offsets strictly increase. */
  lemma {:induction false} OffsetIncreasing(heights: seq<int>, gap: int, i: nat, j: nat)
    requires PositiveHeights(heights) && gap >= 0
    requires i < j
    ensures Offset(heights, gap, i) < Offset(heights, gap, j)
    decreases j
  {
    assert CardHeight(heights, j - 1) > 0;
    if i < j - 1 {
      OffsetIncreasing(heights, gap, i, j - 1);
    }
  }

  /** With non-negative heights and gap the reference offsets never decrease. */
  lemma {:induction false} OffsetMonotone(heights: seq<int>, gap: int, i: nat, j: nat)
    requires NonNegativeHeights(heights) && gap >= 0
    requires i <= j
    ensures Offset(heights, gap, i) <= Offset(heights, gap, j)
    decreases j
  {
    if i < j {
      assert CardHeight(heights, j - 1) >= 0;
      OffsetMonotone(heights, gap, i, j - 1);
    }
  }

  /** Slot tops are strictly increasing when heights are positive and the gap is non-negative. */
  lemma SlotTopsStrictlyIncreasing(heights: seq<int>, gap: int, n: nat)
    requires PositiveHeights(heights) && gap >= 0
    ensures forall i, j :: 0 <= i < j < n ==> SlotTops(heights, gap, n)[i] < SlotTops(heights, gap, n)[j]
  {
    var tops := SlotTops(heights, gap, n);
    forall i, j | 0 <= i < j < n
      ensures tops[i] < tops[j]
    {
      OffsetIncreasing(heights, gap, i, j);
    }
  }

  /** The container is tall enough for every card and the gap after it. */
  lemma ContainerHoldsEveryCard(heights: seq<int>, gap: int, n: nat)
    requires NonNegativeHeights(heights) && gap >= 0
    ensures forall k :: 0 <= k < n ==>
      SlotTops(heights, gap, n)[k] + CardHeight(heights, k) + gap <= ComputedHeight(heights, gap, n)
  {
    var tops := SlotTops(heights, gap, n);
    forall k | 0 <= k < n
      ensures tops[k] + CardHeight(heights, k) + gap <= ComputedHeight(heights, gap, n)
    {
      OffsetMonotone(heights, gap, k + 1, n);
    }
  }
}

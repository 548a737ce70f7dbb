/**
 Target resolver: the slot a released card settles into is the one whose
 centre is nearest to the dragged card's centre, the first such slot on a tie.

 Centres are half-integers (a top plus half a height), so every centre and
 distance here is kept doubled: comparing doubled distances decides exactly
 what comparing the distances decides.
 */
module Resolver {
  import opened Layout

  /** What the resolver reads of the layout: slot tops, height table and gap. */
  datatype Geometry = Geometry(tops: seq<int>, heights: seq<int>, gap: int)

  /** The resolver's view of the current layout of `n` cards. */
  function GeometryOf(heights: seq<int>, gap: int, n: nat): Geometry {
    Geometry(SlotTops(heights, gap, n), heights, gap)
  }

  function Abs(x: int): nat {
    if x < 0 then -x else x
  }

  function Max(a: int, b: int): int {
    if a < b then b else a
  }

  function Min(a: int, b: int): int {
    if a < b then a else b
  }

  /** Pull `index` into [0, max(length - 1, 0)]. */
  function ClampIndex(index: int, length: int): (r: int)
    ensures 0 <= r <= Max(length - 1, 0)
    ensures 0 <= index < length ==> r == index
    ensures index < 0 ==> r == 0
    ensures length > 0 && index >= length ==> r == length - 1
  {
    Min(Max(index, 0), Max(length - 1, 0))
  }

  /** Top used for slot `k`: its table entry, or an estimate assuming equal cards before it. */
  function SafeTop(g: Geometry, k: int): (top: int)
    ensures 0 <= k < |g.tops| ==> top == g.tops[k]
    ensures !(0 <= k < |g.tops|) ==> top == g.gap + k * (CardHeight(g.heights, k) + g.gap)
  {
    if 0 <= k < |g.tops| then g.tops[k] else g.gap + k * (CardHeight(g.heights, k) + g.gap)
  }

  /** On the widget's own layout, every slot of the list uses its table entry, the reference offset. */
  lemma SafeTopOfLayout(heights: seq<int>, gap: int, n: nat, k: nat)
    requires k < n
    ensures SafeTop(GeometryOf(heights, gap, n), k) == Offset(heights, gap, k)
  {
  }

  /**
   The fallback estimate `gap + k * (height + gap)` is exact when no card up to
   `k` has a measured height: all of them then have the default height.
   */
  lemma {:induction false} FallbackTopExactForUnmeasured(heights: seq<int>, gap: int, k: nat)
    requires |heights| == 0
    ensures gap + k * (CardHeight(heights, k) + gap) == Offset(heights, gap, k)
  {
    if k > 0 {
      FallbackTopExactForUnmeasured(heights, gap, k - 1);
      assert gap + k * (DefaultCardHeight + gap) == gap + (k - 1) * (DefaultCardHeight + gap) + DefaultCardHeight + gap;
    }
  }

  /** Twice the vertical centre of slot `k`. */
  function Centre2(g: Geometry, k: int): int {
    2 * SafeTop(g, k) + CardHeight(g.heights, k)
  }

  /** Twice the distance between the centre of card `active` drawn at `top` and the centre of slot `k`. */
  function Distance2(g: Geometry, top: int, active: int, k: int): nat {
    Abs(2 * top + CardHeight(g.heights, active) - Centre2(g, k))
  }

  /**
   `r` is a slot of a list of `length` cards whose centre is nearest to the
   dragged centre, and no earlier slot is as near.
   */
  predicate NearestFirst(g: Geometry, top: int, active: int, length: nat, r: int) {
    && 0 <= r < length
    && (forall k :: 0 <= k < length ==> Distance2(g, top, active, r) <= Distance2(g, top, active, k))
    && (forall k :: 0 <= k < r ==> Distance2(g, top, active, r) < Distance2(g, top, active, k))
  }

  /**
   The scan over slots `i..length-1`: `closest` is the best slot among the
   first `i`, at distance `smallest`; a later slot replaces it only when
   strictly nearer.
   */
  function Scan(g: Geometry, top: int, active: int, length: nat, i: nat, closest: nat, smallest: int): (r: int)
    requires 1 <= i <= length && closest < i
    requires smallest == Distance2(g, top, active, closest)
    requires forall k :: 0 <= k < i ==> smallest <= Distance2(g, top, active, k)
    requires forall k :: 0 <= k < closest ==> smallest < Distance2(g, top, active, k)
    ensures NearestFirst(g, top, active, length, r)
    decreases length - i
  {
    if i == length then closest
    else
      var delta := Distance2(g, top, active, i);
      if delta < smallest then Scan(g, top, active, length, i + 1, i, delta)
      else Scan(g, top, active, length, i + 1, closest, smallest)
  }

  /**
   Slot that card `active`, currently drawn at `top`, settles into in a list
   of `length` cards; 0 for an empty list.
   */
  function TargetIndexFromPosition(top: int, active: int, g: Geometry, length: nat): (r: int)
    ensures length == 0 ==> r == 0
    ensures length > 0 ==> NearestFirst(g, top, active, length, r)
  {
    if length == 0 then 0
    else ClampIndex(Scan(g, top, active, length, 1, 0, Distance2(g, top, active, 0)), length)
  }

  /** The nearest-first slot is unique, so the resolver's contract determines its result. */
  lemma NearestFirstUnique(g: Geometry, top: int, active: int, length: nat, r1: int, r2: int)
    requires NearestFirst(g, top, active, length, r1)
    requires NearestFirst(g, top, active, length, r2)
    ensures r1 == r2
  {
    // Both are nearest, so they are equally near; whichever came first would be strictly nearer.
    assert Distance2(g, top, active, r1) == Distance2(g, top, active, r2);
  }

  /** In a laid-out list with positive heights, slot centres strictly increase. */
  lemma CentresIncreasing(heights: seq<int>, gap: int, n: nat, i: nat, j: nat)
    requires PositiveHeights(heights) && gap >= 0
    requires i < j < n
    ensures Centre2(GeometryOf(heights, gap, n), i) < Centre2(GeometryOf(heights, gap, n), j)
  {
    assert NonNegativeHeights(heights);
    OffsetMonotone(heights, gap, i + 1, j);
    assert CardHeight(heights, i) > 0 && CardHeight(heights, j) > 0;
  }

  /**
   A card released exactly at its own slot, without having moved, resolves
   to its own index.
   */
  lemma TargetAtRest(heights: seq<int>, gap: int, n: nat, active: nat)
    requires PositiveHeights(heights) && gap >= 0
    requires active < n
    ensures TargetIndexFromPosition(SlotTops(heights, gap, n)[active], active, GeometryOf(heights, gap, n), n) == active
  {
    var g := GeometryOf(heights, gap, n);
    var top := g.tops[active];
    var r := TargetIndexFromPosition(top, active, g, n);
    assert Distance2(g, top, active, active) == 0;
    assert Distance2(g, top, active, r) == 0;
    // A later slot cannot win: the active slot is at distance 0 and comes first.
    if r < active {
      CentresIncreasing(heights, gap, n, r, active);
    }
  }

  /** Four cards of height 90 with no gap: slot tops 0, 90, 180 and 270. */
  function FourEqualCards(): Geometry {
    GeometryOf([90, 90, 90, 90], 0, 4)
  }

  /** Twice the distances of the four slot centres (90, 270, 450, 630 doubled) from a card drawn at `top`. */
  lemma FourEqualCardsDistances(top: int)
    ensures Distance2(FourEqualCards(), top, 0, 0) == Abs(2 * top + 90 - 90)
    ensures Distance2(FourEqualCards(), top, 0, 1) == Abs(2 * top + 90 - 270)
    ensures Distance2(FourEqualCards(), top, 0, 2) == Abs(2 * top + 90 - 450)
    ensures Distance2(FourEqualCards(), top, 0, 3) == Abs(2 * top + 90 - 630)
  {
    assert FourEqualCards().tops == [0, 90, 180, 270];
  }

  /**
   Dragging the first of four equal cards downwards: at top 225 its centre is
   exactly between the centres of slots 2 and 3 and the tie goes to slot 2;
   one pixel further it resolves to slot 3.
   */
  lemma BoundaryBetweenSlotsTwoAndThree()
    ensures TargetIndexFromPosition(224, 0, FourEqualCards(), 4) == 2
    ensures TargetIndexFromPosition(225, 0, FourEqualCards(), 4) == 2
    ensures TargetIndexFromPosition(226, 0, FourEqualCards(), 4) == 3
  {
    FourEqualCardsDistances(224);
    FourEqualCardsDistances(225);
    FourEqualCardsDistances(226);
  }
}

/**
 The drag session of the list widget as an explicit state machine.

 The widget state is the working copy of the items, the height table aligned
 with it, and the drag record. A press on a card's handle starts a session,
 pointer moves shift the dragged card, and a release (or the pointer leaving
 the container, which runs the same handler) resolves the target slot,
 applies one move to items and heights alike, and ends the session.
 Host notifications are returned as values instead of being called.
 */
module DragSession {
  import opened Layout
  import opened Resolver
  import opened Reorder
  import opened Resync

  datatype Option<T> = None | Some(value: T)

  /**
   The drag record: the dragged index (-1 when idle), the pointer's vertical
   coordinate at the press, the card's slot top at the press, and its live top
   (absent until a session starts).
   */
  datatype DragInfo = DragInfo(activeIndex: int, startY: int, startTop: int, dragTop: Option<int>)

  /** The record of an idle widget. */
  const InitialDragInfo: DragInfo := DragInfo(-1, 0, 0, None)

  predicate Dragging(info: DragInfo) {
    info.activeIndex != -1
  }

  /** Where the dragged card is drawn: its live top, or its start top before any move. */
  function LiveTop(info: DragInfo): (top: int)
    ensures info.dragTop.Some? ==> top == info.dragTop.value
    ensures info.dragTop.None? ==> top == info.startTop
  {
    match info.dragTop
    case Some(t) => t
    case None => info.startTop
  }

  /** State of the widget: working items, height table and drag record. */
  datatype Board<T> = Board(items: seq<T>, heights: seq<int>, drag: DragInfo)

  /** What the host is told about a transition. */
  datatype Notice<T> =
    | Silent
    | DragStarted(startIndex: int)
    | DragEnded(startIndex: int, endIndex: int, nextItems: seq<T>)

  datatype Step<T> = Step(board: Board<T>, notice: Notice<T>)

  /**
   The widget's structural invariant: one height per item, and a dragged
   index, if any, names an item.
   */
  predicate Valid<T>(b: Board<T>) {
    && |b.heights| == |b.items|
    && (!Dragging(b.drag) || 0 <= b.drag.activeIndex < |b.items|)
  }

  /** Geometry the widget currently lays its cards out with. */
  function BoardGeometry<T>(b: Board<T>, gap: int): Geometry {
    GeometryOf(b.heights, gap, |b.items|)
  }

  /** First state for the host's data: a copy of the items, default heights, no drag. */
  function Mount<T>(data: seq<T>): (b: Board<T>)
    ensures Valid(b) && !Dragging(b.drag)
    ensures b.items == data
    ensures forall i :: 0 <= i < |b.heights| ==> b.heights[i] == DefaultCardHeight
  {
    Board(data, DefaultHeights(|data|), InitialDragInfo)
  }

  /**
   The host supplies a new data collection: the working items are replaced and
   the height table is resynchronised to the new length. The drag record is
   left as it is.
   */
  function DataChanged<T>(b: Board<T>, data: seq<T>): (r: Board<T>)
    ensures r.items == data && r.drag == b.drag
    ensures |r.heights| == |r.items|
    ensures forall i :: 0 <= i < |data| && i < |b.heights| ==> r.heights[i] == b.heights[i]
    ensures forall i :: |b.heights| <= i < |data| ==> r.heights[i] == DefaultCardHeight
    ensures !Dragging(b.drag) || b.drag.activeIndex < |data| ==> (Valid(b) ==> Valid(r))
  {
    Board(data, ResyncHeights(|data|, b.heights), b.drag)
  }

  /**
   Press on the handle of card `index` with the pointer at `clientY`: the
   session starts with the card at its slot top.
   */
  function MouseDown<T>(b: Board<T>, gap: int, index: int, clientY: int): (s: Step<T>)
    ensures s.board.items == b.items && s.board.heights == b.heights
    ensures s.board.drag.activeIndex == index && s.board.drag.startY == clientY
    ensures LiveTop(s.board.drag) == s.board.drag.startTop
    ensures 0 <= index < |b.items| ==> s.board.drag.startTop == Offset(b.heights, gap, index)
    ensures s.notice == DragStarted(index)
    ensures Valid(b) && 0 <= index < |b.items| ==> Valid(s.board)
  {
    var startingTop := SlotTop(SlotTops(b.heights, gap, |b.items|), gap, index);
    Step(b.(drag := DragInfo(index, clientY, startingTop, Some(startingTop))), DragStarted(index))
  }

  /**
   Pointer moved to `clientY`. While dragging, the card is displaced from its
   start top exactly as far as the pointer is from the press, without
   clamping; when idle nothing changes.
   */
  function MouseMove<T>(b: Board<T>, clientY: int): (r: Board<T>)
    ensures !Dragging(b.drag) ==> r == b
    ensures r.items == b.items && r.heights == b.heights
    ensures r.drag.activeIndex == b.drag.activeIndex
    ensures r.drag.startY == b.drag.startY && r.drag.startTop == b.drag.startTop
    ensures Dragging(b.drag) ==> r.drag.dragTop.Some?
    ensures Dragging(b.drag) ==> LiveTop(r.drag) - r.drag.startTop == clientY - r.drag.startY
    ensures Valid(b) ==> Valid(r)
  {
    if !Dragging(b.drag) then b
    else
      var deltaY := clientY - b.drag.startY;
      b.(drag := b.drag.(dragTop := Some(b.drag.startTop + deltaY)))
  }

  /** Slot the dragged card would settle into if released now. */
  function ReleaseTarget<T>(b: Board<T>, gap: int): (target: int)
    ensures |b.items| == 0 ==> target == 0
    ensures |b.items| > 0 ==> 0 <= target < |b.items|
    ensures |b.items| > 0 ==> NearestFirst(BoardGeometry(b, gap), LiveTop(b.drag), b.drag.activeIndex, |b.items|, target)
  {
    TargetIndexFromPosition(LiveTop(b.drag), b.drag.activeIndex, BoardGeometry(b, gap), |b.items|)
  }

  /**
   Pointer released (or left the container). An idle widget ignores it.
   Otherwise the target slot is resolved; if it differs from the dragged
   index, the same move is applied to items and heights and the host is told;
   the session ends either way.
   */
  function MouseUp<T>(b: Board<T>, gap: int): (s: Step<T>)
    requires Valid(b)
    ensures Valid(s.board)
    ensures !Dragging(b.drag) ==> s == Step(b, Silent)
    ensures Dragging(b.drag) ==> s.board.drag == InitialDragInfo
    ensures multiset(s.board.items) == multiset(b.items)
    ensures multiset(Zip(s.board.items, s.board.heights)) == multiset(Zip(b.items, b.heights))
    ensures Dragging(b.drag) ==>
      var start, target := b.drag.activeIndex, ReleaseTarget(b, gap);
      && NearestFirst(BoardGeometry(b, gap), LiveTop(b.drag), start, |b.items|, target)
      && (target == start ==> s.board.items == b.items && s.board.heights == b.heights && s.notice == Silent)
      && (target != start ==>
            && s.board.items[target] == b.items[start]
            && s.board.heights[target] == b.heights[start]
            && RemoveAt(s.board.items, target) == RemoveAt(b.items, start)
            && RemoveAt(s.board.heights, target) == RemoveAt(b.heights, start)
            && s.notice == DragEnded(start, target, s.board.items))
  {
    if !Dragging(b.drag) then Step(b, Silent)
    else
      var start := b.drag.activeIndex;
      var target := ReleaseTarget(b, gap);
      if target != start then
        var nextItems := MoveItem(b.items, start, target);
        var nextHeights := MoveItem(b.heights, start, target);
        MoveItemZip(b.items, b.heights, start, target);
        Step(Board(nextItems, nextHeights, InitialDragInfo), DragEnded(start, target, nextItems))
      else
        Step(b.(drag := InitialDragInfo), Silent)
  }

  /** Only the last pointer move before a release matters. */
  lemma LastMoveWins<T>(b: Board<T>, y1: int, y2: int)
    ensures MouseMove(MouseMove(b, y1), y2) == MouseMove(b, y2)
  {
  }

  /**
   Releasing a card that is drawn exactly at its own slot top keeps the order
   and ends silently.
   */
  lemma ReleaseAtRestKeepsOrder<T>(b: Board<T>, gap: int)
    requires Valid(b) && Dragging(b.drag)
    requires PositiveHeights(b.heights) && gap >= 0
    requires LiveTop(b.drag) == SlotTops(b.heights, gap, |b.items|)[b.drag.activeIndex]
    ensures var s := MouseUp(b, gap);
      s.board.items == b.items && s.board.heights == b.heights && s.notice == Silent
  {
    TargetAtRest(b.heights, gap, |b.items|, b.drag.activeIndex);
  }

  /**
   Pressing a handle and releasing without net pointer movement never
   reorders anything and ends silently.
   */
  lemma ClickKeepsOrder<T>(b: Board<T>, gap: int, index: int, y: int)
    requires Valid(b) && 0 <= index < |b.items|
    requires PositiveHeights(b.heights) && gap >= 0
    ensures var s := MouseUp(MouseDown(b, gap, index, y).board, gap);
      s.board.items == b.items && s.board.heights == b.heights && s.notice == Silent
    ensures var s := MouseUp(MouseMove(MouseDown(b, gap, index, y).board, y), gap);
      s.board.items == b.items && s.board.heights == b.heights && s.notice == Silent
  {
    var pressed := MouseDown(b, gap, index, y).board;
    ReleaseAtRestKeepsOrder(pressed, gap);
    ReleaseAtRestKeepsOrder(MouseMove(pressed, y), gap);
  }

  /** Four cards of height 90 with no gap, nobody dragging. */
  function FourCards(): Board<char> {
    Board("ABCD", [90, 90, 90, 90], InitialDragInfo)
  }

  /** The first of four equal cards, pressed at 100 and dragged to `y`. */
  function FirstCardDraggedTo(y: int): (b: Board<char>)
    ensures b == Board("ABCD", [90, 90, 90, 90], DragInfo(0, 100, 0, Some(y - 100)))
  {
    MouseMove(MouseDown(FourCards(), 0, 0, 100).board, y)
  }

  /** Where the first of four equal cards dragged to `y` resolves to. */
  lemma FirstCardTarget(y: int)
    ensures ReleaseTarget(FirstCardDraggedTo(y), 0) == TargetIndexFromPosition(y - 100, 0, FourEqualCards(), 4)
  {
    var b := FirstCardDraggedTo(y);
    assert LiveTop(b.drag) == y - 100;
    assert BoardGeometry(b, 0) == FourEqualCards();
  }

  /**
   Dragging the first of four equal cards 225 pixels down puts its centre
   exactly between slots 2 and 3, and the tie sends it to slot 2.
   */
  lemma DragFirstCardToTie()
    ensures var s := MouseUp(FirstCardDraggedTo(325), 0);
      s.board.items == "BCAD" && s.notice == DragEnded(0, 2, "BCAD")
  {
    FirstCardTarget(325);
    BoundaryBetweenSlotsTwoAndThree();
    MoveItemExamples();
  }

  /** One pixel further than the tie, the first of four equal cards lands at the end. */
  lemma DragFirstCardPastTie()
    ensures var s := MouseUp(FirstCardDraggedTo(326), 0);
      s.board.items == "BCDA" && s.notice == DragEnded(0, 3, "BCDA")
  {
    FirstCardTarget(326);
    BoundaryBetweenSlotsTwoAndThree();
    MoveItemExamples();
  }
}

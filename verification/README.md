# Draggable list: layout, target resolution, reordering and drag session

This project models the logic core of the `PerdanaDraggableList` React widget
(`src/index.js`): a vertical stack of cards that the user grabs by a handle,
drags, and drops into a new position. The React component is lifted into five
pure pieces, one Dafny module each:

- `Layout` (`layout.dfy`): the slot top of every card, built by the same
  accumulating loop as the `slotTops` memo, with the missing-height fallback
  `defaultCardHeight = 90`; the container height `computedHeight`.
- `Resolver` (`resolver.dfy`): `clampIndex` and `targetIndexFromPosition`, the
  nearest-centre search with strict `<` (ties go to the first slot). Centres are
  `top + height/2`; the model compares doubled centres `2*top + height` over
  `int`, which decides every comparison exactly as the halves do.
- `Reorder` (`reorder.dfy`): `moveItem`, the splice "remove at `from`, insert
  at `to`", with its no-op cases.
- `Resync` (`resync.dfy`): `arraysEqual` and the height-table resynchronisation
  run when the host passes new `data`.
- `DragSession` (`drag.dfy`): the widget state (items, heights, drag record
  `{activeIndex, startY, startTop, dragTop}`) and the transitions for mount, new
  data, `handleMouseDown`, `handleMouseMove` and `handleMouseUp`. Host callbacks
  (`onDragStart`, `onDragEnd`) are returned as a `Notice` value. The container's
  `onMouseLeave` runs the same handler as `onMouseUp`, so a pointer leaving the
  container is the `MouseUp` transition.

Main results:

- `Valid` (items and heights have the same length, and an active drag index
  names an item) is established by `Mount` and kept by `MouseMove` and
  `MouseUp` unconditionally. `MouseDown` keeps it when the pressed index names an
  item. `DataChanged` keeps it when no drag is active or the active index is
  still below the new length; a drag that outlives a shrinking data change is
  not covered (see the `DragSession.MouseUp` line under "## Left out").
- A move is a permutation that keeps every item paired with its own height.
- The resolved target is always in bounds and is the unique first nearest slot.
- With positive heights and a non-negative gap, a card released where it was
  picked up never reorders anything. With zero-height cards two slots can share
  a centre, and the tie then goes to the earlier slot.

On new data the height table keeps the old heights at matching indices
(src/index.js:60). The code's gap default is 12 (src/index.js:36); the JSDoc
comment at src/index.js:27 says 0. The gap is a parameter of every layout
function.

## Model

| member | source | states |
|---|---|---|
| Layout.TopsFrom | src/index.js:102-109 | the accumulating loop yields one top per remaining slot, each equal to the leading gap plus the heights and gaps of all earlier cards |
| Layout.SlotTops | src/index.js:101-110 | one top per item; the first is `gap`; each next top is the previous plus that card's height (90 if unmeasured) plus `gap`; each equals gap + sum of (height + gap) over earlier cards |
| Layout.OffsetsStepByCard | src/index.js:105-107 | consecutive slot offsets differ by exactly one card height plus one gap |
| Layout.CardHeight | src/index.js:105-117 | a card's height is its table entry when there is one, otherwise 90 (`getCardHeight`, `cardHeights[i] ?? defaultCardHeight`); positive whenever all measured heights are |
| Layout.SlotTop | src/index.js:116 | `slotTop`: the table entry for an in-range index, otherwise `gap` |
| Layout.SlotTopOfLayout | src/index.js:101-116 | on the widget's own slot table, `slotTop` of an item equals its reference offset |
| Layout.ComputedHeight | src/index.js:208-209 | container height is 0 for no items, otherwise the top that one further card would get (bottom of last card plus trailing gap) |
| Layout.OffsetIncreasing | src/index.js:101-110 | with positive heights and a non-negative gap, a later slot's offset is strictly larger |
| Layout.OffsetMonotone | src/index.js:101-110 | with non-negative heights and gap, offsets never decrease |
| Layout.SlotTopsStrictlyIncreasing | src/index.js:101-110 | with positive heights and a non-negative gap the slot tops strictly increase |
| Layout.ContainerHoldsEveryCard | src/index.js:208-209 | every card's bottom plus the gap after it fits inside the container height |
| Resolver.ClampIndex | src/index.js:118-119 | result lies in [0, max(length-1, 0)]; an in-range index is returned unchanged; below 0 gives 0; past the end gives length-1 |
| Resolver.SafeTop | src/index.js:130-131 | `safeTop`: the slot-table entry when present, otherwise the estimate `gap + k * (safeHeight(k) + gap)` |
| Resolver.SafeTopOfLayout | src/index.js:130-131 | on the widget's own slot table, every slot of the list reads its table entry, the reference offset |
| Resolver.FallbackTopExactForUnmeasured | src/index.js:131 | with no measured heights, the fallback estimate equals the reference offset exactly |
| Resolver.Scan | src/index.js:135-145 | the scan returns a slot of minimum distance to the dragged centre with no earlier slot as near (strict `<` keeps the first minimum) |
| Resolver.TargetIndexFromPosition | src/index.js:121-148 | 0 for an empty list; otherwise an in-bounds slot whose centre is nearest the dragged card's centre, the lowest such index on ties |
| Resolver.NearestFirstUnique | src/index.js:138-145 | at most one slot is the first nearest one, so the resolver's result is fully determined by its contract |
| Resolver.CentresIncreasing | src/index.js:130-139 | in a laid-out list with positive heights and non-negative gap, slot centres strictly increase with the index |
| Resolver.TargetAtRest | src/index.js:133-147 | a card drawn exactly at its own slot top resolves to its own index |
| Resolver.BoundaryBetweenSlotsTwoAndThree | src/index.js:133-147 | four cards of height 90, gap 0, first card dragged to top 224 or 225 resolves to slot 2 (225 is the tie), at 226 to slot 3 |
| Reorder.RemoveInsert | src/index.js:14-15 | inserting at an index and removing at the same index gives the list back |
| Reorder.InsertRemove | src/index.js:14-15 | removing an element and reinserting it at its own index gives the list back |
| Reorder.RemoveInsertPermutes | src/index.js:13-15 | a remove followed by an insert of the same element keeps the multiset |
| Reorder.MoveItem | src/index.js:11-17 | unchanged list when `from == to` or the list is empty; otherwise same length, same multiset, the moved element sits at `to`, and removing it leaves the other elements in their original order |
| Reorder.MoveItemIndex | src/index.js:13-16 | element-wise: the moved element lands at `to`, elements between `from` and `to` shift one place towards `from`, all others keep their index |
| Reorder.MoveItemInverse | src/index.js:11-17 | moving back from `to` to `from` restores the original list |
| Reorder.MoveItemExamples | src/index.js:11-17 | `[A,B,C,D]` moved 0 to 3 is `[B,C,D,A]`; moved 0 to 2 is `[B,C,A,D]`; moved 3 to 0 is `[D,A,B,C]` |
| Reorder.MoveItemZip | src/index.js:188-190 | the same move on items and on heights equals moving the (item, height) pairs: every item keeps its height |
| Resync.ArraysEqual | src/index.js:8-9 | the length-and-every-index comparison holds exactly when the two lists are equal |
| Resync.DefaultHeights | src/index.js:48 | the initial table has one entry per item, each the default height 90 |
| Resync.ResyncHeights | src/index.js:59-63 | new table has the data's length, keeps previous heights at matching indices and holds 90 past the previous table's end |
| Resync.ResyncTruncates | src/index.js:60 | for shorter data the new table is a prefix of the previous one |
| Resync.ResyncPads | src/index.js:60 | for longer data the new table is the previous one followed by default heights |
| Resync.ResyncKeepsAlignedTable | src/index.js:60-62 | a table already of the data's length is kept as it is |
| Resync.ResyncIdempotent | src/index.js:59-63 | resynchronising twice to the same length equals doing it once |
| Resync.ResyncFromNothing | src/index.js:48 | with no previous measurements every entry is the default height |
| DragSession.Mount | src/index.js:47-49 | the first state holds the host's items, one default height per item, and no drag |
| DragSession.DataChanged | src/index.js:57-64 | new data replaces the items, the heights are resynchronised to the same length, and the drag record is left unchanged |
| DragSession.MouseDown | src/index.js:150-162 | the session records the index and press coordinate, start top and live top both equal the card's slot top, items and heights are untouched, and a drag-start notice is emitted |
| DragSession.MouseMove | src/index.js:164-172 | idle: nothing changes; dragging: the live top is set (no longer null) and equals the start top plus the pointer displacement, unclamped, and nothing else changes |
| DragSession.LiveTop | src/index.js:179 | `info.dragTop ?? info.startTop`: the live top when set, otherwise the start top |
| DragSession.ReleaseTarget | src/index.js:180-186 | the release target is 0 for an empty list, otherwise an in-bounds first nearest slot for the dragged card at its live top on the current layout |
| DragSession.MouseUp | src/index.js:174-199 | idle: nothing changes; dragging: the target is the first nearest slot; equal target leaves items and heights alone and is silent; otherwise one move is applied to both, each item keeps its height, a drag-end notice carries the new items; the session always resets; lengths stay equal |
| DragSession.LastMoveWins | src/index.js:164-172 | only the last pointer move determines the live top |
| DragSession.ReleaseAtRestKeepsOrder | src/index.js:174-195 | releasing a card drawn exactly at its slot top keeps items and heights and emits no drag-end notice |
| DragSession.ClickKeepsOrder | src/index.js:150-199 | press then release, with or without a move back to the press coordinate, keeps the order and emits no drag-end notice |
| DragSession.FirstCardDraggedTo | src/index.js:150-172 | pressing the first of four cards at 100 and moving to `y` gives a session on index 0 with start top 0 and live top `y - 100` |
| DragSession.FirstCardTarget | src/index.js:179-186 | releasing that session resolves the target from live top `y - 100`, the dragged index 0 and the current layout of the four cards |
| DragSession.DragFirstCardToTie | src/index.js:174-199 | four cards of height 90, gap 0: dragging the first down 225 px (centre exactly between slots 2 and 3) drops it in slot 2, giving `BCAD` and a drag-end notice (0, 2) |
| DragSession.DragFirstCardPastTie | src/index.js:174-199 | dragging it 226 px drops it last, giving `BCDA` and a drag-end notice (0, 3) |

## Left out

- Measuring card heights (`measureHeights`, `getBoundingClientRect`) and the layout effect that replaces the table with fresh measurements after layout (src/index.js:19-20, 78-85): they read the DOM. Heights are an input integer table.
- Window `mousemove`/`mouseup` listener registration and removal, and the effects that copy state into refs (src/index.js:51-55, 66-76, 87-99, 112-114): React and event plumbing. The transitions read the current state directly, which is what the refs hold once synced.
- Rendering (`Card`, class names, handle icon, `renderItem`), `event.preventDefault()` and `console.log` (src/index.js:61, 161, 201-241): UI and side effects. Callbacks are returned as a `Notice` value instead of being called.
- Pointer coordinates and the gap are integers; browsers may report fractional coordinates, and JavaScript numbers are floating point.
- Reorder.MoveItem: requires both indices in range (or a no-op case). With `from` past the end, the source removes nothing and inserts `fallback` (or `undefined`), growing the list; that path is excluded, and so the `fallback` argument is not modelled.
- DragSession.MouseUp: requires `Valid`, so a release after new data shrank the list under an active drag (which would reach the out-of-range path of `moveItem` above) is not modelled.
- Resync.ResyncHeights: returning the previous table object when it is element-wise equal only matters for React's reference identity; with value semantics both branches give the same table.

# AccordionView in Dafny

A model of the `AccordionView` control from the AccordionView sample: a
vertical stack of header/content panels in a scroll view. Tapping a header
opens or closes its panel under one of three display modes. A layout pass
restacks every panel below a running cursor. The scroll offset is then
settled so that a just-opened panel is fully visible. On every scroll, the
header of an open panel sticks to the top of the viewport.

Modules:

- `AccordionTypes` defines the values: rectangles, sizes, entries, the
  display mode, the setter's error kinds and `Outcome`.
- `Selection` holds the setter's validation rules and the list a tap
  proposes, with their lemmas.
- `Layout` holds the layout pass as functions of the registry and the
  selection (`Cursor`, `LaidOut`, `LayoutAll`), with lemmas about
  placement, totals and idempotence.
- `Scrolling` holds the settled offset (`ScrollTarget`) and the
  sticky-header pass (`StickyHeader`, `StickyAll`).
- `Accordion` holds the class `AccordionView`. Its fields are the
  control's state: the entry registry, the selection, the just-opened mark,
  the mode, the frame and the scroll view's frame height, content size and
  offset, and a counter of `SelectionChanged` events. Its loops are proved
  against the functions above.
- `Scenarios` is client code running short sessions against the class
  contracts.

Coordinates are C# `float` values that are only added, subtracted and
compared; the model uses `int`. A header button is modelled by its frame
`Rect`. A content view is modelled by its frame and its `Hidden` flag. An
entry stores both frames, `OriginalSize`, a pending "hide when the animation
completes" flag, and the index its tap callback is bound to. A `null`
argument is `None`, and a thrown exception is a `Fail(...)` outcome that
leaves the state unchanged.

Three behaviours of the code worth knowing:

- **Header frames in the layout pass.** The pass writes a header frame
  only inside the branch taken when the content frame changed
  (`AccordionView_Sample/AccordionView.cs:275-281`). So a header is moved to
  the cursor only when its content frame changes. It is also at the cursor
  when the header already sat on its content. It is not moved on every pass.
- **The just-opened mark.** A tap sets or clears the mark before calling
  the selection setter. The mark therefore changes even when the setter
  then rejects the list.
- **The sticky pass.** Inside a band, the band top minus the offset is
  never positive. So for any header of positive height, the `normal`
  branch is never taken. Inside its band the header is pinned to the
  offset, which is `max(bandTop, offset)`. A header of height 0 is the
  exception: with the offset exactly on the band top, the `normal` branch
  runs. It assigns the viewport-relative value 0 as a content coordinate,
  so the header lands at y = 0, above its band (`Scrolling.StickyZeroHeightHeader`).

## Model

| member | source | states |
|---|---|---|
| `Selection.AnyOutOfRange` | AccordionView_Sample/AccordionView.cs:179 | true exactly when some index of the list lies outside `[0, count)` |
| `Selection.Validate` | AccordionView_Sample/AccordionView.cs:170-182 | `Pass` exactly when the list is admissible: at most one index outside multiple selection, exactly one in the always-open mode, all indexes registered. Each error kind is returned exactly under its own condition, in the source's check order |
| `Selection.RemoveFirst` | AccordionView_Sample/AccordionView.cs:158 | a list without `x` is returned unchanged; otherwise the result is one shorter, and its multiset loses exactly one `x` |
| `Selection.RemoveFirstSplits` | AccordionView_Sample/AccordionView.cs:158 | removal cuts out exactly the first occurrence: the part before it and the part after it are kept in order |
| `Selection.ToggleCandidateCases` | AccordionView_Sample/AccordionView.cs:143-160 | tapping a closed index appends it (multiple selection) or proposes exactly `[index]` (other modes); tapping an open index proposes nothing in the always-open mode, and otherwise proposes the list with one occurrence removed |
| `Selection.ToggleKeepsAdmissible` | AccordionView_Sample/AccordionView.cs:141-182 | from an admissible selection, a tap on a registered index never proposes a list that the setter rejects |
| `Selection.AlwaysOpenCandidateIsSingle` | AccordionView_Sample/AccordionView.cs:147-157 | in the always-open mode every proposal a tap makes is a single index, so a tap never empties the selection |
| `Selection.RemoveFirstAppended` | AccordionView_Sample/AccordionView.cs:151-158 | removing an index just appended to a list that lacked it gives the list back |
| `Selection.ToggleTwiceRestores` | AccordionView_Sample/AccordionView.cs:141-162 | in multiple selection, opening and then closing the same index restores the selection |
| `Layout.LaidOut` | AccordionView_Sample/AccordionView.cs:252-289 | one step at cursor `c`: the content starts at `c` + header height, with its original height if selected and 0 otherwise, at its old x and width. A changed content frame moves the header to `c` and leaves a hide pending exactly for a closed entry. An unchanged frame leaves the header and its pending completion as they were. A header attached to its content ends at `c` either way. A selected view is shown; a closed one keeps its visibility |
| `Layout.LayoutAllAt` | AccordionView_Sample/AccordionView.cs:251-290 | entry `i` of the pass is that entry laid out at the cursor left by entries `0..i-1` |
| `Layout.LayoutPlacement` | AccordionView_Sample/AccordionView.cs:257-281 | content y = cursor + header height; content height = original height iff selected, else 0; the content ends at the next cursor; x and width are kept. The header goes to the cursor when the content frame changed, stays put when it did not, and is at the cursor whenever it was attached to its content |
| `Layout.LayoutVisibility` | AccordionView_Sample/AccordionView.cs:261-288 | a selected view is shown at once. A closed view keeps its visibility, with a hide-on-completion pending exactly when its frame changed. An unchanged frame issues no new completion |
| `Layout.LayoutKeepsCursor` | AccordionView_Sample/AccordionView.cs:257-273 | a pass keeps header heights and original sizes, so a second pass meets the same cursor at every entry |
| `Layout.CursorIsStackHeight` | AccordionView_Sample/AccordionView.cs:249-292 | the cursor after `k` entries, and so the returned total, equals the sum of header height plus content height over the first `k` laid-out entries |
| `Layout.LayoutIdempotent` | AccordionView_Sample/AccordionView.cs:251-290 | a second pass with the same selection changes nothing |
| `Layout.CursorMonotone` | AccordionView_Sample/AccordionView.cs:257-273 | with no negative heights, the cursor never moves up |
| `Scrolling.ScrollTarget` | AccordionView_Sample/AccordionView.cs:202-223 | the settled offset is non-negative. It reveals the bottom of a just-opened entry, and is at least the lowered offset `min(offset, total - viewport)`. It is one of 0, the lowered offset, or the needed reveal offset |
| `Scrolling.ScrollTargetInRange` | AccordionView_Sample/AccordionView.cs:202-223 | when the revealed bottom lies within the content, the settled offset is at most `max(0, total - viewport)`; an in-range offset is kept when nothing was just opened |
| `Scrolling.StickyHeader` | AccordionView_Sample/AccordionView.cs:299-328 | only the header's y can change; an entry with content height 0 is untouched |
| `Scrolling.StickyHeaderPosition` | AccordionView_Sample/AccordionView.cs:309-326 | for positive heights: inside the band the header is at the offset (never above the band top); outside the band it rests on its content |
| `Scrolling.StickyHeaderIdempotent` | AccordionView_Sample/AccordionView.cs:297-330 | running the sticky step twice at one offset is the same as running it once |
| `Scrolling.StickyAllAt` | AccordionView_Sample/AccordionView.cs:297-330 | entry `i` of the sticky pass is the sticky step applied to entry `i` alone |
| `Scrolling.StickyKeepsCallbacks` | AccordionView_Sample/AccordionView.cs:297-330 | the sticky pass keeps every entry's callback index |
| `Layout.LayoutKeepsCallbacks` | AccordionView_Sample/AccordionView.cs:251-290 | the layout pass keeps every entry's callback index |
| `Scrolling.RevealWithinContent` | AccordionView_Sample/AccordionView.cs:209-216 | the bottom of a selected just-opened entry whose header is attached after the pass is the cursor past it; the settled offset then stays within the scrollable range |
| `Scrolling.RevealPastContent` | AccordionView_Sample/AccordionView.cs:209-216 | a just-opened mark names an entry that was then laid out closed. Its bottom is read with the full original height, so the settled offset (565) passes `max(0, total - viewport)` (0) |
| `Scrolling.StickyZeroHeightHeader` | AccordionView_Sample/AccordionView.cs:310-320 | a header of height 0, with the offset on its band top, is placed at y = 0 by the `normal` branch, above its band at 50 |
| `Scrolling.StickyAfterLayout` | AccordionView_Sample/AccordionView.cs:237-238 | after layout and the sticky pass, a selected entry's content frame is the laid-out one, and its header is at the offset inside its band and at the cursor outside it |
| `Accordion.LayoutEntry` | AccordionView_Sample/AccordionView.cs:252-289 | the loop body for one entry computes `LaidOut` and moves the cursor past the entry's band |
| `Accordion.AccordionView.constructor` | AccordionView_Sample/AccordionView.cs:69-92 | empty registry and selection, always-open mode, header height 45, a scroll view with the control's frame, no events raised |
| `Accordion.AccordionView.Add` | AccordionView_Sample/AccordionView.cs:104-139 | a null header, or a null view, fails with the registry unchanged. Otherwise exactly one entry is appended. It records the view's prior size, the header and view at x = 0 at the control's width, and the view at height 0, and binds its callback to the new index |
| `Accordion.AccordionView.SelectIndexes` | AccordionView_Sample/AccordionView.cs:164-190 | null is taken as empty; the outcome is `Validate`. On `Pass` the selection is the list, a layout is requested, and `SelectionChanged` is raised exactly once. On failure the selection, the event count and the layout request are unchanged |
| `Accordion.AccordionView.OnHeaderTouchUpInside` | AccordionView_Sample/AccordionView.cs:141-162 | tapping a closed index marks it just opened and submits the proposal. Tapping an open index in the always-open mode changes nothing. Otherwise it clears the mark and submits the list without its first occurrence. Either submission completes as `SelectIndexes` does |
| `Accordion.AccordionView.TouchHeader` | AccordionView_Sample/AccordionView.cs:137-138 | the callback installed on header `i` toggles index `i` |
| `Accordion.AccordionView.LayoutEntriesAndCalculateHeight` | AccordionView_Sample/AccordionView.cs:247-293 | the entries become `LayoutAll` of the old entries, and the returned total is the final cursor |
| `Accordion.AccordionView.CompleteAnimation` | AccordionView_Sample/AccordionView.cs:283-288 | the completion hides the view exactly when its pass left a hide pending; nothing else changes |
| `Accordion.AccordionView.HandleScrollViewChange` | AccordionView_Sample/AccordionView.cs:295-331 | the entries become `StickyAll` of the old entries at the current offset |
| `Accordion.AccordionView.HandleScrollViewScrolled` | AccordionView_Sample/AccordionView.cs:242-245 | a scroll to (x, y) runs the sticky pass at (x, y) |
| `Accordion.AccordionView.SettleScrollOffset` | AccordionView_Sample/AccordionView.cs:202-223 | the offset computed is `ScrollTarget` with the bottom of the just-opened entry, and the mark is cleared whether or not it was set |
| `Accordion.AccordionView.ScrollToSettledOffset` | AccordionView_Sample/AccordionView.cs:225-238 | the content size becomes (frame width, total), the offset becomes (0, settled offset), and the sticky pass runs there |
| `Accordion.AccordionView.LayoutSubviews` | AccordionView_Sample/AccordionView.cs:192-240 | the viewport takes the frame height. The entries are `StickyAll(LayoutAll(old entries))` at the settled offset, which is `ScrollTarget` of the old offset with the just-opened bottom. The content height is the final cursor; the mark is cleared and the layout request is satisfied |
| `Scenarios.CloseLastOfTwo` | AccordionView_Sample/AccordionView.cs:153-161 | in multiple selection, tapping 2 in `[0, 2]` proposes `[0]` |
| `Scenarios.OpenSecondOfTwo` | AccordionView_Sample/AccordionView.cs:147-152 | in multiple selection, tapping 2 next to `[0]` proposes `[0, 2]`, which three entries admit |

## Left out

- Animation is left out: `UIView.Animate`, its duration and easing,
  `ScrollRectToVisible`, and the animated `SetContentOffset`
  (`AccordionView_Sample/AccordionView.cs:225-237`). The model applies
  each pass's final frames and offset at once. A completion is the separate
  `CompleteAnimation` call.
- Superseded completions: only the latest pending hide per entry is kept.
  If an older completion from an earlier pass runs later, the model does
  not capture it.
- The content view's `Bounds`, `ClipsToBounds`, the autoresizing masks and
  the subview registration in `Add` are UIKit configuration with no effect
  on the modelled state.
- `Add(string, UIView)` is left out because it only builds and styles a
  button. The styling in `Initialise` is left out too: the control's and the
  scroll view's background colours, interaction, autosizing and scroll-to-top
  flags, and the default button colours.
- The `_scrollView == null` guard in `LayoutSubviews` is left out: the
  scroll view is created by every constructor, so the guard cannot fire
  here.
- Aliasing is left out. Each entry owns its frames as values, so one view
  registered in two entries, or a caller mutating the list returned by the
  `SelectionIndicies` getter, is not captured.
- Float rounding is left out: coordinates are exact integers.
- Changing `DisplayMode` re-validates nothing; `mode` is a plain field, and
  `Valid` does not include the mode's cardinality rule.
- Event plumbing is left out. Touch and scroll events are the methods
  `TouchHeader` and `HandleScrollViewScrolled`. `SelectionChanged` is a
  counter, and `SetNeedsLayout` is a flag.
- Accumulation in the two loops: `LayoutEntriesAndCalculateHeight` and
  `HandleScrollViewChange` collect the rewritten entries in a local
  sequence and store them when the loop ends. The source writes each entry
  as it goes. The result is the same, because each step reads only its own
  entry and state the loop does not change. That state is the selection in
  the layout loop and the scroll offset in the sticky loop.
- Scrolling.ScrollTargetInRange: the upper bound `max(0, total - viewport)`
  is promised only when the just-opened entry's bottom lies within the
  content. It can lie outside: the selection setter does not clear the mark,
  so the marked entry may be laid out closed, and the source then scrolls
  past the end of the content. `Scrolling.RevealPastContent` gives such an input.
- `OnHeaderTouchUpInside` and `TouchHeader` require the index to be
  registered. The only callers are the callbacks `Add` binds to registered
  indexes.
- The view controllers and the colour-name lookup are not part of this
  model.

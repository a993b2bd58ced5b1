/** The accordion control: a registry of header/content entries, the current
    selection, and the scroll view that holds them. Methods follow the
    control's own members and change its fields in place. */
module Accordion {
  import opened AccordionTypes
  import opened Selection
  import opened Layout
  import opened Scrolling

  /** The body of the layout loop for entry `i`, reached with the cursor at
      `contentHeightSoFar`: the header goes to the cursor, the content below
      it at its selected or collapsed height, a selected view is shown at
      once, and the frames are written (with a completion that hides a
      closed view) only when the content frame changes. Returns the entry
      and the cursor past its band. */
  method LayoutEntry(entry: Entry, i: int, sel: seq<int>, contentHeightSoFar: int)
    returns (updated: Entry, cursor: int)
    ensures updated == LaidOut(entry, i, sel, contentHeightSoFar)
    ensures cursor == contentHeightSoFar + BandHeight(entry, i, sel)
    ensures updated.toggleIndex == entry.toggleIndex
  {
    cursor := contentHeightSoFar;
    var viewFrame := entry.view;
    var headerFrame := entry.header;
    headerFrame := headerFrame.(y := cursor);
    cursor := cursor + headerFrame.height;
    viewFrame := viewFrame.(y := cursor);
    var hideViewAfterAnimation := false;
    updated := entry;
    if i in sel {
      viewFrame := viewFrame.(height := entry.originalSize.height);
      updated := updated.(viewHidden := false);
    } else {
      hideViewAfterAnimation := true;
      viewFrame := viewFrame.(height := 0);
    }
    cursor := cursor + viewFrame.height;
    if entry.view != viewFrame {
      updated := updated.(view := viewFrame, header := headerFrame, hideOnCompletion := hideViewAfterAnimation);
    }
  }

  class AccordionView {
    var entries: seq<Entry>
    var selection: seq<int>
    /** The entry a tap just opened, consumed by the next layout pass. */
    var justOpened: Option<int>
    var mode: Mode
    var headerButtonHeight: int
    /** The control's own frame size. */
    var frameWidth: int
    var frameHeight: int
    /** The scroll view's frame height, content size and content offset. */
    var viewportHeight: int
    var contentWidth: int
    var contentHeight: int
    var offsetX: int
    var offsetY: int
    /** How many times `SelectionChanged` has been raised. */
    var selectionChangedCount: nat
    /** A layout pass has been requested. */
    var needsLayout: bool

    /** What every member keeps: each header's callback is bound to its own
        position, every selected index is registered (the registry only
        grows), and a pending just-opened index is registered. The mode's
        cardinality rule is not part of it: the mode can change at any time. */
    ghost predicate Valid()
      reads this`entries, this`selection, this`justOpened
    {
      CallbacksBound() && SelectionRegistered() && JustOpenedRegistered()
    }

    ghost predicate CallbacksBound()
      reads this`entries
    {
      forall i :: 0 <= i < |entries| ==> entries[i].toggleIndex == i
    }

    ghost predicate SelectionRegistered()
      reads this`entries, this`selection
    {
      forall k :: 0 <= k < |selection| ==> 0 <= selection[k] < |entries|
    }

    ghost predicate JustOpenedRegistered()
      reads this`entries, this`justOpened
    {
      justOpened.Some? ==> 0 <= justOpened.value < |entries|
    }

    /** `Initialise`: empty registry and selection, the always-open mode, a
        header height of 45, and a scroll view with the control's frame. */
    constructor (width: int, height: int)
      ensures Valid()
      ensures entries == [] && selection == [] && justOpened == None
      ensures mode == SingleSelectionOneAlwaysOpen && headerButtonHeight == 45
      ensures frameWidth == width && frameHeight == height && viewportHeight == height
      ensures offsetX == 0 && offsetY == 0 && contentWidth == 0 && contentHeight == 0
      ensures selectionChangedCount == 0 && !needsLayout
    {
      entries, selection, justOpened := [], [], None;
      mode, headerButtonHeight := SingleSelectionOneAlwaysOpen, 45;
      frameWidth, frameHeight, viewportHeight := width, height, height;
      contentWidth, contentHeight, offsetX, offsetY := 0, 0, 0, 0;
      selectionChangedCount, needsLayout := 0, false;
    }

    /** `Add(UIButton, UIView)`: a missing header or view is rejected with the
        registry unchanged; otherwise one entry is appended that remembers the
        view's size, the header and the view are stretched to the control's
        width at X = 0, the view is collapsed to height 0, and the header's
        callback is bound to the new entry's index. */
    method Add(header: Option<Rect>, view: Option<View>) returns (r: Outcome)
      requires Valid()
      modifies this`entries
      ensures Valid()
      ensures header.None? ==> r == Fail(HeaderNull) && entries == old(entries)
      ensures header.Some? && view.None? ==> r == Fail(ViewNull) && entries == old(entries)
      ensures header.Some? && view.Some? ==>
        && r == Pass
        && |entries| == |old(entries)| + 1
        && entries[..|old(entries)|] == old(entries)
        && var e := entries[|old(entries)|];
           && e.originalSize == Size(view.value.frame.width, view.value.frame.height)
           && e.header == header.value.(x := 0, width := frameWidth)
           && e.view == view.value.frame.(x := 0, width := frameWidth, height := 0)
           && e.viewHidden == view.value.hidden && !e.hideOnCompletion
           && e.toggleIndex == |old(entries)|
    {
      if header.None? {
        return Fail(HeaderNull);
      }
      if view.None? {
        return Fail(ViewNull);
      }
      var viewFrame := view.value.frame;
      var headerFrame := header.value;
      headerFrame := headerFrame.(x := 0, width := frameWidth);
      viewFrame := viewFrame.(x := 0, width := frameWidth, height := 0);
      var insertionPosition := |entries|;
      entries := entries + [Entry(headerFrame, viewFrame, view.value.hidden,
                                  Size(view.value.frame.width, view.value.frame.height),
                                  false, insertionPosition)];
      r := Pass;
    }

    /** `DoSelectIndexes`, behind the `SelectionIndicies` setter. A null list
        is taken as empty. A list the mode or the registry rejects leaves the
        selection alone and raises nothing; an accepted one is copied in,
        requests a layout pass and raises `SelectionChanged` once, even when
        it equals the old selection. */
    method SelectIndexes(toSelect: Option<seq<int>>) returns (r: Outcome)
      requires Valid()
      modifies this`selection, this`selectionChangedCount, this`needsLayout
      ensures Valid()
      ensures var list := if toSelect.Some? then toSelect.value else [];
        && r == Validate(mode, list, |entries|)
        && (r == Pass ==> selection == list && selectionChangedCount == old(selectionChangedCount) + 1 && needsLayout)
        && (r != Pass ==> selection == old(selection) && selectionChangedCount == old(selectionChangedCount)
                          && needsLayout == old(needsLayout))
    {
      var listToSelect := if toSelect.None? then [] else toSelect.value;
      if mode != MultipleSelection && |listToSelect| > 1 {
        return Fail(MultiselectionNotEnabled);
      }
      if mode == SingleSelectionOneAlwaysOpen && |listToSelect| != 1 {
        return Fail(MustSelectOne);
      }
      if AnyOutOfRange(listToSelect, |entries|) {
        return Fail(IndexOutOfRange);
      }
      selection := listToSelect;
      needsLayout := true;
      selectionChangedCount := selectionChangedCount + 1;
      r := Pass;
    }

    /** `OnHeaderTouchUpInside`: a tap on an unselected header marks it just
        opened and proposes it (added to the selection in multiple selection,
        replacing it otherwise); a tap on a selected header does nothing at
        all in the always-open mode and otherwise clears the mark and
        proposes the selection without its first occurrence. The proposal
        then goes through the selection setter; the mark is set even when
        the setter rejects it. */
    method OnHeaderTouchUpInside(headerIndex: int) returns (r: Outcome)
      requires Valid() && 0 <= headerIndex < |entries|
      modifies this`selection, this`justOpened, this`selectionChangedCount, this`needsLayout
      ensures Valid()
      ensures headerIndex !in old(selection) ==> justOpened == Some(headerIndex)
      ensures headerIndex in old(selection) && mode == SingleSelectionOneAlwaysOpen ==>
        && r == Pass && selection == old(selection) && justOpened == old(justOpened)
        && selectionChangedCount == old(selectionChangedCount) && needsLayout == old(needsLayout)
      ensures headerIndex in old(selection) && mode != SingleSelectionOneAlwaysOpen ==> justOpened == None
      ensures var c := ToggleCandidate(mode, old(selection), headerIndex);
        c.Some? ==>
          && r == Validate(mode, c.value, |entries|)
          && (r == Pass ==> selection == c.value && selectionChangedCount == old(selectionChangedCount) + 1 && needsLayout)
          && (r != Pass ==> selection == old(selection) && selectionChangedCount == old(selectionChangedCount)
                            && needsLayout == old(needsLayout))
    {
      var newList := selection;
      var makeVisible := headerIndex !in newList;
      if makeVisible {
        if mode != MultipleSelection {
          newList := [];
        }
        newList := newList + [headerIndex];
        justOpened := Some(headerIndex);
      } else {
        if mode == SingleSelectionOneAlwaysOpen {
          return Pass;
        }
        newList := RemoveFirst(newList, headerIndex);
        justOpened := None;
      }
      r := SelectIndexes(Some(newList));
    }

    /** The tap callback `Add` installs on header `i`: it toggles the index
        bound at insertion, which is `i` itself. */
    method TouchHeader(i: int) returns (r: Outcome)
      requires Valid() && 0 <= i < |entries|
      modifies this`selection, this`justOpened, this`selectionChangedCount, this`needsLayout
      ensures Valid()
      ensures i !in old(selection) ==> justOpened == Some(i)
      ensures i in old(selection) && mode == SingleSelectionOneAlwaysOpen ==>
        && r == Pass && selection == old(selection) && justOpened == old(justOpened)
        && selectionChangedCount == old(selectionChangedCount) && needsLayout == old(needsLayout)
      ensures i in old(selection) && mode != SingleSelectionOneAlwaysOpen ==> justOpened == None
      ensures var c := ToggleCandidate(mode, old(selection), i);
        c.Some? ==>
          && r == Validate(mode, c.value, |entries|)
          && (r == Pass ==> selection == c.value && selectionChangedCount == old(selectionChangedCount) + 1 && needsLayout)
          && (r != Pass ==> selection == old(selection) && selectionChangedCount == old(selectionChangedCount)
                            && needsLayout == old(needsLayout))
    {
      r := OnHeaderTouchUpInside(entries[i].toggleIndex);
    }

    /** `LayoutEntriesAndCalculateHeight`: one pass over the registry with a
        running cursor; returns where the cursor ends, the content height. */
    method LayoutEntriesAndCalculateHeight() returns (total: int)
      requires Valid()
      modifies this`entries
      ensures Valid()
      ensures entries == LayoutAll(old(entries), selection)
      ensures total == Cursor(old(entries), selection, |old(entries)|)
    {
      var sel := selection;
      var laidOut := [];
      var contentHeightSoFar := 0;
      var i := 0;
      while i < |entries|
        invariant entries == old(entries) && 0 <= i <= |entries|
        invariant contentHeightSoFar == Cursor(entries, sel, i)
        invariant laidOut == LayoutPrefix(entries, sel, i)
      {
        var updated;
        updated, contentHeightSoFar := LayoutEntry(entries[i], i, sel, contentHeightSoFar);
        laidOut := laidOut + [updated];
        i := i + 1;
      }
      assert laidOut == LayoutAll(entries, sel);
      LayoutKeepsCallbacks(entries, sel);
      entries := laidOut;
      total := contentHeightSoFar;
    }

    /** The completion of the animation last issued for entry `i`: hides the
        content view if that pass found the entry closed. */
    method CompleteAnimation(i: int)
      requires Valid() && 0 <= i < |entries|
      modifies this`entries
      ensures Valid()
      ensures var e := old(entries)[i];
        entries == old(entries)[i := e.(viewHidden := e.viewHidden || e.hideOnCompletion, hideOnCompletion := false)]
    {
      var entry := entries[i];
      if entry.hideOnCompletion {
        entry := entry.(viewHidden := true);
      }
      entries := entries[i := entry.(hideOnCompletion := false)];
    }

    /** `HandleScrollViewChange`: the sticky-header pass at the current
        content offset. */
    method HandleScrollViewChange()
      requires Valid()
      modifies this`entries
      ensures Valid()
      ensures entries == StickyAll(old(entries), offsetX, offsetY)
    {
      var moved := [];
      var i := 0;
      while i < |entries|
        invariant entries == old(entries) && 0 <= i <= |entries|
        invariant moved == StickyPrefix(entries, offsetX, offsetY, i)
      {
        var entry := entries[i];
        if entry.view.height > 0 {
          var frameForHeaderAndContent := entry.view;
          frameForHeaderAndContent := frameForHeaderAndContent.(y := frameForHeaderAndContent.y - entry.header.height);
          frameForHeaderAndContent := frameForHeaderAndContent.(height := frameForHeaderAndContent.height + entry.header.height);
          var frameForHeader := entry.header;
          if frameForHeaderAndContent.Contains(offsetX, offsetY) {
            var normalHeaderYLocation := frameForHeaderAndContent.y - offsetY;
            if normalHeaderYLocation < frameForHeader.height {
              frameForHeader := frameForHeader.(y := offsetY);
            } else {
              frameForHeader := frameForHeader.(y := normalHeaderYLocation);
            }
          } else {
            frameForHeader := frameForHeader.(y := frameForHeaderAndContent.y);
          }
          entry := entry.(header := frameForHeader);
        }
        moved := moved + [entry];
        i := i + 1;
      }
      StickyKeepsCallbacks(entries, offsetX, offsetY);
      entries := moved;
    }

    /** The scroll view's `Scrolled` event: the view has moved to (x, y) and
        the sticky pass runs. */
    method HandleScrollViewScrolled(x: int, y: int)
      requires Valid()
      modifies this`entries, this`offsetX, this`offsetY
      ensures Valid()
      ensures offsetX == x && offsetY == y
      ensures entries == StickyAll(old(entries), x, y)
    {
      offsetX, offsetY := x, y;
      HandleScrollViewChange();
    }

    /** The offset arithmetic of `LayoutSubviews`, run after the layout
        pass that produced `total`: lower the current offset to the content,
        raise it to show the whole of a just-opened entry and consume the
        mark either way, then keep it non-negative. */
    method SettleScrollOffset(total: int) returns (yScrollOffset: int)
      requires Valid()
      modifies this`justOpened
      ensures Valid() && justOpened == None
      ensures yScrollOffset == ScrollTarget(offsetY, viewportHeight, total, RevealBottom(entries, old(justOpened)))
    {
      yScrollOffset := offsetY;
      if yScrollOffset + viewportHeight >= total {
        yScrollOffset := total - viewportHeight;
      }
      if justOpened.Some? {
        var lastTouchedEntry := entries[justOpened.value];
        var bottomOfEntry := lastTouchedEntry.header.Bottom() + lastTouchedEntry.originalSize.height;
        var neededScrollYToSeeWholeEntry := bottomOfEntry - viewportHeight;
        if neededScrollYToSeeWholeEntry > yScrollOffset {
          yScrollOffset := neededScrollYToSeeWholeEntry;
        }
        justOpened := None;
      }
      if yScrollOffset < 0 {
        yScrollOffset := 0;
      }
    }

    /** The rest of `LayoutSubviews` once the entries are laid out with
        content height `total`: the content size is set, the offset moves to
        its settled value and the sticky pass runs there. */
    method ScrollToSettledOffset(total: int)
      requires Valid()
      modifies this`justOpened, this`contentWidth, this`contentHeight, this`offsetX, this`offsetY, this`entries
      ensures Valid() && justOpened == None
      ensures contentWidth == frameWidth && contentHeight == total
      ensures offsetX == 0
      ensures offsetY == ScrollTarget(old(offsetY), viewportHeight, total, RevealBottom(old(entries), old(justOpened)))
      ensures entries == StickyAll(old(entries), 0, offsetY)
    {
      var yScrollOffset := SettleScrollOffset(total);
      contentWidth, contentHeight := frameWidth, total;
      offsetX, offsetY := 0, yScrollOffset;
      HandleScrollViewChange();
    }

    /** `LayoutSubviews`: the scroll view takes the control's frame, the
        entries are laid out, the offset is lowered to the content, raised to
        reveal a just-opened entry (the mark is consumed either way) and kept
        non-negative; the content size and offset are set to their settled
        values and the sticky pass runs at that offset. */
    method LayoutSubviews()
      requires Valid()
      modifies this`viewportHeight, this`entries, this`justOpened, this`contentWidth, this`contentHeight
      modifies this`offsetX, this`offsetY, this`needsLayout
      ensures Valid()
      ensures viewportHeight == frameHeight && justOpened == None && !needsLayout
      ensures contentWidth == frameWidth && contentHeight == Cursor(old(entries), selection, |old(entries)|)
      ensures var laidOut := LayoutAll(old(entries), selection);
        && offsetX == 0
        && offsetY == ScrollTarget(old(offsetY), frameHeight, contentHeight, RevealBottom(laidOut, old(justOpened)))
        && entries == StickyAll(laidOut, 0, offsetY)
    {
      viewportHeight := frameHeight;
      var total := LayoutEntriesAndCalculateHeight();
      ScrollToSettledOffset(total);
      needsLayout := false;
    }
  }
}

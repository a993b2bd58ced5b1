/** Scroll coordination: the vertical offset a layout pass settles on, and
    the sticky-header pass run on every scroll. */
module Scrolling {
  import opened AccordionTypes
  import opened Layout

  /** The offset a layout pass settles on, in closed form. The current offset
      is first lowered so the viewport does not run past the content
      (`Min`); when an entry was just opened and its bottom is `openedBottom`, the
      offset is raised just enough to show that bottom; finally it is kept
      non-negative. */
  function ScrollTarget(offset: int, viewport: int, total: int, openedBottom: Option<int>): (r: int)
    ensures r >= 0
    ensures openedBottom.Some? ==> r + viewport >= openedBottom.value
    ensures r >= Min(offset, total - viewport)
    ensures r == 0 || r == Min(offset, total - viewport) || (openedBottom.Some? && r == openedBottom.value - viewport)
  {
    var lowered := Min(offset, total - viewport);
    Max(0, if openedBottom.Some? then Max(lowered, openedBottom.value - viewport) else lowered)
  }

  /** The settled offset never leaves the scrollable range
      [0, max(0, total - viewport)] when the revealed bottom lies within the
      content; an offset already inside that range is kept when nothing was
      just opened. */
  lemma ScrollTargetInRange(offset: int, viewport: int, total: int, openedBottom: Option<int>)
    requires openedBottom.Some? ==> openedBottom.value <= total
    ensures ScrollTarget(offset, viewport, total, openedBottom) <= Max(0, total - viewport)
    ensures openedBottom.None? && 0 <= offset < total - viewport ==> ScrollTarget(offset, viewport, total, openedBottom) == offset
  {
  }

  /** The band of an open entry: its header and content together. */
  function Band(e: Entry): Rect {
    e.view.(y := e.view.y - e.header.height, height := e.view.height + e.header.height)
  }

  /** The sticky-header step for one entry at scroll offset (ox, oy). An
      entry with content height 0 or less is left alone. Otherwise, when the
      offset lies in the entry's band, the header goes to the viewport top
      `oy` if `normal` is below the header height and to `normal` itself
      otherwise, `normal` being the band top minus the offset; outside the
      band the header goes back to the band top. */
  function StickyHeader(e: Entry, ox: int, oy: int): (r: Entry)
    ensures r.view == e.view
    ensures r.header.x == e.header.x && r.header.width == e.header.width && r.header.height == e.header.height
    ensures r.viewHidden == e.viewHidden && r.hideOnCompletion == e.hideOnCompletion
    ensures r.originalSize == e.originalSize && r.toggleIndex == e.toggleIndex
    ensures e.view.height <= 0 ==> r == e
  {
    if e.view.height > 0 then
      var band := Band(e);
      var y :=
        if band.Contains(ox, oy) then
          var normal := band.y - oy;
          if normal < e.header.height then oy else normal
        else band.y;
      e.(header := e.header.(y := y))
    else e
  }

  /** Where the sticky pass puts an open entry's header. For a header of
      positive height the `normal` branch can never be taken (inside the band
      the band top minus the offset is at most 0): the header is pinned to
      the viewport top while the offset is inside the band, and rests on its
      content otherwise. */
  lemma StickyHeaderPosition(e: Entry, ox: int, oy: int)
    requires e.view.height > 0 && e.header.height > 0
    ensures var r := StickyHeader(e, ox, oy);
      && (Band(e).Contains(ox, oy) ==> r.header.y == oy && r.header.y >= Band(e).y)
      && (!Band(e).Contains(ox, oy) ==> HeaderAttached(r))
  {
  }

  /** The sticky step only reads the band, which it does not change, so
      running it again at the same offset changes nothing. */
  lemma StickyHeaderIdempotent(e: Entry, ox: int, oy: int)
    ensures StickyHeader(StickyHeader(e, ox, oy), ox, oy) == StickyHeader(e, ox, oy)
  {
  }

  /** The first `k` entries as the sticky pass leaves them. */
  function StickyPrefix(es: seq<Entry>, ox: int, oy: int, k: nat): (rs: seq<Entry>)
    requires k <= |es|
    ensures |rs| == k
  {
    if k == 0 then [] else StickyPrefix(es, ox, oy, k - 1) + [StickyHeader(es[k - 1], ox, oy)]
  }

  /** The registry after a sticky pass. */
  function StickyAll(es: seq<Entry>, ox: int, oy: int): (rs: seq<Entry>)
    ensures |rs| == |es|
  {
    StickyPrefix(es, ox, oy, |es|)
  }

  lemma {:induction false} StickyPrefixAt(es: seq<Entry>, ox: int, oy: int, k: nat, i: nat)
    requires i < k <= |es|
    ensures StickyPrefix(es, ox, oy, k)[i] == StickyHeader(es[i], ox, oy)
  {
    if i < k - 1 {
      StickyPrefixAt(es, ox, oy, k - 1, i);
    }
  }

  /** The sticky pass treats each entry on its own. */
  lemma StickyAllAt(es: seq<Entry>, ox: int, oy: int, i: nat)
    requires i < |es|
    ensures StickyAll(es, ox, oy)[i] == StickyHeader(es[i], ox, oy)
  {
    StickyPrefixAt(es, ox, oy, |es|, i);
  }

  /** The sticky pass does not rebind any header's callback. */
  lemma StickyKeepsCallbacks(es: seq<Entry>, ox: int, oy: int)
    ensures forall i :: 0 <= i < |es| ==> StickyAll(es, ox, oy)[i].toggleIndex == es[i].toggleIndex
  {
    forall i | 0 <= i < |es| ensures StickyAll(es, ox, oy)[i].toggleIndex == es[i].toggleIndex {
      StickyAllAt(es, ox, oy, i);
    }
  }

  /** The bottom of the just-opened entry, read after the layout pass. */
  function RevealBottom(es: seq<Entry>, justOpened: Option<int>): Option<int> {
    if justOpened.Some? && 0 <= justOpened.value < |es| then
      Some(es[justOpened.value].header.Bottom() + es[justOpened.value].originalSize.height)
    else None
  }

  /** With no negative heights, a selected just-opened entry whose header is
      attached to its content after the pass (which holds whenever its
      content was not already at its open height, or its header already sat
      on it) ends within the content, so the layout pass's offset stays in
      the scrollable range. */
  lemma {:induction false} RevealWithinContent(es: seq<Entry>, sel: seq<int>, k: nat, offset: int, viewport: int)
    requires k < |es| && k in sel
    requires forall i :: 0 <= i < |es| ==> es[i].header.height >= 0 && es[i].originalSize.height >= 0
    requires es[k].view.height != es[k].originalSize.height || HeaderAttached(es[k])
    ensures var rs := LayoutAll(es, sel);
      var total := Cursor(es, sel, |es|);
      && RevealBottom(rs, Some(k)) == Some(Cursor(es, sel, k + 1))
      && ScrollTarget(offset, viewport, total, RevealBottom(rs, Some(k))) <= Max(0, total - viewport)
  {
    LayoutPlacement(es, sel, k);
    LayoutAllAt(es, sel, k);
    CursorMonotone(es, sel, k + 1, |es|);
    ScrollTargetInRange(offset, viewport, Cursor(es, sel, |es|), RevealBottom(LayoutAll(es, sel), Some(k)));
  }

  /** After a layout pass and a sticky pass, the header of a selected,
      non-empty entry is at the cursor unless the offset lies in its band, in
      which case it is at the offset. */
  lemma StickyAfterLayout(es: seq<Entry>, sel: seq<int>, i: nat, ox: int, oy: int)
    requires i < |es| && i in sel
    requires es[i].originalSize.height > 0 && es[i].header.height > 0
    ensures var r := StickyAll(LayoutAll(es, sel), ox, oy)[i];
      && r.view == LayoutAll(es, sel)[i].view
      && (Band(r).Contains(ox, oy) ==> r.header.y == oy)
      && (!Band(r).Contains(ox, oy) ==> r.header.y == Cursor(es, sel, i))
  {
    LayoutPlacement(es, sel, i);
    LayoutAllAt(es, sel, i);
    StickyAllAt(LayoutAll(es, sel), ox, oy, i);
    StickyHeaderPosition(LayoutAll(es, sel)[i], ox, oy);
  }

  /** The bound of `ScrollTargetInRange` needs its premise. A mark left by a
      tap survives a later call of the selection setter, so the entry it
      names can be laid out closed; its bottom is still read with the whole
      original height, and the offset settles past the end of the content:
      here 565 against a content 45 tall in a 480 viewport. */
  lemma RevealPastContent()
    ensures var e := Entry(Rect(0, 0, 320, 45), Rect(0, 45, 320, 0), false, Size(320, 1000), false, 0);
      var total := Cursor([e], [], 1);
      && total == 45
      && RevealBottom(LayoutAll([e], []), Some(0)) == Some(1045)
      && ScrollTarget(0, 480, total, RevealBottom(LayoutAll([e], []), Some(0))) == 565
      && 565 > Max(0, total - 480)
  {
    var e := Entry(Rect(0, 0, 320, 45), Rect(0, 45, 320, 0), false, Size(320, 1000), false, 0);
    LayoutAllAt([e], [], 0);
    assert Cursor([e], [], 0) == 0;
  }

  /** A header of height 0 is the one case `StickyHeaderPosition` leaves out:
      with the offset exactly on the band top the `normal` branch is taken,
      and the header is placed at the viewport-relative value 0 as if it were
      a content coordinate, 50 above its band. */
  lemma StickyZeroHeightHeader()
    ensures var e := Entry(Rect(0, 50, 320, 0), Rect(0, 50, 320, 100), false, Size(320, 100), false, 0);
      && Band(e).Contains(0, 50)
      && StickyHeader(e, 0, 50).header.y == 0
      && Band(e).y == 50
  {
  }
}

/** The layout pass as a function of the registry and the selection: each
    header is placed at a running cursor, its content band below it, open
    bands at their original height and closed ones at height 0. */
module Layout {
  import opened AccordionTypes

  /** The height entry `i`'s content gets in a pass. */
  function ContentHeightFor(e: Entry, i: int, sel: seq<int>): int {
    if i in sel then e.originalSize.height else 0
  }

  /** Header plus assigned content height of entry `i`. */
  function BandHeight(e: Entry, i: int, sel: seq<int>): int {
    e.header.height + ContentHeightFor(e, i, sel)
  }

  /** The cursor when the pass reaches entry `k`: the bands of entries
      0 .. k-1 stacked from 0. */
  function Cursor(es: seq<Entry>, sel: seq<int>, k: nat): int
    requires k <= |es|
  {
    if k == 0 then 0 else Cursor(es, sel, k - 1) + BandHeight(es[k - 1], k - 1, sel)
  }

  /** The content frame the pass computes for an entry whose turn comes at
      cursor `c`: only Y and the height differ from the current frame. */
  function TargetFrame(e: Entry, i: int, sel: seq<int>, c: int): Rect {
    e.view.(y := c + e.header.height, height := ContentHeightFor(e, i, sel))
  }

  /** A header sits directly above its content. */
  predicate HeaderAttached(e: Entry) {
    e.header.y + e.header.height == e.view.y
  }

  /** One step of the pass. A selected content view is made visible at once.
      Frames are written, and a completion is issued (hiding a closed view),
      only when the computed content frame differs from the current one; a
      header that sat on its content is at the cursor either way. */
  function LaidOut(e: Entry, i: int, sel: seq<int>, c: int): (r: Entry)
    ensures r.view.y == c + e.header.height
    ensures r.view.height == (if i in sel then e.originalSize.height else 0)
    ensures r.view.x == e.view.x && r.view.width == e.view.width
    ensures r.view != e.view ==> r.header.y == c && r.hideOnCompletion == (i !in sel)
    ensures r.view == e.view ==> r.header == e.header && r.hideOnCompletion == e.hideOnCompletion
    ensures HeaderAttached(e) ==> r.header.y == c
    ensures i in sel ==> !r.viewHidden
    ensures i !in sel ==> r.viewHidden == e.viewHidden
    ensures r.header.height == e.header.height && r.header.x == e.header.x && r.header.width == e.header.width
    ensures r.originalSize == e.originalSize && r.toggleIndex == e.toggleIndex
  {
    var target := TargetFrame(e, i, sel, c);
    var changed := target != e.view;
    e.(header := if changed then e.header.(y := c) else e.header,
       view := target,
       viewHidden := if i in sel then false else e.viewHidden,
       hideOnCompletion := if changed then i !in sel else e.hideOnCompletion)
  }

  /** The first `k` entries as the pass leaves them. */
  function LayoutPrefix(es: seq<Entry>, sel: seq<int>, k: nat): (rs: seq<Entry>)
    requires k <= |es|
    ensures |rs| == k
  {
    if k == 0 then [] else LayoutPrefix(es, sel, k - 1) + [LaidOut(es[k - 1], k - 1, sel, Cursor(es, sel, k - 1))]
  }

  /** The registry after a full pass. */
  function LayoutAll(es: seq<Entry>, sel: seq<int>): (rs: seq<Entry>)
    ensures |rs| == |es|
  {
    LayoutPrefix(es, sel, |es|)
  }

  /** Entry `i` of any prefix that contains it is laid out at the cursor the
      pass reaches it with. */
  lemma {:induction false} LayoutPrefixAt(es: seq<Entry>, sel: seq<int>, k: nat, i: nat)
    requires i < k <= |es|
    ensures LayoutPrefix(es, sel, k)[i] == LaidOut(es[i], i, sel, Cursor(es, sel, i))
  {
    if i < k - 1 {
      LayoutPrefixAt(es, sel, k - 1, i);
    }
  }

  /** A prefix of the laid-out registry is the pass stopped early. */
  lemma {:induction false} LayoutPrefixPrefix(es: seq<Entry>, sel: seq<int>, k: nat, n: nat)
    requires k <= n <= |es|
    ensures LayoutPrefix(es, sel, n)[..k] == LayoutPrefix(es, sel, k)
  {
    if k < n {
      LayoutPrefixPrefix(es, sel, k, n - 1);
      assert LayoutPrefix(es, sel, n)[..n - 1] == LayoutPrefix(es, sel, n - 1);
    } else {
      assert LayoutPrefix(es, sel, n)[..n] == LayoutPrefix(es, sel, n);
    }
  }

  lemma LayoutAllAt(es: seq<Entry>, sel: seq<int>, i: nat)
    requires i < |es|
    ensures LayoutAll(es, sel)[i] == LaidOut(es[i], i, sel, Cursor(es, sel, i))
  {
    LayoutPrefixAt(es, sel, |es|, i);
  }

  /** A pass does not rebind any header's callback. */
  lemma LayoutKeepsCallbacks(es: seq<Entry>, sel: seq<int>)
    ensures forall i :: 0 <= i < |es| ==> LayoutAll(es, sel)[i].toggleIndex == es[i].toggleIndex
  {
    forall i | 0 <= i < |es| ensures LayoutAll(es, sel)[i].toggleIndex == es[i].toggleIndex {
      LayoutAllAt(es, sel, i);
    }
  }

  /** The total height of a stack of entries, read off their current frames. */
  function StackHeight(rs: seq<Entry>): int {
    if rs == [] then 0 else StackHeight(rs[..|rs| - 1]) + rs[|rs| - 1].header.height + rs[|rs| - 1].view.height
  }

  /** Where the pass puts entry `i`: its content begins below its header at
      the cursor, is as tall as its original height exactly when selected,
      and ends where the next entry's header begins; the header is moved to
      the cursor whenever the content frame changes, and is found there
      already when it sat on its content; nothing horizontal changes. */
  lemma LayoutPlacement(es: seq<Entry>, sel: seq<int>, i: nat)
    requires i < |es|
    ensures var r := LayoutAll(es, sel)[i];
      && r.view.y == Cursor(es, sel, i) + es[i].header.height
      && (i in sel ==> r.view.height == es[i].originalSize.height)
      && (i !in sel ==> r.view.height == 0)
      && r.view.y + r.view.height == Cursor(es, sel, i + 1)
      && r.view.x == es[i].view.x && r.view.width == es[i].view.width
      && (r.view != es[i].view ==> r.header.y == Cursor(es, sel, i))
      && (r.view == es[i].view ==> r.header == es[i].header)
      && (HeaderAttached(es[i]) ==> r.header.y == Cursor(es, sel, i) && HeaderAttached(r))
  {
    LayoutAllAt(es, sel, i);
  }

  /** A selected content view is visible after the pass; a closed one keeps
      its visibility until the completion issued for it runs, and one is
      issued exactly when its frame changed. */
  lemma LayoutVisibility(es: seq<Entry>, sel: seq<int>, i: nat)
    requires i < |es|
    ensures var r := LayoutAll(es, sel)[i];
      && (i in sel ==> !r.viewHidden && (r.view != es[i].view ==> !r.hideOnCompletion))
      && (i !in sel ==> r.viewHidden == es[i].viewHidden)
      && (i !in sel && r.view != es[i].view ==> r.hideOnCompletion)
      && (r.view == es[i].view ==> r.hideOnCompletion == es[i].hideOnCompletion)
  {
    LayoutAllAt(es, sel, i);
  }

  /** A pass keeps every header height and original size, so a second pass
      meets the same cursor at every entry. */
  lemma {:induction false} LayoutKeepsCursor(es: seq<Entry>, sel: seq<int>, k: nat)
    requires k <= |es|
    ensures Cursor(LayoutAll(es, sel), sel, k) == Cursor(es, sel, k)
  {
    if k > 0 {
      LayoutKeepsCursor(es, sel, k - 1);
      LayoutAllAt(es, sel, k - 1);
    }
  }

  /** The total the pass returns is the sum, over the laid-out entries, of
      header height plus content height. */
  lemma {:induction false} CursorIsStackHeight(es: seq<Entry>, sel: seq<int>, k: nat)
    requires k <= |es|
    ensures StackHeight(LayoutAll(es, sel)[..k]) == Cursor(es, sel, k)
  {
    LayoutPrefixPrefix(es, sel, k, |es|);
    PrefixStackHeight(es, sel, k);
  }

  lemma {:induction false} PrefixStackHeight(es: seq<Entry>, sel: seq<int>, k: nat)
    requires k <= |es|
    ensures StackHeight(LayoutPrefix(es, sel, k)) == Cursor(es, sel, k)
  {
    if k > 0 {
      PrefixStackHeight(es, sel, k - 1);
      var rs := LayoutPrefix(es, sel, k);
      assert rs[..k - 1] == LayoutPrefix(es, sel, k - 1);
    }
  }

  /** Laying out twice with the same selection changes nothing the first
      pass did not: same frames, same visibility, same completions. */
  lemma LayoutIdempotent(es: seq<Entry>, sel: seq<int>)
    ensures LayoutAll(LayoutAll(es, sel), sel) == LayoutAll(es, sel)
  {
    var rs := LayoutAll(es, sel);
    forall i | 0 <= i < |es| ensures LayoutAll(rs, sel)[i] == rs[i] {
      LayoutKeepsCursor(es, sel, i);
      LayoutAllAt(es, sel, i);
      LayoutAllAt(rs, sel, i);
    }
  }

  /** With no negative heights the cursor never moves up. */
  lemma {:induction false} CursorMonotone(es: seq<Entry>, sel: seq<int>, j: nat, k: nat)
    requires j <= k <= |es|
    requires forall i :: 0 <= i < |es| ==> es[i].header.height >= 0 && es[i].originalSize.height >= 0
    ensures Cursor(es, sel, j) <= Cursor(es, sel, k)
  {
    if j < k {
      CursorMonotone(es, sel, j, k - 1);
    }
  }
}

/** Value types shared by the accordion model: frames, entries, display modes
    and the errors the control raises. Coordinates are the control's `float`s;
    only addition, subtraction and comparison are applied to them, so they are
    modelled exactly as integers. */
module AccordionTypes {

  datatype Option<T> = None | Some(value: T)

  /** A frame: origin and size, as `RectangleF`. */
  datatype Rect = Rect(x: int, y: int, width: int, height: int) {

    function Bottom(): int { y + height }

    /** `RectangleF.Contains(PointF)`: half-open on both axes. */
    predicate Contains(px: int, py: int) {
      x <= px < x + width && y <= py < y + height
    }
  }

  datatype Size = Size(width: int, height: int)

  /** A content view handed to `Add`: its frame and its `Hidden` flag. */
  datatype View = View(frame: Rect, hidden: bool)

  /** One registered panel. `header` and `view` are the current frames of the
      header button and the content view; `originalSize` is the content's size
      when it was added; `hideOnCompletion` records that the animation last
      issued for this entry hides the content when it completes;
      `toggleIndex` is the index bound into the header's tap callback. */
  datatype Entry = Entry(
    header: Rect,
    view: Rect,
    viewHidden: bool,
    originalSize: Size,
    hideOnCompletion: bool,
    toggleIndex: int)

  datatype Mode = SingleSelection | SingleSelectionOneAlwaysOpen | MultipleSelection

  /** The exceptions the control throws: `ArgumentNullException` for a missing
      header or view, `ArgumentOutOfRangeException` with one of three messages
      for a rejected selection. */
  datatype Error =
    | HeaderNull
    | ViewNull
    | MultiselectionNotEnabled
    | MustSelectOne
    | IndexOutOfRange

  datatype Outcome = Pass | Fail(error: Error)

  function Max(a: int, b: int): int { if a < b then b else a }

  function Min(a: int, b: int): int { if a < b then a else b }
}

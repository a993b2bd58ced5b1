/** Sample sessions with the control, written as client code; each assertion
    follows from the members' contracts. */
module Scenarios {
  import opened AccordionTypes
  import opened Selection
  import opened Layout
  import opened Accordion

  /** A control holding three closed panels, in the default mode. */
  method ThreePanels() returns (a: AccordionView)
    ensures fresh(a) && a.Valid() && |a.entries| == 3 && a.selection == []
    ensures a.mode == SingleSelectionOneAlwaysOpen && a.selectionChangedCount == 0
  {
    a := new AccordionView(320, 480);
    var r := a.Add(Some(Rect(5, 0, 100, 45)), Some(View(Rect(0, 0, 320, 200), false)));
    r := a.Add(Some(Rect(0, 0, 320, 45)), Some(View(Rect(0, 0, 320, 150), true)));
    r := a.Add(Some(Rect(0, 0, 320, 45)), Some(View(Rect(0, 0, 320, 100), false)));
  }

  /** A missing header or view is refused and nothing is registered. */
  method AddRefusesMissingParts() {
    var a := new AccordionView(320, 480);
    var r := a.Add(None, Some(View(Rect(0, 0, 320, 100), false)));
    assert r == Fail(HeaderNull) && a.entries == [];
    r := a.Add(Some(Rect(0, 0, 320, 45)), None);
    assert r == Fail(ViewNull) && a.entries == [];
    r := a.Add(Some(Rect(7, 3, 100, 45)), Some(View(Rect(9, 9, 250, 100), true)));
    assert r == Pass && |a.entries| == 1;
    assert a.entries[0].header == Rect(0, 3, 320, 45) && a.entries[0].view == Rect(0, 9, 320, 0);
    assert a.entries[0].originalSize == Size(250, 100) && a.entries[0].toggleIndex == 0;
  }

  /** The always-open mode refuses two indexes and none; a good list is
      taken and counted. */
  method AlwaysOpenValidation() {
    var a := ThreePanels();
    var r := a.SelectIndexes(Some([0, 1]));
    assert r == Fail(MultiselectionNotEnabled) && a.selection == [];
    r := a.SelectIndexes(None);
    assert r == Fail(MustSelectOne) && a.selectionChangedCount == 0;
    r := a.SelectIndexes(Some([5]));
    assert r == Fail(IndexOutOfRange) && a.selection == [];
    r := a.SelectIndexes(Some([0]));
    assert r == Pass && a.selection == [0] && a.selectionChangedCount == 1;
  }

  /** In the always-open mode a tap on another panel switches to it. */
  method AlwaysOpenSwitch() {
    var a := ThreePanels();
    var r := a.SelectIndexes(Some([0]));
    ToggleCandidateCases(a.mode, [0], 1);
    r := a.TouchHeader(1);
    assert r == Pass && a.selection == [1] && a.justOpened == Some(1) && a.selectionChangedCount == 2;
  }

  /** In the always-open mode a tap on the open panel does nothing. */
  method AlwaysOpenTapOpen() {
    var a := ThreePanels();
    var r := a.SelectIndexes(Some([1]));
    var before := a.justOpened;
    r := a.TouchHeader(1);
    assert r == Pass && a.selection == [1] && a.justOpened == before && a.selectionChangedCount == 1;
  }

  /** In multiple selection, closing 2 in [0, 2] proposes [0]. */
  lemma CloseLastOfTwo()
    ensures ToggleCandidate(MultipleSelection, [0, 2], 2) == Some([0])
  {
    ToggleTwiceRestores([0], 2);
    assert [0] + [2] == [0, 2];
  }

  /** In multiple selection, opening 2 next to [0] proposes [0, 2], which
      three panels admit. */
  lemma OpenSecondOfTwo()
    ensures ToggleCandidate(MultipleSelection, [0], 2) == Some([0, 2])
    ensures Validate(MultipleSelection, [0, 2], 3) == Pass
  {
    assert [0] + [2] == [0, 2];
  }

  /** Multiple selection: a tap on an open panel removes its index. */
  method MultipleSelectionClose() {
    var a := ThreePanels();
    a.mode := MultipleSelection;
    OpenSecondOfTwo();
    CloseLastOfTwo();
    assert Validate(MultipleSelection, [0], 3) == Pass;
    var r := a.SelectIndexes(Some([0, 2]));
    assert a.selection == [0, 2];
    r := a.TouchHeader(2);
    assert r == Pass && a.selection == [0] && a.justOpened == None;
  }

  /** Multiple selection: a tap on a closed panel appends its index. */
  method MultipleSelectionOpen() {
    var a := ThreePanels();
    a.mode := MultipleSelection;
    var r := a.SelectIndexes(Some([0]));
    assert a.selection == [0];
    OpenSecondOfTwo();
    r := a.TouchHeader(2);
    assert r == Pass && a.selection == [0, 2] && a.justOpened == Some(2);
  }

  /** A layout pass with the second of two panels open: the content is two
      headers and the opened view, and the offset stays at the top because
      everything fits. */
  method LayoutSession() {
    var a := new AccordionView(320, 480);
    var r := a.Add(Some(Rect(0, 0, 320, 45)), Some(View(Rect(0, 0, 320, 200), false)));
    r := a.Add(Some(Rect(0, 0, 320, 45)), Some(View(Rect(0, 0, 320, 150), false)));
    r := a.SelectIndexes(Some([1]));
    var e0, e1 := a.entries[0], a.entries[1];
    assert a.entries == [e0, e1] && a.selection == [1];
    assert Cursor([e0, e1], [1], 2) == 240 by {
      assert Cursor([e0, e1], [1], 1) == 45;
    }
    a.LayoutSubviews();
    assert a.contentHeight == 240;
    assert a.offsetY == 0;
  }
}

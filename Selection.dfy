/** Selection rules of the accordion: validation of a proposed selection
    against the display mode, and the list a header tap proposes. */
module Selection {
  import opened AccordionTypes

  /** What a selection must satisfy to be accepted, stated independently of
      the order in which the control checks it. */
  predicate Admissible(mode: Mode, s: seq<int>, count: int) {
    && (mode != MultipleSelection ==> |s| <= 1)
    && (mode == SingleSelectionOneAlwaysOpen ==> |s| == 1)
    && (forall k :: 0 <= k < |s| ==> 0 <= s[k] < count)
  }

  /** `Any(i => i < 0 || i >= count)`, scanning the list front to back. */
  function AnyOutOfRange(s: seq<int>, count: int): (b: bool)
    ensures b <==> exists k :: 0 <= k < |s| && !(0 <= s[k] < count)
  {
    if s == [] then false
    else if s[0] < 0 || s[0] >= count then true
    else
      var rest := AnyOutOfRange(s[1..], count);
      assert forall k :: 1 <= k < |s| ==> s[k] == s[1..][k - 1];
      rest
  }

  /** The checks of the selection setter, in the control's order: too many
      indexes for a single-selection mode, not exactly one for the
      always-open mode, then any index outside the registry. */
  function Validate(mode: Mode, s: seq<int>, count: int): (r: Outcome)
    ensures r == Pass <==> Admissible(mode, s, count)
    ensures r == Fail(MultiselectionNotEnabled) <==> mode != MultipleSelection && |s| > 1
    ensures r == Fail(MustSelectOne) <==>
              (mode == MultipleSelection || |s| <= 1) && mode == SingleSelectionOneAlwaysOpen && |s| != 1
    ensures r == Fail(IndexOutOfRange) <==>
              && (mode != MultipleSelection ==> |s| <= 1)
              && (mode == SingleSelectionOneAlwaysOpen ==> |s| == 1)
              && exists k :: 0 <= k < |s| && !(0 <= s[k] < count)
    ensures r.Pass? || r.error in {MultiselectionNotEnabled, MustSelectOne, IndexOutOfRange}
  {
    if mode != MultipleSelection && |s| > 1 then Fail(MultiselectionNotEnabled)
    else if mode == SingleSelectionOneAlwaysOpen && |s| != 1 then Fail(MustSelectOne)
    else if AnyOutOfRange(s, count) then Fail(IndexOutOfRange)
    else Pass
  }

  /** `List<int>.Remove`: drops the first occurrence of `x`, if any. */
  function RemoveFirst(s: seq<int>, x: int): (r: seq<int>)
    ensures x !in s ==> r == s
    ensures x in s ==> |r| == |s| - 1
    ensures multiset(r) == multiset(s) - multiset{x}
  {
    if s == [] then s
    else if s[0] == x then
      assert s == [s[0]] + s[1..];
      s[1..]
    else
      var rest := RemoveFirst(s[1..], x);
      assert s == [s[0]] + s[1..];
      [s[0]] + rest
  }

  /** Position of the first occurrence of `x` in `s`. */
  function FirstIndex(s: seq<int>, x: int): (k: nat)
    requires x in s
    ensures k < |s| && s[k] == x && x !in s[..k]
  {
    if s[0] == x then 0
    else
      assert x in s[1..] by { assert s == [s[0]] + s[1..]; }
      var k' := FirstIndex(s[1..], x);
      assert s[..k' + 1] == [s[0]] + s[1..][..k'];
      k' + 1
  }

  /** Only the first occurrence goes: everything before it and after it stays
      in order. */
  lemma {:induction false} RemoveFirstSplits(s: seq<int>, x: int)
    requires x in s
    ensures RemoveFirst(s, x) == s[..FirstIndex(s, x)] + s[FirstIndex(s, x) + 1..]
  {
    if s[0] == x {
      assert s[..0] + s[1..] == s[1..];
    } else {
      var t := s[1..];
      assert x in t by { assert s == [s[0]] + t; }
      RemoveFirstSplits(t, x);
      SplitAfterHead(s, FirstIndex(t, x));
    }
  }

  lemma SplitAfterHead(s: seq<int>, k: nat)
    requires k + 1 < |s|
    ensures s[..k + 1] + s[k + 2..] == [s[0]] + (s[1..][..k] + s[1..][k + 1..])
  {
    assert s[..k + 1] == [s[0]] + s[1..][..k];
    assert s[k + 2..] == s[1..][k + 1..];
  }

  /** The list a tap on header `index` hands to the selection setter, or None
      when the tap returns before reaching it. */
  function ToggleCandidate(mode: Mode, s: seq<int>, index: int): Option<seq<int>> {
    if index !in s then
      Some((if mode != MultipleSelection then [] else s) + [index])
    else if mode == SingleSelectionOneAlwaysOpen then None
    else Some(RemoveFirst(s, index))
  }

  /** Opening: the tapped index joins the selection (multiple selection) or
      replaces it (the other modes). Closing removes one occurrence, except in
      the always-open mode, where closing is refused. */
  lemma ToggleCandidateCases(mode: Mode, s: seq<int>, index: int)
    ensures index !in s && mode == MultipleSelection ==> ToggleCandidate(mode, s, index) == Some(s + [index])
    ensures index !in s && mode != MultipleSelection ==> ToggleCandidate(mode, s, index) == Some([index])
    ensures index in s && mode == SingleSelectionOneAlwaysOpen ==> ToggleCandidate(mode, s, index) == None
    ensures index in s && mode != SingleSelectionOneAlwaysOpen ==>
              && ToggleCandidate(mode, s, index).Some?
              && multiset(ToggleCandidate(mode, s, index).value) == multiset(s) - multiset{index}
  {
    assert [] + [index] == [index];
  }

  /** A tap never proposes a selection the setter rejects, as long as the
      current selection meets the mode and the tapped index is registered.
      (The mode can be changed without revalidation, so the premise is not an
      invariant of the control.) */
  lemma {:induction false} ToggleKeepsAdmissible(mode: Mode, s: seq<int>, index: int, count: int)
    requires Admissible(mode, s, count)
    requires 0 <= index < count
    ensures ToggleCandidate(mode, s, index).Some? ==> Validate(mode, ToggleCandidate(mode, s, index).value, count) == Pass
  {
    if index in s && mode != SingleSelectionOneAlwaysOpen {
      var c := RemoveFirst(s, index);
      forall k | 0 <= k < |c| ensures 0 <= c[k] < count {
        assert c[k] in multiset(c);
        assert c[k] in multiset(s);
        var j :| 0 <= j < |s| && s[j] == c[k];
      }
      if mode == SingleSelection {
        assert |s| == 1;
      }
      assert Admissible(mode, c, count);
    }
  }

  /** In the always-open mode a tap that reaches the setter proposes exactly
      one index: the selection is never emptied by a tap. */
  lemma AlwaysOpenCandidateIsSingle(s: seq<int>, index: int)
    ensures ToggleCandidate(SingleSelectionOneAlwaysOpen, s, index).Some? ==>
              ToggleCandidate(SingleSelectionOneAlwaysOpen, s, index).value == [index]
  {
  }

  /** Removing what was just appended restores the list. */
  lemma {:induction false} RemoveFirstAppended(s: seq<int>, x: int)
    requires x !in s
    ensures RemoveFirst(s + [x], x) == s
  {
    if s != [] {
      assert (s + [x])[1..] == s[1..] + [x];
      RemoveFirstAppended(s[1..], x);
      assert s == [s[0]] + s[1..];
    }
  }

  /** In multiple selection, opening an entry and then closing it again gives
      back the selection it started from. */
  lemma ToggleTwiceRestores(s: seq<int>, index: int)
    requires index !in s
    ensures ToggleCandidate(MultipleSelection, s, index) == Some(s + [index])
    ensures ToggleCandidate(MultipleSelection, s + [index], index) == Some(s)
  {
    RemoveFirstAppended(s, index);
  }
}

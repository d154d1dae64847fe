/**
 * The layout selection screen (screens/layout_selection_screen.py): the guest picks
 * a single photo or a four-photo collage, then confirms with Next. Whether an event
 * hits one of the two option previews or the Next button is decided by widgets
 * outside the model and passed in as a Hits value.
 */
module LayoutSelectionScreen {

  import opened Common

  const Single := "single"
  const Collage := "collage"

  datatype Colour = ActiveColour | InactiveColour

  /** The highlight state of the two options and the Next button. */
  datatype Look = Look(option1: Colour, option2: Colour, next: Colour)

  /** Which widgets' is_clicked answered True for an event. */
  datatype Hits = Hits(option1: bool, option2: bool, next: bool)

  /**
   * _update_ui_state: an option is drawn in the active colour exactly when it is the
   * selected one (its background highlighted along with it), and Next exactly when
   * some layout is selected.
   */
  function LookFor(selected: Option<string>): (l: Look)
    ensures l.option1 == ActiveColour <==> selected == Some(Single)
    ensures l.option2 == ActiveColour <==> selected == Some(Collage)
    ensures l.next == ActiveColour <==> selected.Some?
  {
    Look(if selected == Some(Single) then ActiveColour else InactiveColour,
         if selected == Some(Collage) then ActiveColour else InactiveColour,
         if selected.Some? then ActiveColour else InactiveColour)
  }

  /** The number of photos a layout needs: one for 'single', four for anything else. */
  function PhotoCount(mode: string): int {
    if mode == Single then 1 else 4
  }

  /** The selection after an event: option 2 is checked after option 1, so it wins. */
  function SelectedAfter(selected: Option<string>, hits: Hits): Option<string> {
    if hits.option2 then Some(Collage) else if hits.option1 then Some(Single) else selected
  }

  /** The switch to the countdown that confirming a selection requests. */
  function Confirm(mode: string): Switch {
    Switch("countdown", map["mode" := Str(mode), "total_photos" := Int(PhotoCount(mode))])
  }

  /**
   * Confirming a mode asks the countdown for that mode with one photo exactly for a
   * single and four otherwise; there is no selection after an event only when there
   * was none and neither option was hit; option 2 wins when both are hit.
   */
  lemma ConfirmCounts(selected: Option<string>, hits: Hits, mode: string)
    ensures SelectedAfter(selected, hits).None? <==> !(selected.Some? || hits.option1 || hits.option2)
    ensures var c := Confirm(mode);
      c.target == "countdown" && c.context.Keys == {"mode", "total_photos"} && c.context["mode"] == Str(mode)
    ensures Confirm(mode).context["total_photos"] == Int(1) <==> mode == Single
    ensures mode != Single ==> Confirm(mode).context["total_photos"] == Int(4)
    ensures hits.option1 && hits.option2 ==> SelectedAfter(selected, hits) == Some(Collage)
  {
  }

  class LayoutSelectionScreen {
    var selected: Option<string>
    var look: Look

    /** The widgets always show the current selection. */
    predicate Valid()
      reads this
    {
      look == LookFor(selected)
    }

    constructor ()
      ensures selected == None && Valid()
    {
      selected := None;
      look := LookFor(None);
    }

    /** _update_ui_state */
    method UpdateUiState()
      modifies this
      ensures selected == old(selected) && Valid()
    {
      var o1 := if selected == Some(Single) then ActiveColour else InactiveColour;
      var o2 := if selected == Some(Collage) then ActiveColour else InactiveColour;
      var n := if selected.Some? then ActiveColour else InactiveColour;
      look := Look(o1, o2, n);
    }

    /**
     * handle_event: option 1 selects 'single', option 2 'collage' (both hit: 'collage');
     * Next with a selection asks for the countdown with that mode and its photo count.
     */
    method HandleEvent(hits: Hits) returns (r: Option<Switch>)
      modifies this
      requires Valid()
      ensures Valid()
      ensures selected == SelectedAfter(old(selected), hits)
      ensures r.Some? <==> selected.Some? && hits.next
      ensures r.Some? ==> r.value == Confirm(selected.value)
    {
      if hits.option1 {
        selected := Some(Single);
        UpdateUiState();
      }
      if hits.option2 {
        selected := Some(Collage);
        UpdateUiState();
      }
      if selected.Some? && hits.next {
        return Some(Confirm(selected.value));
      }
      r := None;
    }

    /** on_enter: the selection is cleared and the widgets dimmed. */
    method OnEnter()
      modifies this
      ensures selected == None && Valid()
      ensures look == Look(InactiveColour, InactiveColour, InactiveColour)
    {
      selected := None;
      UpdateUiState();
    }
  }
}

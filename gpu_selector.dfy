/**
 * The dropdown selector (ui/gpu_selector.py): a main button showing the current value
 * and, below it, one button per option that is shown and clickable only while the
 * dropdown is expanded. Buttons react to a mouse press or a touch inside their
 * rectangle (the is_clicked test of ui/gpu_button.py).
 */
module GpuSelector {

  import opened Common

  const ButtonHeight := 50
  /** Vertical distance between the tops of consecutive buttons. */
  const RowPitch := 55

  /** GPUButton.is_clicked: a press (mouse or touch) inside the rectangle. */
  predicate Clicked(r: Rect, e: Event) {
    e.Press().Some? && r.Contains(e.Press().value.0, e.Press().value.1)
  }

  /** The index of the first option rectangle the event hits, if any. */
  function FirstHit(rects: seq<Rect>, e: Event): (r: Option<nat>)
    ensures r.Some? ==> r.value < |rects| && Clicked(rects[r.value], e) &&
                        forall j :: 0 <= j < r.value ==> !Clicked(rects[j], e)
    ensures r.None? ==> forall j :: 0 <= j < |rects| ==> !Clicked(rects[j], e)
    decreases |rects|
  {
    if rects == [] then None
    else if Clicked(rects[0], e) then Some(0)
    else
      var t := FirstHit(rects[1..], e);
      if t.Some? then Some(t.value + 1) else None
  }

  /**
   * The buttons never overlap: the main button and the option rows are RowPitch apart
   * and only ButtonHeight tall, so one press hits at most one of them.
   */
  lemma RowsDisjoint(x: int, y: int, w: int, i: int, j: int, px: int, py: int)
    requires -1 <= i < j
    ensures !(Rect(x, y + RowPitch * (i + 1), w, ButtonHeight).Contains(px, py) &&
              Rect(x, y + RowPitch * (j + 1), w, ButtonHeight).Contains(px, py))
  {
  }

  class Selector {
    const options: seq<string>
    const x: int
    const y: int
    const width: int
    var selected: Value
    var expanded: bool
    var mainRect: Rect
    var optionRects: seq<Rect>

    /** Option i sits RowPitch * (i + 1) below the top, as wide as the selector. */
    predicate Placed()
      reads this
    {
      |optionRects| == |options| &&
      forall i :: 0 <= i < |options| ==> optionRects[i] == Rect(x, y + RowPitch * (i + 1), width, ButtonHeight)
    }

    constructor (opts: seq<string>, value: Value, px: int, py: int, w: int)
      ensures options == opts && selected == value && x == px && y == py && width == w
      ensures !expanded && mainRect == Rect(px, py, w, ButtonHeight)
      ensures Placed()
    {
      options, x, y, width := opts, px, py, w;
      selected := value;
      expanded := false;
      mainRect := Rect(px, py, w, ButtonHeight);
      optionRects := [];
      new;
      CreateOptions();
    }

    /** _create_options: one button per option, each RowPitch below the previous. */
    method CreateOptions()
      modifies this
      ensures Placed()
      ensures selected == old(selected) && expanded == old(expanded) && mainRect == old(mainRect)
    {
      optionRects := [];
      var startY := y + RowPitch;
      for i := 0 to |options|
        invariant |optionRects| == i
        invariant startY == y + RowPitch * (i + 1)
        invariant forall j :: 0 <= j < i ==> optionRects[j] == Rect(x, y + RowPitch * (j + 1), width, ButtonHeight)
        invariant selected == old(selected) && expanded == old(expanded) && mainRect == old(mainRect)
      {
        optionRects := optionRects + [Rect(x, startY, width, ButtonHeight)];
        startY := startY + RowPitch;
      }
    }

    /** handle_event would report the event as handled. */
    predicate Handles(e: Event)
      reads this
    {
      Clicked(mainRect, e) || (expanded && FirstHit(optionRects, e).Some?)
    }

    /**
     * handle_event: a click on the main button toggles the dropdown and is handled,
     * without looking at the options; while expanded, the first option hit becomes the
     * value and collapses the dropdown; anything else is not handled and changes
     * nothing (in particular option clicks while collapsed).
     */
    method HandleEvent(e: Event) returns (handled: bool)
      modifies this
      requires Placed()
      ensures Placed() && mainRect == old(mainRect)
      ensures handled == old(Handles(e))
      ensures Clicked(mainRect, e) ==>
        handled && expanded == !old(expanded) && selected == old(selected)
      ensures !Clicked(mainRect, e) && old(expanded) && FirstHit(optionRects, e).Some? ==>
        handled && !expanded && selected == Str(options[FirstHit(optionRects, e).value])
      ensures !Clicked(mainRect, e) && (!old(expanded) || FirstHit(optionRects, e).None?) ==>
        !handled && expanded == old(expanded) && selected == old(selected)
    {
      if Clicked(mainRect, e) {
        expanded := !expanded;
        return true;
      }
      if expanded {
        var i := 0;
        while i < |optionRects|
          invariant 0 <= i <= |optionRects|
          invariant forall j :: 0 <= j < i ==> !Clicked(optionRects[j], e)
        {
          if Clicked(optionRects[i], e) {
            selected := Str(options[i]);
            expanded := false;
            return true;
          }
          i := i + 1;
        }
      }
      handled := false;
    }

    /** get_value */
    function GetValue(): Value
      reads this
    {
      selected
    }

    /** draw: the rectangles drawn, main button first; options only while expanded. */
    function Drawn(): (r: seq<Rect>)
      reads this
      requires Placed()
      ensures |r| == 1 + (if expanded then |options| else 0)
      ensures r[0] == mainRect
      ensures forall i :: 1 <= i < |r| ==> expanded && r[i] == Rect(x, y + RowPitch * i, width, ButtonHeight)
    {
      [mainRect] + (if expanded then optionRects else [])
    }
  }
}

/**
 * The capture-target handling shared, line for line, by the two gphoto2 camera
 * handlers (_set_config and _reset_config in cameras/gphoto2_eos_camera_handler.py and
 * in the CameraHandler of focus-gui.py). Before live view the camera's capture target
 * is switched to its internal memory, remembering the original once; before a real
 * capture, and at shut-down, the original is put back. RAW image formats cannot be
 * previewed.
 *
 * The camera's configuration tree is reduced to the two widgets these functions read:
 * 'capturetarget' (its value and choices, if the widget exists) and 'imageformat'.
 */
module CameraConfig {

  import opened Common
  import TextUtil

  /** `'internal' in choice.lower()` */
  predicate IsInternal(choice: string) {
    TextUtil.Contains(TextUtil.Lower(choice), "internal")
  }

  /** `'raw' in value.lower()` */
  predicate IsRaw(format: string) {
    TextUtil.Contains(TextUtil.Lower(format), "raw")
  }

  /** The index of the first internal choice, if any. */
  function FirstInternal(choices: seq<string>): (r: Option<nat>)
    ensures r.Some? ==> r.value < |choices| && IsInternal(choices[r.value]) &&
                        forall j :: 0 <= j < r.value ==> !IsInternal(choices[j])
    ensures r.None? ==> forall j :: 0 <= j < |choices| ==> !IsInternal(choices[j])
    decreases |choices|
  {
    if choices == [] then None
    else if IsInternal(choices[0]) then Some(0)
    else
      var t := FirstInternal(choices[1..]);
      if t.Some? then Some(t.value + 1) else None
  }

  /**
   * The capture-target side of the configuration: the widget's current value, the
   * remembered original (old_capturetarget) and every value sent to the camera with
   * set_config, oldest first.
   */
  datatype Target = Target(value: string, saved: Option<string>, sent: seq<string>)

  /**
   * The capture-target part of _set_config: remember the original if nothing is
   * remembered yet, then select the first internal choice, if there is one, and send
   * the configuration. Without a 'capturetarget' widget nothing happens. When the
   * camera rejects set_config (`accepted` false) the widget keeps the new value but
   * nothing reaches the camera, and _set_config raises (SelectRaises).
   */
  function Selected(hasWidget: bool, choices: seq<string>, t: Target, accepted: bool): Target {
    if !hasWidget then t
    else
      var t1 := t.(saved := if t.saved.None? then Some(t.value) else t.saved);
      var i := FirstInternal(choices);
      if i.None? then t1
      else t1.(value := choices[i.value], sent := if accepted then t1.sent + [choices[i.value]] else t1.sent)
  }

  /** _set_config raises exactly when it calls set_config and the camera rejects it. */
  predicate SelectRaises(hasWidget: bool, choices: seq<string>, accepted: bool) {
    hasWidget && FirstInternal(choices).Some? && !accepted
  }

  /**
   * _reset_config: put the remembered original back, send it, and forget it. When the
   * camera rejects set_config the widget holds the original again, nothing is sent and
   * the original stays remembered, because the exception skips the line that forgets it.
   */
  function Restored(hasWidget: bool, t: Target, accepted: bool): Target {
    if t.saved.Some? && hasWidget then
      (if accepted then Target(t.saved.value, None, t.sent + [t.saved.value]) else t.(value := t.saved.value))
    else t
  }

  /** _reset_config raises exactly when it calls set_config and the camera rejects it. */
  predicate RestoreRaises(hasWidget: bool, t: Target, accepted: bool) {
    t.saved.Some? && hasWidget && !accepted
  }

  /** The result of _set_config: false exactly when the image format is a RAW one. */
  predicate PreviewAllowed(format: Option<string>) {
    !(format.Some? && IsRaw(format.value))
  }

  /**
   * The original is remembered once: a second _set_config keeps what the first one
   * remembered, which is the value the widget had before the first.
   */
  lemma SavedOnce(hasWidget: bool, choices: seq<string>, t: Target, a1: bool, a2: bool)
    requires hasWidget && t.saved.None?
    ensures Selected(hasWidget, choices, t, a1).saved == Some(t.value)
    ensures Selected(hasWidget, choices, Selected(hasWidget, choices, t, a1), a2).saved == Some(t.value)
  {
  }

  /**
   * _set_config followed by _reset_config leaves the widget at its original value
   * with nothing remembered; if an internal choice exists the camera was sent that
   * choice and then the original.
   */
  lemma SelectThenRestore(hasWidget: bool, choices: seq<string>, t: Target)
    requires t.saved.None?
    ensures var r := Restored(hasWidget, Selected(hasWidget, choices, t, true), true);
      r.value == t.value && r.saved == None
    ensures hasWidget && FirstInternal(choices).Some? ==>
      Restored(hasWidget, Selected(hasWidget, choices, t, true), true).sent ==
        t.sent + [choices[FirstInternal(choices).value], t.value]
  {
  }

  /** _reset_config with nothing remembered is a no-op. */
  lemma RestoreIdle(hasWidget: bool, t: Target, accepted: bool)
    requires t.saved.None?
    ensures Restored(hasWidget, t, accepted) == t && !RestoreRaises(hasWidget, t, accepted)
  {
  }

  /**
   * A rejected _reset_config loses nothing: the original stays remembered, so the next
   * _reset_config the camera accepts restores and sends it exactly as if the first had
   * not been attempted.
   */
  lemma RejectedRestoreRetries(hasWidget: bool, t: Target)
    ensures Restored(hasWidget, t, false).saved == t.saved
    ensures Restored(hasWidget, Restored(hasWidget, t, false), true) == Restored(hasWidget, t, true)
  {
  }

  /**
   * A rejected _set_config still remembers the original and leaves the sent history
   * alone, so a following accepted _reset_config puts the original back.
   */
  lemma RejectedSelectRestores(hasWidget: bool, choices: seq<string>, t: Target)
    requires t.saved.None?
    ensures var r := Restored(hasWidget, Selected(hasWidget, choices, t, false), true);
      r.value == t.value && r.saved == None &&
      r.sent == (if hasWidget then t.sent + [t.value] else t.sent)
  {
  }

  /** The camera's configuration as far as the handlers use it. */
  class CameraConfig {
    /** The 'capturetarget' widget exists. */
    const hasTargetWidget: bool
    /** Its choices, in order. */
    const choices: seq<string>
    /** The value of the 'imageformat' widget, None when it does not exist. */
    const imageFormat: Option<string>
    var target: string
    var savedTarget: Option<string>
    var sent: seq<string>

    function State(): Target
      reads this
    {
      Target(target, savedTarget, sent)
    }

    constructor (hasWidget: bool, chs: seq<string>, current: string, format: Option<string>)
      ensures hasTargetWidget == hasWidget && choices == chs && imageFormat == format
      ensures State() == Target(current, None, [])
    {
      hasTargetWidget, choices, imageFormat := hasWidget, chs, format;
      target, savedTarget, sent := current, None, [];
    }

    /**
     * _set_config, given whether the camera accepts set_config: `raised` when it
     * rejects it (GPhoto2Error propagates to the caller); otherwise `ok` is false
     * exactly for a RAW image format.
     */
    method SetConfig(accepted: bool) returns (ok: bool, raised: bool)
      modifies this
      ensures State() == Selected(hasTargetWidget, choices, old(State()), accepted)
      ensures raised == SelectRaises(hasTargetWidget, choices, accepted)
      ensures !raised ==> ok == PreviewAllowed(imageFormat)
    {
      raised := false;
      if hasTargetWidget {
        if savedTarget.None? {
          savedTarget := Some(target);
        }
        var n := 0;
        while n < |choices|
          invariant 0 <= n <= |choices|
          invariant forall j :: 0 <= j < n ==> !IsInternal(choices[j])
          invariant State() == old(State()).(saved := savedTarget)
          invariant savedTarget == if old(savedTarget).None? then Some(old(target)) else old(savedTarget)
        {
          if IsInternal(choices[n]) {
            target := choices[n];
            if !accepted {
              return false, true;
            }
            sent := sent + [choices[n]];
            break;
          }
          n := n + 1;
        }
      }
      if imageFormat.Some? && IsRaw(imageFormat.value) {
        return false, false;
      }
      ok := true;
    }

    /**
     * _reset_config, given whether the camera accepts set_config: `raised` when it
     * rejects it, and the original then stays remembered.
     */
    method ResetConfig(accepted: bool) returns (raised: bool)
      modifies this
      ensures State() == Restored(hasTargetWidget, old(State()), accepted)
      ensures raised == RestoreRaises(hasTargetWidget, old(State()), accepted)
    {
      raised := false;
      if savedTarget.Some? && hasTargetWidget {
        target := savedTarget.value;
        if !accepted {
          return true;
        }
        sent := sent + [savedTarget.value];
        savedTarget := None;
      }
    }
  }
}

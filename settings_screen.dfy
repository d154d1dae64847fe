/**
 * The settings screen (screens/settings_screen.py): a camera-source dropdown and two
 * buttons. Apply writes the chosen camera type into the settings, saves them, runs
 * the apply callback (which re-creates the camera) and goes back to the main screen;
 * Cancel goes back without touching the settings. What happens is recorded, in
 * order, in `effects`.
 */
module SettingsScreen {

  import opened Common
  import SM = SettingsManager
  import GS = GpuSelector

  const ApplyRect := Rect(100, 300, 200, 60)
  const BackRect := Rect(350, 300, 150, 60)
  const CameraOptions := ["webcam", "dslr"]
  const SelectorX := 300
  const SelectorY := 140
  const SelectorWidth := 200

  datatype Effect = SetCameraType(v: Value) | SaveSettings | RunApplyCallback | SwitchToMain

  /** The two buttons do not overlap, so one press reaches at most one of them. */
  lemma ButtonsDisjoint(e: Event)
    ensures !(GS.Clicked(ApplyRect, e) && GS.Clicked(BackRect, e))
  {
  }

  /** The effects of Apply, in order: set, save, the callback if there is one, switch. */
  function ApplyEffects(v: Value, hasCallback: bool): seq<Effect> {
    [SetCameraType(v), SaveSettings] + (if hasCallback then [RunApplyCallback] else []) + [SwitchToMain]
  }

  class SettingsScreen {
    const settings: SM.SettingsManager
    const selector: GS.Selector
    /** apply_callback is not None. */
    const hasApplyCallback: bool
    var effects: seq<Effect>

    /**
     * __init__: the dropdown offers webcam and dslr and starts at the setting
     * camera_type, 'webcam' when it is not set.
     */
    constructor (mgr: SM.SettingsManager, hasCallback: bool)
      ensures settings == mgr && hasApplyCallback == hasCallback && effects == []
      ensures fresh(selector) && selector.Placed() && !selector.expanded
      ensures selector.options == CameraOptions
      ensures selector.selected == SM.Lookup(mgr.settings, "camera_type", Some(Str("webcam"))).value
    {
      settings := mgr;
      hasApplyCallback := hasCallback;
      var current := mgr.Get("camera_type", Some(Str("webcam")));
      selector := new GS.Selector(CameraOptions, current.value, SelectorX, SelectorY, SelectorWidth);
      effects := [];
    }

    /**
     * handle_event: an event the dropdown handles goes no further; otherwise Cancel
     * switches to the main screen, and Apply stores the dropdown's value as
     * camera_type, saves, runs the callback and switches to the main screen.
     * `write` says how saving the settings file went.
     */
    method HandleEvent(e: Event, write: SM.WriteOutcome) returns (r: Option<Switch>)
      modifies this, selector, settings
      requires selector.Placed()
      ensures selector.Placed()
      ensures old(selector.Handles(e)) ==>
        r == None && effects == old(effects) &&
        settings.settings == old(settings.settings) && settings.stored == old(settings.stored)
      ensures !old(selector.Handles(e)) ==>
        selector.selected == old(selector.selected) && selector.expanded == old(selector.expanded)
      ensures !old(selector.Handles(e)) && GS.Clicked(BackRect, e) ==>
        r == Some(Switch("main", map[])) && effects == old(effects) + [SwitchToMain] &&
        settings.settings == old(settings.settings) && settings.stored == old(settings.stored)
      ensures !old(selector.Handles(e)) && GS.Clicked(ApplyRect, e) ==>
        var v := old(selector.selected);
        r == Some(Switch("main", map[])) &&
        effects == old(effects) + ApplyEffects(v, hasApplyCallback) &&
        settings.settings == old(settings.settings)["camera_type" := v] &&
        settings.stored == SM.Saved(old(settings.stored), settings.settings, write)
      ensures !old(selector.Handles(e)) && !GS.Clicked(BackRect, e) && !GS.Clicked(ApplyRect, e) ==>
        r == None && effects == old(effects) &&
        settings.settings == old(settings.settings) && settings.stored == old(settings.stored)
    {
      var handled := selector.HandleEvent(e);
      if handled {
        return None;
      }
      r := None;
      if GS.Clicked(BackRect, e) {
        effects := effects + [SwitchToMain];
        r := Some(Switch("main", map[]));
      }
      if GS.Clicked(ApplyRect, e) {
        var v := selector.GetValue();
        settings.Set("camera_type", v);
        effects := effects + [SetCameraType(v)];
        settings.Save(write);
        effects := effects + [SaveSettings];
        if hasApplyCallback {
          effects := effects + [RunApplyCallback];
        }
        effects := effects + [SwitchToMain];
        r := Some(Switch("main", map[]));
      }
    }
  }
}

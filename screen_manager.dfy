/**
 * The screen state machine (screens/screen_manager.py): a name -> screen registry
 * and the one active screen. Screens are opaque objects; what the manager does to
 * them is recorded, in order, in the `calls` trace.
 */
module ScreenManager {

  import opened Common

  /** A screen instance. Two names may be registered for the same instance. */
  type ScreenId = nat

  /** A call the manager makes into a screen. */
  datatype ScreenCall =
    | OnEnter(screen: ScreenId, context: Context)
    | OnExit(screen: ScreenId)
    | EventCall(screen: ScreenId, event: Event)
    | UpdateCall(screen: ScreenId, dt: real)
    | DrawCall(screen: ScreenId, target: ImageId)

  /** The on_exit call made on the screen being left, if there is one. */
  function ExitCalls(current: Option<ScreenId>): seq<ScreenCall> {
    if current.Some? then [OnExit(current.value)] else []
  }

  class Manager {
    var screens: map<string, ScreenId>
    var current: Option<ScreenId>
    /** Every call made into a screen so far, oldest first. */
    var calls: seq<ScreenCall>

    constructor ()
      ensures screens == map[] && current == None && calls == []
    {
      screens := map[];
      current := None;
      calls := [];
    }

    /** add_screen: registers or overwrites one name and calls nothing. */
    method AddScreen(name: string, screen: ScreenId)
      modifies this
      ensures screens == old(screens)[name := screen]
      ensures forall n :: n in old(screens) && n != name ==> n in screens && screens[n] == old(screens)[n]
      ensures current == old(current) && calls == old(calls)
    {
      screens := screens[name := screen];
    }

    /**
     * set_initial_screen: a registered name becomes current and is entered with an
     * empty context; an unknown name raises ValueError (ok == false) and changes nothing.
     */
    method SetInitialScreen(name: string) returns (ok: bool)
      modifies this
      ensures ok <==> name in old(screens)
      ensures screens == old(screens)
      ensures ok ==> current == Some(screens[name]) && calls == old(calls) + [OnEnter(screens[name], map[])]
      ensures !ok ==> current == old(current) && calls == old(calls)
    {
      if name in screens {
        current := Some(screens[name]);
        calls := calls + [OnEnter(screens[name], map[])];
        ok := true;
      } else {
        ok := false;
      }
    }

    /**
     * switch_to: an unknown name is a no-op; otherwise on_exit on the old screen (if
     * any) strictly before on_enter(context) on the new one, which becomes current.
     */
    method SwitchTo(name: string, context: Context)
      modifies this
      ensures screens == old(screens)
      ensures name !in screens ==> current == old(current) && calls == old(calls)
      ensures name in screens ==>
        current == Some(screens[name]) &&
        calls == old(calls) + ExitCalls(old(current)) + [OnEnter(screens[name], context)]
    {
      if name !in screens {
        return;
      }
      if current.Some? {
        calls := calls + [OnExit(current.value)];
      }
      current := Some(screens[name]);
      calls := calls + [OnEnter(screens[name], context)];
    }

    /**
     * handle_event: forwards the event to the current screen only. The screen may use
     * the switch_to callback while handling it; `reaction` is that request, which the
     * manager then carries out. Without a current screen nothing happens.
     */
    method HandleEvent(event: Event, reaction: Option<Switch>)
      modifies this
      ensures screens == old(screens)
      ensures old(current).None? ==> current == old(current) && calls == old(calls)
      ensures old(current).Some? && (reaction.None? || reaction.value.target !in screens) ==>
        current == old(current) && calls == old(calls) + [EventCall(old(current).value, event)]
      ensures old(current).Some? && reaction.Some? && reaction.value.target in screens ==>
        current == Some(screens[reaction.value.target]) &&
        calls == old(calls) + [EventCall(old(current).value, event), OnExit(old(current).value),
                               OnEnter(screens[reaction.value.target], reaction.value.context)]
    {
      if current.Some? {
        calls := calls + [EventCall(current.value, event)];
        if reaction.Some? {
          SwitchTo(reaction.value.target, reaction.value.context);
        }
      }
    }

    /** update: forwards dt to the current screen, with the same callback as handle_event. */
    method Update(dt: real, reaction: Option<Switch>)
      modifies this
      ensures screens == old(screens)
      ensures old(current).None? ==> current == old(current) && calls == old(calls)
      ensures old(current).Some? && (reaction.None? || reaction.value.target !in screens) ==>
        current == old(current) && calls == old(calls) + [UpdateCall(old(current).value, dt)]
      ensures old(current).Some? && reaction.Some? && reaction.value.target in screens ==>
        current == Some(screens[reaction.value.target]) &&
        calls == old(calls) + [UpdateCall(old(current).value, dt), OnExit(old(current).value),
                               OnEnter(screens[reaction.value.target], reaction.value.context)]
    {
      if current.Some? {
        calls := calls + [UpdateCall(current.value, dt)];
        if reaction.Some? {
          SwitchTo(reaction.value.target, reaction.value.context);
        }
      }
    }

    /** draw: forwards the target surface to the current screen; no callback. */
    method Draw(target: ImageId)
      modifies this
      ensures screens == old(screens) && current == old(current)
      ensures calls == old(calls) + (if current.Some? then [DrawCall(current.value, target)] else [])
    {
      if current.Some? {
        calls := calls + [DrawCall(current.value, target)];
      }
    }

    /** exit: one final on_exit on the current screen, which stays current. */
    method Exit()
      modifies this
      ensures screens == old(screens) && current == old(current)
      ensures calls == old(calls) + ExitCalls(current)
    {
      if current.Some? {
        calls := calls + [OnExit(current.value)];
      }
    }
  }
}

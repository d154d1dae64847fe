/**
 * The CameraHandler of focus-gui.py: a Qt object driving a gphoto2 camera. Continuous
 * preview is a self-reposting event: each do_next event takes one preview and posts
 * the next do_next, until `running` is cleared; the next do_next then restores the
 * capture target and posts nothing. Every image delivered is emitted as new_image.
 *
 * Preview and capture outcomes are parameters: Some(image) when gphoto2 delivered one,
 * None when it raised GPhoto2Error. The Qt event queue is reduced to a count of posted
 * do_next events; delivering one is a call of DoContinuous.
 */
module FocusCameraHandler {

  import opened Common
  import opened CameraConfig

  /** What the handler's configuration offers; fixed for the camera's lifetime. */
  datatype Camera = Camera(hasWidget: bool, choices: seq<string>, format: Option<string>)

  /** The handler: `running`, the images emitted so far, the do_next events posted, the capture target. */
  datatype Handler = Handler(running: bool, emitted: seq<ImageId>, posts: nat, target: Target)

  /** _do_preview: an error stops the stream; an image is emitted. */
  function Previewed(h: Handler, preview: Option<ImageId>): Handler {
    if preview.None? then h.(running := false) else h.(emitted := h.emitted + [preview.value])
  }

  /**
   * _do_continuous: when not running, restore the capture target and stop; otherwise
   * take a preview and post the next do_next, whether or not the preview succeeded.
   */
  function Continued(cam: Camera, h: Handler, preview: Option<ImageId>): Handler {
    if !h.running then h.(target := Restored(cam.hasWidget, h.target, true))
    else Previewed(h, preview).(posts := h.posts + 1)
  }

  /**
   * continuous: while running it only clears `running`; otherwise it configures the
   * camera and, unless the format is RAW, starts the stream with a first preview.
   */
  function Toggled(cam: Camera, h: Handler, preview: Option<ImageId>): Handler {
    if h.running then h.(running := false)
    else
      var h1 := h.(target := Selected(cam.hasWidget, cam.choices, h.target, true));
      if !PreviewAllowed(cam.format) then h1 else Continued(cam, h1.(running := true), preview)
  }

  /** one_shot: nothing while running; otherwise configure and take one preview unless RAW. */
  function OneShotDone(cam: Camera, h: Handler, preview: Option<ImageId>): Handler {
    if h.running then h
    else
      var h1 := h.(target := Selected(cam.hasWidget, cam.choices, h.target, true));
      if !PreviewAllowed(cam.format) then h1 else Previewed(h1, preview)
  }

  /** take_photo: nothing while running; otherwise restore the target and capture. */
  function Photographed(cam: Camera, h: Handler, capture: Option<ImageId>): Handler {
    if h.running then h
    else
      var h1 := h.(target := Restored(cam.hasWidget, h.target, true));
      if capture.None? then h1.(running := false) else h1.(emitted := h1.emitted + [capture.value])
  }

  /** The handler after do_next events with the given preview outcomes. */
  function Stream(cam: Camera, h: Handler, previews: seq<Option<ImageId>>): Handler
    decreases |previews|
  {
    if previews == [] then h else Stream(cam, Continued(cam, h, previews[0]), previews[1..])
  }

  /** The images of a sequence of successful previews. */
  function Images(previews: seq<Option<ImageId>>): seq<ImageId>
    requires forall i :: 0 <= i < |previews| ==> previews[i].Some?
    decreases |previews|
  {
    if previews == [] then [] else [previews[0].value] + Images(previews[1..])
  }

  /**
   * While previews succeed the stream keeps running: each do_next emits its image, in
   * order, and posts exactly one more do_next; the capture target is left alone.
   */
  lemma {:induction false} StreamEmitsInOrder(cam: Camera, h: Handler, previews: seq<Option<ImageId>>)
    requires h.running
    requires forall i :: 0 <= i < |previews| ==> previews[i].Some?
    ensures var r := Stream(cam, h, previews);
      r.running && r.emitted == h.emitted + Images(previews) &&
      r.posts == h.posts + |previews| && r.target == h.target
    decreases |previews|
  {
    if previews != [] {
      StreamEmitsInOrder(cam, Continued(cam, h, previews[0]), previews[1..]);
    }
  }

  /**
   * A preview error stops the stream: the do_next it posted is the last one, and when
   * it arrives the capture target is restored and nothing more is emitted or posted.
   */
  lemma ErrorEndsStream(cam: Camera, h: Handler, next: Option<ImageId>)
    requires h.running
    ensures var failed := Continued(cam, h, None);
      !failed.running && failed.emitted == h.emitted && failed.posts == h.posts + 1 &&
      Continued(cam, failed, next) == failed.(target := Restored(cam.hasWidget, h.target, true))
  {
  }

  /**
   * continuous twice from idle with a working camera: the first starts the stream,
   * the second only stops it, and the next do_next restores the original target.
   */
  lemma ToggleOnOff(cam: Camera, h: Handler, first: Option<ImageId>, next: Option<ImageId>)
    requires !h.running && h.target.saved.None? && PreviewAllowed(cam.format) && first.Some?
    ensures Toggled(cam, h, first).running
    ensures var off := Toggled(cam, Toggled(cam, h, first), next);
      !off.running && off.emitted == h.emitted + [first.value] &&
      Continued(cam, off, next).target.value == h.target.value &&
      Continued(cam, off, next).posts == h.posts + 1
  {
  }

  /** With a RAW image format neither continuous nor one_shot starts anything or emits. */
  lemma RawFormatRefused(cam: Camera, h: Handler, p: Option<ImageId>)
    requires !h.running && !PreviewAllowed(cam.format)
    ensures !Toggled(cam, h, p).running && Toggled(cam, h, p).emitted == h.emitted
    ensures OneShotDone(cam, h, p).emitted == h.emitted && OneShotDone(cam, h, p).posts == h.posts
  {
  }

  class FocusCameraHandler {
    const config: CameraConfig
    var running: bool
    /** The images sent with the new_image signal, oldest first. */
    var emitted: seq<ImageId>
    /** The do_next events posted so far. */
    var posts: nat
    /** camera.exit() was called. */
    var exited: bool

    function Cam(): Camera {
      Camera(config.hasTargetWidget, config.choices, config.imageFormat)
    }

    function State(): Handler
      reads this, config
    {
      Handler(running, emitted, posts, config.State())
    }

    constructor (cfg: CameraConfig)
      ensures config == cfg && !running && emitted == [] && posts == 0 && !exited
    {
      config := cfg;
      running, emitted, posts, exited := false, [], 0, false;
    }

    /** _do_preview */
    method DoPreview(preview: Option<ImageId>)
      modifies this
      ensures State() == Previewed(old(State()), preview) && exited == old(exited)
    {
      if preview.None? {
        running := false;
        return;
      }
      emitted := emitted + [preview.value];
    }

    /** _do_continuous, also what event() does with a do_next event. */
    method DoContinuous(preview: Option<ImageId>)
      modifies this, config
      ensures State() == Continued(Cam(), old(State()), preview) && exited == old(exited)
    {
      if !running {
        var _ := config.ResetConfig(true);
        return;
      }
      DoPreview(preview);
      posts := posts + 1;
    }

    /** one_shot */
    method OneShot(preview: Option<ImageId>)
      modifies this, config
      ensures State() == OneShotDone(Cam(), old(State()), preview) && exited == old(exited)
    {
      if running {
        return;
      }
      var ok, _ := config.SetConfig(true);
      if !ok {
        return;
      }
      DoPreview(preview);
    }

    /** continuous */
    method Continuous(preview: Option<ImageId>)
      modifies this, config
      ensures State() == Toggled(Cam(), old(State()), preview) && exited == old(exited)
    {
      if running {
        running := false;
        return;
      }
      var ok, _ := config.SetConfig(true);
      if !ok {
        return;
      }
      running := true;
      DoContinuous(preview);
    }

    /** take_photo, given what _do_capture's capture and download delivered. */
    method TakePhoto(capture: Option<ImageId>)
      modifies this, config
      ensures State() == Photographed(Cam(), old(State()), capture) && exited == old(exited)
    {
      if running {
        return;
      }
      var _ := config.ResetConfig(true);
      if capture.None? {
        running := false;
        return;
      }
      emitted := emitted + [capture.value];
    }

    /** shut_down */
    method ShutDown()
      modifies this, config
      ensures State() == old(State()).(running := false, target := Restored(Cam().hasWidget, old(State()).target, true))
      ensures exited
    {
      running := false;
      var _ := config.ResetConfig(true);
      exited := true;
    }
  }
}

/**
 * The gphoto2 camera handler (cameras/gphoto2_eos_camera_handler.py): live view is a
 * background worker that, while live view is active, keeps replacing the latest
 * preview frame; single previews and full captures are refused while the worker runs.
 *
 * The worker thread is modelled as one sequential step of its loop (WorkerStep). What
 * a preview or a capture delivered is passed in as a Delivery, and whether the camera
 * accepts set_config as a flag. An exception that escapes a public method is the
 * outcome Raised; one that escapes run() ends the worker thread for good.
 */
module Gphoto2Handler {

  import opened Common
  import opened CameraConfig

  /**
   * What a preview or capture request delivered: an image; a GPhoto2Error, which
   * _do_preview and _do_capture catch; or data the image library cannot decode in
   * _send_file, whose error they do not catch.
   */
  datatype Delivery = Delivered(image: ImageId) | GPhotoFailed | Undecodable

  /** What a public method did: returned a value, or let an exception escape. */
  datatype Outcome = Returned(image: Option<ImageId>) | Raised

  /**
   * The handler's own flags; `starts` counts calls of the thread's start(), and `died`
   * says that an exception ended run().
   */
  datatype Flags = Flags(running: bool, live: bool, latest: Option<ImageId>, starts: nat, stopped: bool, died: bool)

  /** After __init__: nothing running, no image yet. */
  const Initial := Flags(false, false, None, 0, false, false)

  /** The worker has been started exactly when `running` is set. */
  predicate StartedOnce(f: Flags) {
    f.starts == if f.running then 1 else 0
  }

  /**
   * start_continuous, given whether _set_config returned true (false also when it
   * raised): otherwise nothing changes; live view is switched on and the worker is
   * started unless it already runs.
   */
  function Started(f: Flags, configOk: bool): Flags {
    if !configOk then f
    else if f.running then f.(live := true)
    else f.(live := true, running := true, starts := f.starts + 1)
  }

  /** stop_continuous: only live view is switched off. */
  function Stopped(f: Flags): Flags {
    f.(live := false)
  }

  /** The flags after _do_preview: a GPhoto2Error switches live view off. */
  function Previewed(f: Flags, preview: Delivery): Flags {
    if preview.GPhotoFailed? then f.(live := false) else f
  }

  /**
   * One iteration of run(): only a started worker that has not been told to stop and
   * has not died iterates; while live view is active it requests a preview and stores
   * a good one. An undecodable preview escapes run() and the thread dies, with
   * `running` still set.
   */
  function Stepped(f: Flags, preview: Delivery): Flags {
    if f.running && !f.stopped && !f.died && f.live then
      match preview
      case Delivered(image) => f.(latest := Some(image))
      case GPhotoFailed => f.(live := false)
      case Undecodable => f.(died := true)
    else f
  }

  /** The operations on the handler, with the outcomes of their camera calls. */
  datatype Op =
    | StartContinuous(configOk: bool)
    | StopContinuous
    | OneShot(configOk: bool, preview: Delivery)
    | TakePhoto
    | WorkerStep(preview: Delivery)
    | ShutDown

  function Apply(f: Flags, op: Op): Flags {
    match op
    case StartContinuous(ok) => Started(f, ok)
    case StopContinuous => Stopped(f)
    case OneShot(ok, p) => if f.running || !ok then f else Previewed(f, p)
    case TakePhoto => f
    case WorkerStep(p) => Stepped(f, p)
    case ShutDown => f.(stopped := true)
  }

  function Run(f: Flags, ops: seq<Op>): Flags
    decreases |ops|
  {
    if ops == [] then f else Run(Apply(f, ops[0]), ops[1..])
  }

  /**
   * The worker is started at most once: over any sequence of operations it has been
   * started exactly when `running` is set, and `running` is never cleared.
   */
  lemma {:induction false} WorkerStartedOnce(f: Flags, ops: seq<Op>)
    requires StartedOnce(f)
    ensures StartedOnce(Run(f, ops)) && Run(f, ops).starts <= 1
    ensures f.running ==> Run(f, ops).running
    decreases |ops|
  {
    if ops != [] {
      WorkerStartedOnce(Apply(f, ops[0]), ops[1..]);
    }
  }

  /**
   * Once a start_continuous has succeeded, every later one_shot and take_photo is
   * refused, whatever happens in between.
   */
  lemma RefusedAfterStart(before: seq<Op>, after: seq<Op>)
    ensures var f := Run(Started(Run(Initial, before), true), after);
      f.running && Apply(f, OneShot(true, Delivered(0))) == f
  {
    WorkerStartedOnce(Initial, before);
    WorkerStartedOnce(Started(Run(Initial, before), true), after);
  }

  /**
   * A worker step while live: a good preview becomes the latest image; a GPhoto2Error
   * switches live view off; an undecodable preview kills the worker. The last two
   * keep the previous image.
   */
  lemma WorkerStepOutcome(f: Flags, preview: Delivery)
    requires f.running && !f.stopped && !f.died && f.live
    ensures preview.Delivered? ==>
      Stepped(f, preview).latest == Some(preview.image) && Stepped(f, preview).live && !Stepped(f, preview).died
    ensures preview.GPhotoFailed? ==>
      Stepped(f, preview).latest == f.latest && !Stepped(f, preview).live && !Stepped(f, preview).died
    ensures preview.Undecodable? ==>
      Stepped(f, preview).latest == f.latest && Stepped(f, preview).died && Stepped(f, preview).running
  {
  }

  /**
   * get_latest_image is None until a worker step has stored a preview: a run without
   * a successful live step leaves it as it was.
   */
  lemma {:induction false} LatestOnlyFromWorker(f: Flags, ops: seq<Op>)
    requires forall i :: 0 <= i < |ops| ==> !(ops[i].WorkerStep? && ops[i].preview.Delivered?)
    ensures Run(f, ops).latest == f.latest
    decreases |ops|
  {
    if ops != [] {
      assert forall i :: 0 <= i < |ops[1..]| ==> ops[1..][i] == ops[i + 1];
      LatestOnlyFromWorker(Apply(f, ops[0]), ops[1..]);
    }
  }

  /**
   * A dead worker stays dead: `running` stays set, so start_continuous never starts
   * another worker and one_shot is refused for good, and the latest image never
   * changes again.
   */
  lemma {:induction false} DeadWorkerIsFinal(f: Flags, ops: seq<Op>)
    requires f.running && f.died
    ensures var r := Run(f, ops);
      r.running && r.died && r.latest == f.latest && r.starts == f.starts &&
      Apply(r, OneShot(true, Delivered(0))) == r
    decreases |ops|
  {
    if ops != [] {
      DeadWorkerIsFinal(Apply(f, ops[0]), ops[1..]);
    }
  }

  class EosCameraHandler {
    /** The camera's configuration (get_config at start-up) and old_capturetarget. */
    const config: CameraConfig
    var running: bool
    var liveViewActive: bool
    var latestImage: Option<ImageId>
    /** How often the worker thread was started. */
    var workerStarts: nat
    /** The stop event is set. */
    var stopRequested: bool
    /** An exception ended the worker thread's run(). */
    var workerDied: bool
    /** camera.exit() was called. */
    var exited: bool

    function State(): Flags
      reads this
    {
      Flags(running, liveViewActive, latestImage, workerStarts, stopRequested, workerDied)
    }

    /** __init__, given the configuration the camera reported. */
    constructor (cfg: CameraConfig)
      ensures config == cfg && State() == Initial && !exited
    {
      config := cfg;
      running, liveViewActive, latestImage := false, false, None;
      workerStarts, stopRequested, workerDied, exited := 0, false, false, false;
    }

    /**
     * start_continuous, given whether the camera accepts set_config: `raised` when
     * _set_config raised, and then no flag changes.
     */
    method StartContinuous(accepted: bool) returns (raised: bool)
      modifies this, config
      ensures config.State() == Selected(config.hasTargetWidget, config.choices, old(config.State()), accepted)
      ensures raised == SelectRaises(config.hasTargetWidget, config.choices, accepted)
      ensures State() == Started(old(State()), !raised && PreviewAllowed(config.imageFormat))
      ensures exited == old(exited)
    {
      var ok;
      ok, raised := config.SetConfig(accepted);
      if raised || !ok {
        return;
      }
      liveViewActive := true;
      if !running {
        running := true;
        workerStarts := workerStarts + 1;
      }
    }

    /** stop_continuous */
    method StopContinuous()
      modifies this
      ensures State() == Stopped(old(State())) && exited == old(exited)
    {
      liveViewActive := false;
    }

    /** get_latest_image */
    method GetLatestImage() returns (r: Option<ImageId>)
      ensures r == latestImage
    {
      r := latestImage;
    }

    /**
     * _do_preview, given what gp_camera_capture_preview delivered: the image; None
     * after a GPhoto2Error, which also switches live view off; Raised for data that
     * cannot be decoded.
     */
    method DoPreview(preview: Delivery) returns (r: Outcome)
      modifies this
      ensures preview.Delivered? ==> r == Returned(Some(preview.image))
      ensures preview.GPhotoFailed? ==> r == Returned(None)
      ensures preview.Undecodable? ==> r == Raised
      ensures State() == Previewed(old(State()), preview) && exited == old(exited)
    {
      match preview
      case Delivered(image) =>
        r := Returned(Some(image));
      case GPhotoFailed =>
        liveViewActive := false;
        r := Returned(None);
      case Undecodable =>
        r := Raised;
    }

    /**
     * one_shot: refused while running; Raised when _set_config raises; None for a RAW
     * format; otherwise exactly one preview.
     */
    method OneShot(accepted: bool, preview: Delivery) returns (r: Outcome)
      modifies this, config
      ensures old(running) ==> r == Returned(None) && State() == old(State()) && config.State() == old(config.State())
      ensures !old(running) ==>
        config.State() == Selected(config.hasTargetWidget, config.choices, old(config.State()), accepted) &&
        r == (if SelectRaises(config.hasTargetWidget, config.choices, accepted) then Raised
              else if !PreviewAllowed(config.imageFormat) then Returned(None)
              else match preview
                case Delivered(image) => Returned(Some(image))
                case GPhotoFailed => Returned(None)
                case Undecodable => Raised)
      ensures State() == Apply(old(State()),
        Op.OneShot(!SelectRaises(config.hasTargetWidget, config.choices, accepted) && PreviewAllowed(config.imageFormat), preview))
      ensures exited == old(exited)
    {
      if running {
        return Returned(None);
      }
      var ok, raised := config.SetConfig(accepted);
      if raised {
        return Raised;
      }
      if !ok {
        return Returned(None);
      }
      r := DoPreview(preview);
    }

    /**
     * take_photo, given whether the camera accepts set_config and what the capture
     * delivered: refused while running; otherwise the original capture target is
     * restored first (Raised when the camera rejects that), then the capture's image is
     * returned, None after a GPhoto2Error, Raised for data that cannot be decoded.
     */
    method TakePhoto(accepted: bool, capture: Delivery) returns (r: Outcome)
      modifies config
      ensures old(running) ==> r == Returned(None) && config.State() == old(config.State())
      ensures !old(running) ==>
        config.State() == Restored(config.hasTargetWidget, old(config.State()), accepted) &&
        r == (if RestoreRaises(config.hasTargetWidget, old(config.State()), accepted) then Raised
              else match capture
                case Delivered(image) => Returned(Some(image))
                case GPhotoFailed => Returned(None)
                case Undecodable => Raised)
    {
      if running {
        return Returned(None);
      }
      var raised := config.ResetConfig(accepted);
      if raised {
        return Raised;
      }
      match capture
      case Delivered(image) =>
        r := Returned(Some(image));
      case GPhotoFailed =>
        r := Returned(None);
      case Undecodable =>
        r := Raised;
    }

    /**
     * shut_down: stop the worker and restore the capture target; the camera is
     * released unless restoring raised.
     */
    method ShutDown(accepted: bool) returns (raised: bool)
      modifies this, config
      ensures State() == old(State()).(stopped := true)
      ensures config.State() == Restored(config.hasTargetWidget, old(config.State()), accepted)
      ensures raised == RestoreRaises(config.hasTargetWidget, old(config.State()), accepted)
      ensures exited == (old(exited) || !raised)
    {
      stopRequested := true;
      raised := config.ResetConfig(accepted);
      if !raised {
        exited := true;
      }
    }

    /** One iteration of run(). */
    method WorkerStep(preview: Delivery)
      modifies this
      ensures State() == Stepped(old(State()), preview) && exited == old(exited)
    {
      if !running || stopRequested || workerDied {
        return;
      }
      if liveViewActive {
        var image := DoPreview(preview);
        match image
        case Returned(i) =>
          if i.Some? {
            latestImage := i;
          }
        case Raised =>
          workerDied := true;
      }
    }
  }
}

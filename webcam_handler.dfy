/**
 * The webcam handler (cameras/webcam_camera_handler.py): an OpenCV device opened
 * lazily by start_continuous, a background worker that copies each frame it reads
 * into the latest-image slot while live view is active, and a photo that is the sixth
 * read after five flushed ones.
 *
 * The worker thread is one sequential step of its loop (WorkerStep). The device that
 * cv2.VideoCapture(camera_index) would return is passed to StartContinuous.
 */
module WebcamHandler {

  import opened Common
  import Cv2

  /** Frames read and thrown away before the one that becomes the photo. */
  const FlushReads := 5

  class WebcamHandler {
    const cameraIndex: int
    /** None until start_continuous first opens a device. */
    var camera: Cv2.VideoCapture?
    var running: bool
    var liveViewActive: bool
    var latestImage: Option<ImageId>
    /** How often the worker thread was started. */
    var workerStarts: nat
    /** The stop event is set. */
    var stopRequested: bool

    /** The worker has been started exactly once when `running` is set, never otherwise. */
    predicate Valid()
      reads this
    {
      workerStarts == if running then 1 else 0
    }

    /** The worker would read a frame in its next iteration. */
    predicate CanRead()
      reads this, camera
    {
      liveViewActive && camera != null && camera.isOpen
    }

    constructor (index: int)
      ensures cameraIndex == index && camera == null && Valid()
      ensures !running && !liveViewActive && latestImage == None && !stopRequested
    {
      cameraIndex := index;
      camera := null;
      running, liveViewActive, latestImage := false, false, None;
      workerStarts, stopRequested := 0, false;
    }

    /**
     * start_continuous: a device is opened only when there is none or the current one
     * is not open; live view is switched on in any case (even if opening failed) and
     * the worker is started unless it already runs.
     */
    method StartContinuous(device: Cv2.VideoCapture)
      modifies this
      requires Valid()
      ensures Valid() && running && liveViewActive
      ensures camera == if old(camera) == null || !old(camera.isOpen) then device else old(camera)
      ensures workerStarts == old(workerStarts) + (if old(running) then 0 else 1)
      ensures latestImage == old(latestImage) && stopRequested == old(stopRequested)
    {
      if camera == null || !camera.isOpen {
        camera := device;
      }
      liveViewActive := true;
      if !running {
        running := true;
        workerStarts := workerStarts + 1;
      }
    }

    /** stop_continuous: only live view is switched off. */
    method StopContinuous()
      modifies this
      ensures !liveViewActive
      ensures camera == old(camera) && running == old(running) && latestImage == old(latestImage)
      ensures workerStarts == old(workerStarts) && stopRequested == old(stopRequested)
    {
      liveViewActive := false;
    }

    /** get_latest_image: None until the worker has stored a frame. */
    method GetLatestImage() returns (r: Option<ImageId>)
      ensures r == latestImage
    {
      r := latestImage;
    }

    /**
     * One iteration of run(): a started, not stopped worker reads one frame when live
     * view is active and the device is open, and stores it only if the read succeeded.
     * In every other case nothing is read and nothing changes.
     */
    method WorkerStep()
      modifies this, camera
      ensures camera == old(camera) && liveViewActive == old(liveViewActive)
      ensures running == old(running) && workerStarts == old(workerStarts) && stopRequested == old(stopRequested)
      ensures camera != null ==> camera.isOpen == old(camera.isOpen)
      ensures old(running && !stopRequested && CanRead()) ==>
        camera.readCount == old(camera.readCount) + 1 &&
        latestImage == (if camera.FrameAt(old(camera.readCount)).Some?
                        then camera.FrameAt(old(camera.readCount)) else old(latestImage))
      ensures !old(running && !stopRequested && CanRead()) ==>
        latestImage == old(latestImage) && (camera != null ==> camera.readCount == old(camera.readCount))
    {
      if !running || stopRequested {
        return;
      }
      if liveViewActive && camera != null && camera.isOpen {
        var frame := camera.Read();
        if frame.Some? {
          latestImage := frame;
        }
      }
    }

    /**
     * take_photo: with an open device, flush five frames and return the sixth read
     * if it succeeded; without one, read nothing and return None.
     */
    method TakePhoto() returns (r: Option<ImageId>)
      modifies camera
      ensures camera != null ==> camera.isOpen == old(camera.isOpen)
      ensures camera != null && old(camera.isOpen) ==>
        camera.readCount == old(camera.readCount) + FlushReads + 1 &&
        r == camera.FrameAt(old(camera.readCount) + FlushReads)
      ensures camera == null || !old(camera.isOpen) ==>
        r == None && (camera != null ==> camera.readCount == old(camera.readCount))
    {
      if camera != null && camera.isOpen {
        for i := 0 to FlushReads
          invariant camera.isOpen
          invariant camera.readCount == old(camera.readCount) + i
        {
          var _ := camera.Read();
        }
        r := camera.Read();
        return;
      }
      r := None;
    }

    /** shut_down: set the stop event and release the device, if there is one. */
    method ShutDown()
      modifies this, camera
      ensures stopRequested && camera == old(camera) && (camera != null ==> !camera.isOpen)
      ensures running == old(running) && liveViewActive == old(liveViewActive)
      ensures latestImage == old(latestImage) && workerStarts == old(workerStarts)
    {
      stopRequested := true;
      if camera != null {
        camera.Release();
      }
    }
  }
}

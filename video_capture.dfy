/**
 * An OpenCV capture device (cv2.VideoCapture) as the photobooth uses it: whether it
 * opened, and a script of what each successive read returns. The device itself is
 * outside the model; the script stands for whatever the camera delivers.
 */
module Cv2 {

  import opened Common

  class VideoCapture {
    /** The frame each successful read returns, in order; a read past the end fails. */
    const script: seq<Option<ImageId>>
    var isOpen: bool
    /** The number of reads made while the device was open. */
    var readCount: nat

    /** cv2.VideoCapture(index): `opens` says whether the device could be opened. */
    constructor (opens: bool, frames: seq<Option<ImageId>>)
      ensures script == frames && isOpen == opens && readCount == 0
    {
      script := frames;
      isOpen := opens;
      readCount := 0;
    }

    /** What the k-th read of an open device returns. */
    function FrameAt(k: nat): Option<ImageId> {
      if k < |script| then script[k] else None
    }

    predicate IsOpened()
      reads this
    {
      isOpen
    }

    /** read(): (ret, frame); a device that is not open returns (False, None) and reads nothing. */
    method Read() returns (frame: Option<ImageId>)
      modifies this
      ensures isOpen == old(isOpen)
      ensures old(isOpen) ==> readCount == old(readCount) + 1 && frame == FrameAt(old(readCount))
      ensures !old(isOpen) ==> readCount == old(readCount) && frame == None
    {
      if isOpen {
        frame := FrameAt(readCount);
        readCount := readCount + 1;
      } else {
        frame := None;
      }
    }

    /** release(): the device is closed; later reads fail. */
    method Release()
      modifies this
      ensures !isOpen && readCount == old(readCount)
    {
      isOpen := false;
    }
  }
}

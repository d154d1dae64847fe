/**
 * The countdown screen (screens/countdown_screen.py): a count and a one-second timer
 * driven by the frame time dt. Each time the timer runs out the count drops by one;
 * once it drops below zero a photo is taken through a freshly opened OpenCV device,
 * saved, and shown on the preview screen. A failed read stays on this screen, so the
 * next expiry tries again.
 */
module CountdownScreen {

  import opened Common
  import TextUtil
  import Cv2

  const StartCount := 3
  /** The timer's value after each expiry, in seconds. */
  const TickSeconds: real := 1.0
  /** Frames read and thrown away before the one that is kept. */
  const WarmUpReads := 5

  /** The count and the timer. */
  datatype Countdown = Countdown(count: int, timer: real)

  /** The timer runs out in an update of length dt. */
  predicate Expires(c: Countdown, dt: real) {
    c.timer - dt <= 0.0
  }

  /** The update of length dt attempts a capture. */
  predicate Fires(c: Countdown, dt: real) {
    Expires(c, dt) && c.count - 1 < 0
  }

  /**
   * One update: the timer loses dt; when it reaches 0 the count drops by one and the
   * timer restarts at exactly TickSeconds, whatever the overshoot.
   */
  function Ticked(c: Countdown, dt: real): (r: Countdown)
    ensures Expires(c, dt) ==> r.count == c.count - 1 && r.timer == TickSeconds
    ensures !Expires(c, dt) ==> r.count == c.count && r.timer == c.timer - dt && r.timer > 0.0
  {
    var t := c.timer - dt;
    if t <= 0.0 then Countdown(c.count - 1, TickSeconds) else Countdown(c.count, t)
  }

  /** The state after a sequence of updates. */
  function Run(c: Countdown, dts: seq<real>): Countdown
    decreases |dts|
  {
    if dts == [] then c else Run(Ticked(c, dts[0]), dts[1..])
  }

  /** How many of those updates saw the timer run out. */
  function Expiries(c: Countdown, dts: seq<real>): nat
    decreases |dts|
  {
    if dts == [] then 0 else (if Expires(c, dts[0]) then 1 else 0) + Expiries(Ticked(c, dts[0]), dts[1..])
  }

  /** The count only ever moves on expiry, one step at a time. */
  lemma {:induction false} CountIsExpiries(c: Countdown, dts: seq<real>)
    ensures Run(c, dts).count == c.count - Expiries(c, dts)
    decreases |dts|
  {
    if dts != [] {
      CountIsExpiries(Ticked(c, dts[0]), dts[1..]);
    }
  }

  /**
   * From a fresh screen, an update attempts a capture exactly when it brings the
   * fourth expiry or a later one: the first three expiries only count down, and after
   * a failed capture every further expiry tries again.
   */
  lemma FiresFromFourthExpiry(dts: seq<real>, dt: real)
    ensures var c := Run(Countdown(StartCount, TickSeconds), dts);
      Fires(c, dt) <==> Expires(c, dt) && Expiries(Countdown(StartCount, TickSeconds), dts) + 1 >= 4
  {
    CountIsExpiries(Countdown(StartCount, TickSeconds), dts);
  }

  /** The digit on screen: count + 1 while the count is not negative, nothing after. */
  function Displayed(count: int): Option<string> {
    if count >= 0 then Some(TextUtil.NatToString(count + 1)) else None
  }

  /**
   * A fresh screen shows 4, 3, 2, 1 between its expiries and nothing from the fourth
   * expiry on.
   */
  lemma DisplayedDigits(dts: seq<real>)
    ensures var k := Expiries(Countdown(StartCount, TickSeconds), dts);
      var shown := Displayed(Run(Countdown(StartCount, TickSeconds), dts).count);
      (k <= 3 ==> shown == Some([TextUtil.DigitChar(4 - k)])) && (k >= 4 ==> shown == None)
  {
    CountIsExpiries(Countdown(StartCount, TickSeconds), dts);
  }

  /** os.path.join("photos", f"photo_{timestamp}.jpg") */
  function PhotoPath(timestamp: string): string {
    "photos/photo_" + timestamp + ".jpg"
  }

  /** A successful capture: the frame, the path it was saved under, and the preview shown. */
  datatype Capture = Capture(photo: ImageId, savedAs: string)

  class CountdownScreen {
    var count: int
    var timer: real

    constructor ()
      ensures count == StartCount && timer == TickSeconds
    {
      count := StartCount;
      timer := TickSeconds;
    }

    /**
     * update(context): ticks the countdown; when a capture is due, `cam` is the device
     * cv2.VideoCapture(0) opens. The capture reads and discards WarmUpReads frames,
     * keeps the next read and releases the device; a failed read returns without
     * switching, otherwise the frame is saved and shown on the preview screen.
     */
    method Update(dt: real, cam: Cv2.VideoCapture, timestamp: string) returns (r: Option<Capture>)
      modifies this, cam
      ensures Countdown(count, timer) == Ticked(Countdown(old(count), old(timer)), dt)
      ensures !Fires(Countdown(old(count), old(timer)), dt) ==>
        r == None && cam.isOpen == old(cam.isOpen) && cam.readCount == old(cam.readCount)
      ensures Fires(Countdown(old(count), old(timer)), dt) ==>
        !cam.isOpen &&
        (old(cam.isOpen) ==> cam.readCount == old(cam.readCount) + WarmUpReads + 1) &&
        r == (if old(cam.isOpen) && cam.FrameAt(old(cam.readCount) + WarmUpReads).Some?
              then Some(Capture(cam.FrameAt(old(cam.readCount) + WarmUpReads).value, PhotoPath(timestamp)))
              else None)
    {
      r := None;
      timer := timer - dt;
      if timer <= 0.0 {
        count := count - 1;
        timer := TickSeconds;
        if count < 0 {
          for i := 0 to WarmUpReads
            invariant count == old(count) - 1 && timer == TickSeconds
            invariant cam.isOpen == old(cam.isOpen)
            invariant cam.readCount == if old(cam.isOpen) then old(cam.readCount) + i else old(cam.readCount)
          {
            var _ := cam.Read();
          }
          var frame := cam.Read();
          cam.Release();
          if frame.None? {
            return;
          }
          r := Some(Capture(frame.value, PhotoPath(timestamp)));
        }
      }
    }

    /** draw: the digit shown over the background, if any. */
    function Draw(): Option<string>
      reads this
    {
      Displayed(count)
    }
  }
}
